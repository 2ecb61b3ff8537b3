/**
 * Post-processing in `analyze_communication` and
 * `generate_behavioral_insights`: the model reply is stripped of at most one
 * leading fence marker and a trailing one, then parsed.  A parse failure
 * gives a fixed default record (communication) or a line filter capped at
 * four entries (insights).
 */
module Sentiment {
  import opened Wrappers
  import opened Text
  import opened Seqs
  import opened JsonValue
  import QG = QuestionGenerator

  // ---------------------------------------------------------------------------
  // Fence stripping (lines 81-90 and 138-147)
  // ---------------------------------------------------------------------------

  /** One leading marker at most: "```json" preferred, else "```". */
  function DropMarker(s: string): string {
    if StartsWith(s, QG.JsonFence) then s[|QG.JsonFence|..]
    else if StartsWith(s, QG.Fence) then s[|QG.Fence|..]
    else s
  }

  /** The cleaned content as a value. */
  function CleanContent(reply: string): string {
    Trim(QG.DropClosing(DropMarker(Trim(reply))))
  }

  /** The cleaning as the source performs it, reassigning `content` step by step. */
  method RemoveMarkers(reply: string) returns (content: string)
    ensures content == CleanContent(reply)
  {
    content := Trim(reply);
    if StartsWith(content, QG.JsonFence) {
      content := content[7..];
    } else if StartsWith(content, QG.Fence) {
      content := content[3..];
    }
    assert content == DropMarker(Trim(reply));
    if EndsWith(content, QG.Fence) {
      content := content[..|content| - 3];
    }
    assert content == QG.DropClosing(DropMarker(Trim(reply)));
    content := Trim(content);
  }

  /**
   * The two fence strippers agree except on a text whose "```json" marker is
   * directly followed by another "```": only the question generator removes
   * that second marker.
   */
  lemma StrippersAgree(s: string)
    requires !(StartsWith(s, QG.JsonFence) && StartsWith(s[|QG.JsonFence|..], QG.Fence))
    ensures DropMarker(s) == QG.DropOpening(s)
  {
    if StartsWith(s, QG.JsonFence) {
      QG.JsonFenceIsFence(s);
    }
  }

  /** Neither a payload ending in something other than a backquote nor the payload behind a marker ends with a fence. */
  lemma NoClosingFence(p: string)
    requires p != [] && p[|p| - 1] != '`'
    ensures !EndsWith(p, QG.Fence) && !EndsWith(QG.Fence + p, QG.Fence)
  {
    var t := QG.Fence + p;
    assert t[|t| - 1] == p[|p| - 1];
  }

  /** A trimmed payload behind a marker is still trimmed. */
  lemma MarkedPayloadTrimmed(marker: string, p: string)
    requires marker != [] && !IsSpace(marker[0])
    requires p != [] && !IsSpace(p[|p| - 1])
    ensures Trim(marker + p) == marker + p
  {
    var t := marker + p;
    assert t[|t| - 1] == p[|p| - 1];
    assert t[0] == marker[0];
    TrimIdempotent(t);
  }

  /**
   * The two strippers differ on "```json```" followed by a payload: the
   * communication and insight cleaner keeps the second marker ...
   */
  lemma CleanerKeepsSecondMarker(p: string)
    requires p != [] && !IsSpace(p[|p| - 1]) && p[|p| - 1] != '`'
    ensures CleanContent(QG.JsonFence + QG.Fence + p) == QG.Fence + p
  {
    var t := QG.Fence + p;
    var s := QG.JsonFence + t;
    assert QG.JsonFence + QG.Fence + p == s;
    assert DropMarker(s) == t by {
      assert s[..|QG.JsonFence|] == QG.JsonFence;
      assert s[|QG.JsonFence|..] == t;
    }
    MarkedPayloadTrimmed(QG.JsonFence, t);
    NoClosingFence(p);
    MarkedPayloadTrimmed(QG.Fence, p);
  }

  /** ... while the question generator removes it. */
  lemma GeneratorDropsSecondMarker(p: string)
    requires p != [] && !IsSpace(p[0]) && !IsSpace(p[|p| - 1]) && p[|p| - 1] != '`'
    ensures QG.StripFence(Trim(QG.JsonFence + QG.Fence + p)) == p
  {
    var t := QG.Fence + p;
    var s := QG.JsonFence + t;
    assert QG.JsonFence + QG.Fence + p == s;
    assert QG.DropOpening(s) == p by {
      assert s[..|QG.JsonFence|] == QG.JsonFence;
      assert s[|QG.JsonFence|..] == t;
      assert t[..|QG.Fence|] == QG.Fence;
      assert t[|QG.Fence|..] == p;
    }
    MarkedPayloadTrimmed(QG.JsonFence, t);
    NoClosingFence(p);
    TrimIdempotent(p);
  }

  // ---------------------------------------------------------------------------
  // analyze_communication
  // ---------------------------------------------------------------------------

  const StrengthsPlaceholder: string := "Unable to parse communication strengths"
  const ImprovementsPlaceholder: string := "Unable to parse communication improvements"

  /** The record returned when the reply does not parse (lines 97-100). */
  const DefaultCommunication: Json :=
    JObj(map["strengths" := JArr([JStr(StrengthsPlaceholder)]),
             "improvements" := JArr([JStr(ImprovementsPlaceholder)])])

  /** The outcome of `analyze_communication` for a given model reply, as a value. */
  function Communication(reply: string, parse: Parser): Json {
    match parse(CleanContent(reply))
    case Some(v) => v
    case None => DefaultCommunication
  }

  /** The post-processing of `analyze_communication` (lines 81-100). */
  method AnalyzeCommunication(reply: string, parse: Parser) returns (analysis: Json)
    ensures analysis == Communication(reply, parse)
    ensures parse(CleanContent(reply)).Some? ==> analysis == parse(CleanContent(reply)).value
    ensures parse(CleanContent(reply)).None? ==> analysis == DefaultCommunication
  {
    var content := RemoveMarkers(reply);
    match parse(content) {
      case Some(v) => analysis := v;
      case None => analysis := DefaultCommunication;
    }
  }

  /**
   * The default record holds exactly the two keys, each with exactly one
   * placeholder string.
   */
  lemma DefaultCommunicationShape()
    ensures DefaultCommunication.JObj?
    ensures DefaultCommunication.fields.Keys == {"strengths", "improvements"}
    ensures DefaultCommunication.fields["strengths"] == JArr([JStr(StrengthsPlaceholder)])
    ensures DefaultCommunication.fields["improvements"] == JArr([JStr(ImprovementsPlaceholder)])
  {
  }

  // ---------------------------------------------------------------------------
  // Insight line fallback (lines 154-170)
  // ---------------------------------------------------------------------------

  /**
   * The bullet glyph as the source file stores it: the UTF-8 bytes of U+2022
   * read back as three characters.
   */
  const BulletGlyph: string := "\U{00E2}\U{20AC}\U{00A2}"

  /** The class `[-<bullet glyph>\s]` of line 164. */
  predicate IsBulletChar(c: char) {
    c == '-' || c == '\U{00E2}' || c == '\U{20AC}' || c == '\U{00A2}' || IsSpace(c)
  }

  /** `re.sub(r'^[-<bullet glyph>\s]+', '', line)`. */
  function DropBullets(s: string): (r: string)
    ensures |r| <= |s| && r == s[|s| - |r|..]
    ensures r == [] || !IsBulletChar(r[0])
    ensures forall i :: 0 <= i < |s| - |r| ==> IsBulletChar(s[i])
  {
    if s != [] && IsBulletChar(s[0]) then DropBullets(s[1..]) else s
  }

  /**
   * A line that is cleaned rather than length-checked: its first character is
   * one of the lead glyphs, or it starts with "- ", the bullet glyph and a
   * space, or "> ".
   */
  predicate IsMarked(t: string, lead: set<char>) {
    (t != [] && t[0] in lead) || StartsWith(t, "- ") || StartsWith(t, BulletGlyph + " ") || StartsWith(t, "> ")
  }

  /** The insight one line contributes, if any. */
  function InsightOf(line: string, lead: set<char>): (r: Option<string>)
    ensures r.Some? ==> r.value != []
  {
    var t := Trim(line);
    if IsMarked(t, lead) then
      var c := DropBullets(t);
      if c != [] then Some(c) else None
    else if t != [] && |t| > 10 then Some(t)
    else None
  }

  /** The insights of a sequence of lines, in line order. */
  function Insights(lines: seq<string>, lead: set<char>): seq<string> {
    if lines == [] then []
    else
      var last := InsightOf(lines[|lines| - 1], lead);
      Insights(lines[..|lines| - 1], lead) + (if last.Some? then [last.value] else [])
  }

  /** The loop of lines 156-168, appending to `insights`. */
  method CollectInsights(content: string, lead: set<char>) returns (insights: seq<string>)
    ensures insights == Insights(Split(content, '\n'), lead)
  {
    var lines := Split(content, '\n');
    insights := InsightsOfLines(lines, lead);
  }

  /** The body of that loop over the lines of the reply. */
  method InsightsOfLines(lines: seq<string>, lead: set<char>) returns (insights: seq<string>)
    ensures insights == Insights(lines, lead)
  {
    insights := [];
    var i := 0;
    while i < |lines|
      invariant 0 <= i <= |lines|
      invariant insights == Insights(lines[..i], lead)
    {
      assert lines[..i + 1][..i] == lines[..i];
      var insight := LineInsight(lines[i], lead);
      if insight.Some? {
        insights := insights + [insight.value];
      }
      i := i + 1;
    }
    assert lines[..|lines|] == lines;
  }

  /** One pass of that loop: the line cleaned of its bullets, or kept when long enough. */
  method LineInsight(rawLine: string, lead: set<char>) returns (insight: Option<string>)
    ensures insight == InsightOf(rawLine, lead)
  {
    var line := Trim(rawLine);
    insight := None;
    if IsMarked(line, lead) {
      var cleanLine := DropBullets(line);
      if cleanLine != [] {
        insight := Some(cleanLine);
      }
    } else if line != [] && |line| > 10 {
      insight := Some(line);
    }
  }

  /** Strings as JSON strings. */
  function StrList(xs: seq<string>): (r: seq<Json>)
    ensures |r| == |xs| && forall k :: 0 <= k < |r| ==> r[k] == JStr(xs[k])
  {
    seq(|xs|, k requires 0 <= k < |xs| => JStr(xs[k]))
  }

  /** The fallback record `{"insights": insights[:4]}`. */
  function InsightsRecord(content: string, lead: set<char>): Json {
    Single("insights", JArr(StrList(SliceTo(Insights(Split(content, '\n'), lead), 4))))
  }

  /** The outcome of `generate_behavioral_insights` for a given model reply, as a value. */
  function BehavioralInsights(reply: string, lead: set<char>, parse: Parser): Json {
    var content := CleanContent(reply);
    match parse(content)
    case Some(v) => v
    case None => InsightsRecord(content, lead)
  }

  /** The post-processing of `generate_behavioral_insights` (lines 138-170). */
  method GenerateBehavioralInsights(reply: string, lead: set<char>, parse: Parser) returns (result: Json)
    ensures result == BehavioralInsights(reply, lead, parse)
    ensures parse(CleanContent(reply)).Some? ==> result == parse(CleanContent(reply)).value
  {
    var content := RemoveMarkers(reply);
    match parse(content) {
      case Some(v) =>
        result := v;
      case None =>
        var insights := CollectInsights(content, lead);
        result := Single("insights", JArr(StrList(SliceTo(insights, 4))));
    }
  }

  // ---------------------------------------------------------------------------
  // Properties of the fallback
  // ---------------------------------------------------------------------------

  /** On a parse failure the fallback record is the result. */
  lemma ParseFailureGivesRecord(reply: string, lead: set<char>, parse: Parser)
    requires parse(CleanContent(reply)).None?
    ensures BehavioralInsights(reply, lead, parse) == InsightsRecord(CleanContent(reply), lead)
  {
  }

  /**
   * The fallback record is `{"insights": xs}` with at most four strings, the
   * first insights of the text in line order.
   */
  lemma FallbackAtMostFour(content: string, lead: set<char>)
    ensures var r := InsightsRecord(content, lead);
      var all := Insights(Split(content, '\n'), lead);
      r.JObj? && r.fields.Keys == {"insights"} && r.fields["insights"].JArr? &&
      |r.fields["insights"].items| == (if |all| < 4 then |all| else 4) &&
      forall k :: 0 <= k < |r.fields["insights"].items| ==> r.fields["insights"].items[k] == JStr(all[k])
  {
    var all := Insights(Split(content, '\n'), lead);
    var cut := SliceTo(all, 4);
    var items := StrList(cut);
    assert InsightsRecord(content, lead) == Single("insights", JArr(items));
    forall k | 0 <= k < |items| ensures items[k] == JStr(all[k]) {
      assert cut[k] == all[k];
    }
  }

  /** A "> " prefix is a marker but is not stripped: the quote sign survives. */
  lemma QuoteMarkerSurvives(q: string, lead: set<char>)
    requires q != [] && !IsSpace(q[|q| - 1])
    ensures InsightOf("> " + q, lead) == Some("> " + q)
  {
    var t := "> " + q;
    assert IsMarked(t, lead) by {
      assert t[..2] == "> ";
    }
    assert DropBullets(t) == t by {
      assert t[0] == '>';
    }
    MarkedPayloadTrimmed("> ", q);
  }

  /** After a "- " or bullet marker, the run of dashes, bullet characters and spaces is removed. */
  lemma BulletMarkerStripped(marker: string, q: string, lead: set<char>)
    requires marker == "- " || marker == BulletGlyph + " "
    requires q != [] && !IsBulletChar(q[0]) && !IsSpace(q[|q| - 1])
    ensures InsightOf(marker + q, lead) == Some(q)
  {
    var t := marker + q;
    assert IsMarked(t, lead) by {
      assert t[..|marker|] == marker;
    }
    assert DropBullets(t) == q by {
      assert forall i :: 0 <= i < |marker| ==> IsBulletChar(marker[i]);
      BulletRun(marker, q);
    }
    MarkedPayloadTrimmed(marker, q);
  }

  /** A run of bullet characters is exactly what `DropBullets` removes. */
  lemma {:induction false} BulletRun(run: string, q: string)
    requires forall i :: 0 <= i < |run| ==> IsBulletChar(run[i])
    requires q == [] || !IsBulletChar(q[0])
    ensures DropBullets(run + q) == q
    decreases |run|
  {
    if run == [] {
      assert run + q == q;
    } else {
      assert (run + q)[0] == run[0] && (run + q)[1..] == run[1..] + q;
      BulletRun(run[1..], q);
    }
  }

  /** An unmarked line is kept, whole and trimmed, exactly when it is longer than ten characters. */
  lemma UnmarkedLineKeptIffLong(line: string, lead: set<char>)
    requires !IsMarked(Trim(line), lead)
    ensures InsightOf(line, lead).Some? <==> |Trim(line)| > 10
    ensures InsightOf(line, lead).Some? ==> InsightOf(line, lead).value == Trim(line)
  {
  }
}
