/**
 * Post-processing in `generate_personalized_questions_from_resume`: the
 * language model's reply becomes a list of `{"question": ...}` records.
 *
 * The reply is stripped, a markdown fence is removed, the first
 * `[...]` fragment is cut out and parsed.  A parsed list of question objects
 * or of strings is accepted (truncated to the requested count); any other
 * parsed value gives `[]`.  Only when parsing raises does the line heuristic
 * run over the fence-stripped text.
 */
module QuestionGenerator {
  import opened Wrappers
  import opened Text
  import opened Seqs
  import opened JsonValue

  const JsonFence: string := "```json"
  const Fence: string := "```"

  // ---------------------------------------------------------------------------
  // Fence stripping
  // ---------------------------------------------------------------------------

  /** The opening-fence part of the removal: a leading "```json", then a leading "```". */
  function DropOpening(raw: string): string {
    var a := if StartsWith(raw, JsonFence) then raw[|JsonFence|..] else raw;
    if StartsWith(a, Fence) then a[|Fence|..] else a
  }

  /** The closing-fence part of the removal: a trailing "```". */
  function DropClosing(b: string): string {
    if EndsWith(b, Fence) then b[..|b| - |Fence|] else b
  }

  /** The fence removal as a value: opening fence, closing fence, then surrounding whitespace. */
  function StripFence(raw: string): string {
    Trim(DropClosing(DropOpening(raw)))
  }

  /** The fence removal as the source performs it, reassigning the text step by step. */
  method RemoveFence(raw: string) returns (content: string)
    ensures content == StripFence(raw)
  {
    content := raw;
    if StartsWith(content, JsonFence) {
      content := content[7..];
    }
    if StartsWith(content, Fence) {
      content := content[3..];
    }
    assert content == DropOpening(raw);
    if EndsWith(content, Fence) {
      content := content[..|content| - 3];
    }
    assert content == DropClosing(DropOpening(raw));
    content := Trim(content);
  }

  /** A text that starts with "```json" also starts with "```". */
  lemma JsonFenceIsFence(s: string)
    requires StartsWith(s, JsonFence)
    ensures StartsWith(s, Fence)
  {
    assert s[..3] == s[..7][..3];
  }

  /** Both fence tags are removed from a text that opens with a tag followed by a newline. */
  lemma OpeningDropped(tail: string)
    requires tail != [] && tail[0] == '\n'
    ensures DropOpening(JsonFence + tail) == tail
    ensures DropOpening(Fence + tail) == tail
  {
    assert !StartsWith(tail, Fence);
    var tagged := JsonFence + tail;
    assert tagged[..|JsonFence|] == JsonFence && tagged[|JsonFence|..] == tail;
    var plain := Fence + tail;
    assert plain[..|Fence|] == Fence && plain[|Fence|..] == tail;
    assert plain[3] != JsonFence[3];
  }

  /**
   * Wrapping a payload in a fence (tagged or not) is transparent: the
   * stripped text is the payload, as for the bare payload itself.
   */
  lemma FenceWrapTransparent(p: string)
    requires p == [] || (!IsSpace(p[0]) && !IsSpace(p[|p| - 1]))
    requires !StartsWith(p, Fence) && !EndsWith(p, Fence)
    ensures StripFence(JsonFence + "\n" + p + "\n" + Fence) == p
    ensures StripFence(Fence + "\n" + p + "\n" + Fence) == p
    ensures StripFence(p) == p
  {
    TaggedFenceDropped(JsonFence, p);
    TaggedFenceDropped(Fence, p);
    BarePayloadKept(p);
  }

  /** Either opening tag, a newline, the payload, a newline and a closing fence strip to the payload. */
  lemma TaggedFenceDropped(tag: string, p: string)
    requires tag == JsonFence || tag == Fence
    requires p == [] || (!IsSpace(p[0]) && !IsSpace(p[|p| - 1]))
    ensures StripFence(tag + "\n" + p + "\n" + Fence) == p
  {
    var body := "\n" + p + "\n";
    var tail := body + Fence;
    var wrapped := tag + "\n" + p + "\n" + Fence;
    assert wrapped == tag + tail;
    OpeningDropped(tail);
    ClosingDropped(body);
    assert DropClosing(DropOpening(wrapped)) == body;
    TrimSurrounded("\n", p, "\n");
  }

  /** A closing fence is cut off, leaving what came before it. */
  lemma ClosingDropped(body: string)
    ensures DropClosing(body + Fence) == body
  {
    var b := body + Fence;
    assert b[|b| - |Fence|..] == Fence && b[..|b| - |Fence|] == body;
  }

  /** A trimmed payload without fences passes through the removal unchanged. */
  lemma BarePayloadKept(p: string)
    requires p == [] || (!IsSpace(p[0]) && !IsSpace(p[|p| - 1]))
    requires !StartsWith(p, Fence) && !EndsWith(p, Fence)
    ensures StripFence(p) == p
  {
    if StartsWith(p, JsonFence) {
      JsonFenceIsFence(p);
    }
    assert DropOpening(p) == p;
    TrimIdempotent(p);
  }

  // ---------------------------------------------------------------------------
  // The array fragment
  // ---------------------------------------------------------------------------

  /**
   * The non-greedy `(\[.*?\])` search: from the first '[' through the first
   * ']' after it; the whole text when there is no such pair.
   */
  function ArrayFragment(s: string): string {
    match FindChar(s, '[', 0)
    case None => s
    case Some(i) =>
      match FindChar(s, ']', i + 1)
      case None => s
      case Some(j) => s[i..j + 1]
  }

  /** Some '[' in the text has a ']' somewhere after it. */
  predicate HasBracketPair(s: string) {
    exists i, j :: 0 <= i < j < |s| && s[i] == '[' && s[j] == ']'
  }

  /**
   * When the text holds a '[' with a ']' somewhere after it, the fragment is
   * the span from the first '[' to the first ']' following it; otherwise the
   * search fails and the whole text is parsed.
   */
  lemma ArrayFragmentSpan(s: string)
    ensures HasBracketPair(s) ==>
      exists i, j :: 0 <= i < j < |s| && ArrayFragment(s) == s[i..j + 1] &&
        s[i] == '[' && s[j] == ']' &&
        (forall k :: 0 <= k < i ==> s[k] != '[') && (forall k :: i < k < j ==> s[k] != ']')
    ensures !HasBracketPair(s) ==> ArrayFragment(s) == s
  {
    match FindChar(s, '[', 0)
    case None =>
      assert !HasBracketPair(s);
    case Some(i) =>
      match FindChar(s, ']', i + 1)
      case None =>
      case Some(j) =>
        assert HasBracketPair(s);
  }

  // ---------------------------------------------------------------------------
  // Shape check of a parsed value
  // ---------------------------------------------------------------------------

  /** `isinstance(q, dict) and 'question' in q and isinstance(q['question'], str) and q['question'].strip()` */
  predicate IsQuestionObject(q: Json) {
    q.JObj? && "question" in q.fields && q.fields["question"].JStr? && !IsBlank(q.fields["question"].s)
  }

  /** `isinstance(q, str) and q.strip()` */
  predicate IsQuestionText(q: Json) {
    q.JStr? && !IsBlank(q.s)
  }

  /** `{"question": text}` */
  function QuestionRecord(text: string): Json {
    Single("question", JStr(text))
  }

  /** Each text wrapped as a question record, in order. */
  function Records(texts: seq<string>): (r: seq<Json>)
    ensures |r| == |texts| && forall k :: 0 <= k < |r| ==> r[k] == QuestionRecord(texts[k])
  {
    seq(|texts|, k requires 0 <= k < |texts| => QuestionRecord(texts[k]))
  }

  predicate AllQuestionObjects(items: seq<Json>) {
    forall k :: 0 <= k < |items| ==> IsQuestionObject(items[k])
  }

  predicate AllQuestionTexts(items: seq<Json>) {
    forall k :: 0 <= k < |items| ==> IsQuestionText(items[k])
  }

  /** The texts of a list of strings. */
  function Texts(items: seq<Json>): (r: seq<string>)
    requires AllQuestionTexts(items)
    ensures |r| == |items| && forall k :: 0 <= k < |r| ==> items[k] == JStr(r[k])
  {
    seq(|items|, k requires 0 <= k < |items| => items[k].s)
  }

  /** What a successfully parsed value yields (lines 66-73 and 90). */
  function FromParsed(v: Json, n: int): (r: seq<Json>)
    ensures 0 <= n ==> |r| <= n
  {
    if v.JArr? && AllQuestionObjects(v.items) then SliceTo(v.items, n)
    else if v.JArr? && AllQuestionTexts(v.items) then Records(Texts(SliceTo(v.items, n)))
    else []
  }

  // ---------------------------------------------------------------------------
  // Line heuristic
  // ---------------------------------------------------------------------------

  /** The optional mark after an enumerator: `[\).\-]`. */
  predicate IsMark(c: char) {
    c == ')' || c == '.' || c == '-'
  }

  /** The capture group of `^[0-9]+[\).\-]?\s*(.*)` on a numbered line. */
  function AfterEnumerator(t: string): string
    requires t != [] && IsDigit(t[0])
  {
    var d := LeadingDigits(t);
    var e := if d < |t| && IsMark(t[d]) then d + 1 else d;
    TrimStart(t[e..])
  }

  /** The question one line contributes, if any (lines 78-85). */
  function LineCandidate(line: string): (r: Option<string>)
    ensures r.Some? ==> Trimmed(r.value)
  {
    var t := Trim(line);
    if t != [] && IsDigit(t[0]) then
      var q := Trim(AfterEnumerator(t));
      if q != [] then Some(q) else None
    else if t != [] then Some(t)
    else None
  }

  /** The candidates of a sequence of lines, in line order. */
  function Candidates(lines: seq<string>): seq<string> {
    if lines == [] then []
    else
      var last := LineCandidate(lines[|lines| - 1]);
      Candidates(lines[..|lines| - 1]) + (if last.Some? then [last.value] else [])
  }

  /** One more line adds its candidate, if any, at the end. */
  lemma CandidatesStep(lines: seq<string>, i: nat)
    requires i < |lines|
    ensures var c := LineCandidate(lines[i]);
      Candidates(lines[..i + 1]) == Candidates(lines[..i]) + (if c.Some? then [c.value] else [])
  {
    assert lines[..i + 1][..i] == lines[..i];
  }

  /** The loop of lines 77-85, appending one candidate per useful line. */
  method CollectCandidates(content: string) returns (questions: seq<string>)
    ensures questions == Candidates(Split(content, '\n'))
  {
    var lines := Split(content, '\n');
    questions := [];
    var i := 0;
    while i < |lines|
      invariant 0 <= i <= |lines|
      invariant questions == Candidates(lines[..i])
    {
      CandidatesStep(lines, i);
      var line := Trim(lines[i]);
      if line != [] && IsDigit(line[0]) {
        var q := Trim(AfterEnumerator(line));
        if q != [] {
          questions := questions + [q];
          assert LineCandidate(lines[i]) == Some(q);
        } else {
          assert LineCandidate(lines[i]) == None;
        }
      } else if line != [] {
        questions := questions + [line];
        assert LineCandidate(lines[i]) == Some(line);
      } else {
        assert LineCandidate(lines[i]) == None;
      }
      i := i + 1;
    }
    assert lines[..|lines|] == lines;
  }

  /** The artifact filter of line 87: only candidates longer than five characters survive. */
  predicate LongEnough(q: string) {
    q != [] && |q| > 5
  }

  /** The fallback result of lines 76-88. */
  function FallbackQuestions(content: string, n: int): (r: seq<Json>)
    ensures 0 <= n ==> |r| <= n
  {
    SliceTo(Records(Filter(Candidates(Split(content, '\n')), LongEnough)), n)
  }

  // ---------------------------------------------------------------------------
  // The whole extraction
  // ---------------------------------------------------------------------------

  /** The questions extracted from fence-stripped text. */
  function FromContent(content: string, n: int, parse: Parser): (r: seq<Json>)
    ensures 0 <= n ==> |r| <= n
  {
    match parse(ArrayFragment(content))
    case Some(v) => FromParsed(v, n)
    case None => FallbackQuestions(content, n)
  }

  /** The questions extracted from a model reply, as a value. */
  function ExtractQuestions(reply: string, n: int, parse: Parser): seq<Json> {
    FromContent(StripFence(Trim(reply)), n, parse)
  }

  /** The post-processing of `generate_personalized_questions_from_resume` (lines 44-90). */
  method GeneratePersonalizedQuestions(reply: string, numQuestions: int, parse: Parser)
    returns (questions: seq<Json>)
    ensures questions == ExtractQuestions(reply, numQuestions, parse)
    ensures 0 <= numQuestions ==> |questions| <= numQuestions
  {
    var rawContent := RemoveFence(Trim(reply));
    var jsonStr := ArrayFragment(rawContent);
    match parse(jsonStr) {
      case Some(v) =>
        questions := FromParsed(v, numQuestions);
      case None =>
        var candidates := CollectCandidates(rawContent);
        questions := SliceTo(Records(Filter(candidates, LongEnough)), numQuestions);
    }
  }

  // ---------------------------------------------------------------------------
  // Properties
  // ---------------------------------------------------------------------------

  /** No return path yields more than the requested number of questions. */
  lemma ExtractBound(reply: string, n: nat, parse: Parser)
    ensures |ExtractQuestions(reply, n, parse)| <= n
  {
  }


  /** A parsed list of question objects comes back as it is, only truncated. */
  lemma ObjectsReturnedAsIs(items: seq<Json>, n: int)
    requires AllQuestionObjects(items)
    ensures FromParsed(JArr(items), n) == SliceTo(items, n)
  {
  }

  /** A parsed list of non-blank strings becomes question records, order kept, truncated. */
  lemma StringsPromoted(items: seq<Json>, n: int)
    requires AllQuestionTexts(items)
    ensures var r := FromParsed(JArr(items), n);
      |r| == |SliceTo(items, n)| &&
      forall k :: 0 <= k < |r| ==> items[k].JStr? && r[k] == QuestionRecord(items[k].s)
  {
    if items != [] {
      assert !IsQuestionObject(items[0]);
    }
    var cut := SliceTo(items, n);
    assert AllQuestionTexts(cut) by {
      forall k | 0 <= k < |cut| ensures IsQuestionText(cut[k]) {
        assert cut[k] == items[k];
      }
    }
    var r := FromParsed(JArr(items), n);
    assert r == Records(Texts(cut));
    forall k | 0 <= k < |r|
      ensures items[k].JStr? && r[k] == QuestionRecord(items[k].s)
    {
      assert cut[k] == items[k];
    }
  }

  /**
   * A value that parses but has neither accepted shape yields no questions:
   * the line heuristic is not tried.
   */
  lemma WrongShapeGivesNothing(reply: string, n: int, parse: Parser, v: Json)
    requires parse(ArrayFragment(StripFence(Trim(reply)))) == Some(v)
    requires !(v.JArr? && (AllQuestionObjects(v.items) || AllQuestionTexts(v.items)))
    ensures ExtractQuestions(reply, n, parse) == []
  {
  }

  /**
   * The line heuristic keeps exactly the line candidates longer than five
   * characters, in line order, and returns a record for each of the first `n`.
   */
  lemma FallbackShape(content: string, n: nat)
    ensures var kept := Filter(Candidates(Split(content, '\n')), LongEnough);
      var r := FallbackQuestions(content, n);
      |r| == (if n < |kept| then n else |kept|) &&
      (forall k :: 0 <= k < |r| ==> r[k] == QuestionRecord(kept[k]) && |kept[k]| > 5) &&
      (forall c :: c in Candidates(Split(content, '\n')) && |c| > 5 ==> c in kept) &&
      IsSubsequence(kept, Candidates(Split(content, '\n')))
  {
    var cands := Candidates(Split(content, '\n'));
    var kept := Filter(cands, LongEnough);
    var r := FallbackQuestions(content, n);
    var recs := Records(kept);
    assert r == recs[..|r|];
    forall k | 0 <= k < |r|
      ensures r[k] == QuestionRecord(kept[k]) && |kept[k]| > 5
    {
      assert r[k] == recs[k];
      assert LongEnough(kept[k]);
    }
    forall c | c in cands && |c| > 5
      ensures c in kept
    {
      assert LongEnough(c);
    }
    FilterIsSubsequence(cands, LongEnough);
  }

  /** A non-empty text with no whitespace at either end, as `strip` leaves it. */
  predicate Trimmed(t: string) {
    t != [] && !IsSpace(t[0]) && !IsSpace(t[|t| - 1])
  }

  /** Every line candidate is a stripped, non-empty text. */
  lemma {:induction false} CandidatesTrimmed(lines: seq<string>)
    ensures forall k :: 0 <= k < |Candidates(lines)| ==> Trimmed(Candidates(lines)[k])
  {
    if lines != [] {
      var prev := Candidates(lines[..|lines| - 1]);
      var last := LineCandidate(lines[|lines| - 1]);
      var tail := if last.Some? then [last.value] else [];
      assert Candidates(lines) == prev + tail;
      CandidatesTrimmed(lines[..|lines| - 1]);
      assert forall k :: 0 <= k < |tail| ==> Trimmed(tail[k]);
    }
  }

  /**
   * Every extracted question is an object whose "question" is a non-blank
   * string, whichever path produced it; callers may index `q['question']`.
   */
  lemma ExtractedAreQuestionObjects(content: string, n: int, parse: Parser)
    ensures AllQuestionObjects(FromContent(content, n, parse))
  {
    var r := FromContent(content, n, parse);
    match parse(ArrayFragment(content)) {
      case Some(v) =>
        if v.JArr? && !AllQuestionObjects(v.items) && AllQuestionTexts(v.items) {
          var cut := SliceTo(v.items, n);
          forall k | 0 <= k < |r| ensures IsQuestionObject(r[k]) {
            assert cut[k] == v.items[k];
            assert IsQuestionText(cut[k]);
          }
        }
      case None =>
        var cands := Candidates(Split(content, '\n'));
        var kept := Filter(cands, LongEnough);
        var recs := Records(kept);
        CandidatesTrimmed(Split(content, '\n'));
        forall k | 0 <= k < |r| ensures IsQuestionObject(r[k]) {
          assert r[k] == recs[k];
          assert kept[k] in cands;
          TrimIdempotent(kept[k]);
        }
    }
  }

  /** A whitespace run followed by a trimmed text loses exactly the run. */
  lemma SkipToText(ws: string, q: string)
    requires forall i :: 0 <= i < |ws| ==> IsSpace(ws[i])
    requires q == [] || (!IsSpace(q[0]) && !IsSpace(q[|q| - 1]))
    ensures TrimStart(ws + q) == q
  {
    TrimStartSkips(ws, q);
  }

  /**
   * A numbered line ("3) ...", "3. ...", "3- ...", "3 ...") contributes the
   * text after the number and its mark, the number dropped.
   */
  lemma NumberedLine(d: string, mark: string, ws: string, q: string)
    requires d != [] && AllDigits(d)
    requires |mark| <= 1 && (mark != [] ==> IsMark(mark[0]))
    requires forall i :: 0 <= i < |ws| ==> IsSpace(ws[i])
    requires mark == [] ==> ws != []
    requires q != [] && !IsSpace(q[0]) && !IsSpace(q[|q| - 1])
    ensures LineCandidate(d + mark + ws + q) == Some(q)
  {
    var line := d + mark + ws + q;
    NumberedLineTrimmed(d, mark, ws, q);
    assert line[0] == d[0];
    assert AfterEnumerator(line) == q by {
      assert line == d + mark + (ws + q);
      AfterNumber(d, mark, ws + q);
      SkipToText(ws, q);
    }
    TrimIdempotent(q);
  }

  /** A line that starts with a digit and ends with the question is already trimmed. */
  lemma NumberedLineTrimmed(d: string, mark: string, ws: string, q: string)
    requires d != [] && AllDigits(d)
    requires q != [] && !IsSpace(q[|q| - 1])
    ensures Trim(d + mark + ws + q) == d + mark + ws + q
  {
    var line := d + mark + ws + q;
    assert line[0] == d[0] && line[|line| - 1] == q[|q| - 1];
    TrimIdempotent(line);
  }

  /** The digits of a numbered line end where its mark, if any, starts. */
  lemma DigitsThenMark(d: string, mark: string, rest: string)
    requires d != [] && AllDigits(d)
    requires |mark| <= 1 && (mark != [] ==> IsMark(mark[0]))
    requires mark == [] ==> rest == [] || IsSpace(rest[0])
    ensures var t := d + mark + rest;
      LeadingDigits(t) == |d| && ((|d| < |t| && IsMark(t[|d|])) <==> mark != [])
  {
    var t := d + mark + rest;
    assert t == d + (mark + rest);
    LeadingDigitsOf(d, mark + rest);
    if mark != [] {
      assert t[|d|] == mark[0];
    } else if rest != [] {
      assert t[|d|] == rest[0];
    }
  }

  /** The enumerator of a numbered line is its digits and the one mark after them. */
  lemma AfterNumber(d: string, mark: string, rest: string)
    requires d != [] && AllDigits(d)
    requires |mark| <= 1 && (mark != [] ==> IsMark(mark[0]))
    requires mark == [] ==> rest == [] || IsSpace(rest[0])
    ensures AfterEnumerator(d + mark + rest) == TrimStart(rest)
  {
    var t := d + mark + rest;
    DigitsThenMark(d, mark, rest);
    assert t[|d| + |mark|..] == rest;
  }

  /** A line holding only a number and its mark contributes nothing. */
  lemma NumberOnlyDropped(d: string, mark: string)
    requires d != [] && AllDigits(d)
    requires |mark| <= 1 && (mark != [] ==> IsMark(mark[0]))
    ensures LineCandidate(d + mark) == None
  {
    var t := d + mark;
    assert AfterEnumerator(t) == [] by {
      assert t == d + mark + [];
      AfterNumber(d, mark, []);
    }
    assert t[0] == d[0] && !IsSpace(t[|t| - 1]);
    TrimIdempotent(t);
  }

  /**
   * A line that does not start with a digit is kept whole once trimmed:
   * bullet glyphs are not list markers here.
   */
  lemma UnnumberedLine(ws1: string, q: string, ws2: string)
    requires forall i :: 0 <= i < |ws1| ==> IsSpace(ws1[i])
    requires forall i :: 0 <= i < |ws2| ==> IsSpace(ws2[i])
    requires q != [] && !IsSpace(q[0]) && !IsSpace(q[|q| - 1]) && !IsDigit(q[0])
    ensures LineCandidate(ws1 + q + ws2) == Some(q)
  {
    TrimSurrounded(ws1, q, ws2);
  }

  /** A blank line contributes nothing. */
  lemma BlankLineDropped(line: string)
    requires IsBlank(line)
    ensures LineCandidate(line) == None
  {
  }

  /** A fenced reply has no surrounding whitespace to strip. */
  lemma FencedReplyTrimmed(p: string)
    ensures Trim(JsonFence + "\n" + p + "\n" + Fence) == JsonFence + "\n" + p + "\n" + Fence
  {
    var wrapped := JsonFence + "\n" + p + "\n" + Fence;
    var rest := "\n" + p + "\n";
    assert wrapped == JsonFence + (rest + Fence);
    assert wrapped[0] == JsonFence[0];
    assert wrapped[|wrapped| - 1] == Fence[2];
    TrimIdempotent(wrapped);
  }

  /** Extraction of a fenced payload equals extraction of the bare payload. */
  lemma FencedReplySameQuestions(p: string, n: int, parse: Parser)
    requires p == [] || (!IsSpace(p[0]) && !IsSpace(p[|p| - 1]))
    requires !StartsWith(p, Fence) && !EndsWith(p, Fence)
    ensures ExtractQuestions(JsonFence + "\n" + p + "\n" + Fence, n, parse) == ExtractQuestions(p, n, parse)
  {
    FenceWrapTransparent(p);
    FencedReplyTrimmed(p);
    TrimIdempotent(p);
  }

  /**
   * Prose around a JSON array is ignored: the fragment reaching the parser
   * runs from the first '[' to the first ']' after it.
   */
  lemma EmbeddedFragment(before: string, inner: string, after: string)
    requires '[' !in before && ']' !in inner
    ensures ArrayFragment(before + "[" + inner + "]" + after) == "[" + inner + "]"
  {
    var s := before + "[" + inner + "]" + after;
    var i := |before|;
    var j := |before| + 1 + |inner|;
    assert s[i] == '[' && s[j] == ']';
    assert forall k :: 0 <= k < i ==> s[k] == before[k];
    assert forall k :: i < k < j ==> s[k] == inner[k - i - 1];
    assert FindChar(s, '[', 0) == Some(i);
    assert FindChar(s, ']', i + 1) == Some(j);
    assert s[i..j + 1] == "[" + inner + "]";
  }
}
