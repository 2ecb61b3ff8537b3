/**
 * The recruiter dashboard's candidate filter: search, experience buckets,
 * rating and date range, combined by `filteredVideos`.  Dates are
 * millisecond timestamps; the mock rating, computed in floating point from
 * the video id, is an input predicate.
 */
module Dashboard {
  import opened Wrappers
  import opened Text
  import opened Seqs
  import opened FilterPanel

  datatype Candidate = Candidate(fullName: string, email: string, experience: string)

  /** A `Video` with its optional candidate details and creation time. */
  datatype Video = Video(id: string, title: string, candidate: Option<Candidate>, createdAt: Option<int>)

  /** One day in milliseconds: `setDate(getDate() + 1)`. */
  const DayMs: int := 24 * 60 * 60 * 1000

  /** `matchesSearchQuery` (lines 42-65): a case-insensitive substring test. */
  predicate MatchesSearchQuery(v: Video, query: string) {
    var q := ToLower(query);
    Contains(ToLower(v.title), q) ||
    (v.candidate.Some? &&
      (Contains(ToLower(v.candidate.value.fullName), q) ||
       Contains(ToLower(v.candidate.value.email), q) ||
       (v.candidate.value.experience != "" && Contains(ToLower(v.candidate.value.experience), q))))
  }

  /** JavaScript `parseInt(s)` in base ten; `None` is NaN. */
  function ParseInt(s: string): Option<int> {
    var t := TrimStart(s);
    var signed := t != [] && (t[0] == '-' || t[0] == '+');
    var body := if signed then t[1..] else t;
    var d := LeadingDigits(body);
    if d == 0 then None
    else
      var value: int := DigitsValue(body[..d]);
      Some(if signed && t[0] == '-' then -value else value)
  }

  /** Whether a parsed experience falls in a level's bucket; NaN falls in none. */
  predicate InBucket(level: string, years: Option<int>) {
    years.Some? &&
    (if level == "0-2" then 0 <= years.value <= 2
     else if level == "3-5" then 3 <= years.value <= 5
     else if level == "5+" then years.value > 5
     else false)
  }

  /** `matchesExperienceLevel` (lines 68-85). */
  predicate MatchesExperienceLevel(v: Video, levels: seq<string>) {
    v.candidate.Some? && v.candidate.value.experience != "" &&
    exists i | 0 <= i < |levels| :: InBucket(levels[i], ParseInt(v.candidate.value.experience))
  }

  /** `matchesDateRange` (lines 97-124). */
  predicate MatchesDateRange(v: Video, range: DateRange) {
    if v.createdAt.None? then true
    else if range.start.Some? && v.createdAt.value < range.start.value then false
    else if range.end.Some? && v.createdAt.value > range.end.value + DayMs then false
    else true
  }

  /** The test of lines 205-235 for one video; `ratingOk` is `matchesRatingMin`. */
  predicate Keep(v: Video, f: Filters, ratingOk: (Video, real) -> bool) {
    (f.searchQuery == "" || MatchesSearchQuery(v, f.searchQuery)) &&
    (All in f.experienceLevel || MatchesExperienceLevel(v, f.experienceLevel)) &&
    (f.ratingMin <= 0.0 || ratingOk(v, f.ratingMin)) &&
    MatchesDateRange(v, f.dateRange)
  }

  function Keeps(f: Filters, ratingOk: (Video, real) -> bool): Video -> bool {
    v => Keep(v, f, ratingOk)
  }

  /** `filteredVideos` (lines 204-237). */
  function FilteredVideos(videos: seq<Video>, f: Filters, ratingOk: (Video, real) -> bool): (r: seq<Video>)
    ensures forall k :: 0 <= k < |r| ==> Keep(r[k], f, ratingOk)
    ensures forall k :: 0 <= k < |videos| && Keep(videos[k], f, ratingOk) ==> videos[k] in r
  {
    Filter(videos, Keeps(f, ratingOk))
  }

  // ---------------------------------------------------------------------------
  // Properties
  // ---------------------------------------------------------------------------

  /** The filtered list keeps the videos' order and adds nothing. */
  lemma FilteredIsSubsequence(videos: seq<Video>, f: Filters, ratingOk: (Video, real) -> bool)
    ensures IsSubsequence(FilteredVideos(videos, f, ratingOk), videos)
  {
    FilterIsSubsequence(videos, Keeps(f, ratingOk));
  }

  /** With the cleared filters every video is shown. */
  lemma ClearedShowsAll(videos: seq<Video>, ratingOk: (Video, real) -> bool)
    ensures FilteredVideos(videos, Cleared, ratingOk) == videos
  {
    assert All in Cleared.experienceLevel;
    FilterKeepsAll(videos, Keeps(Cleared, ratingOk));
  }

  /**
   * An empty query, a selection holding "all" and a zero minimum rating each
   * switch their test off: the video is then judged by the other tests alone.
   */
  lemma DisabledTests(v: Video, f: Filters, ratingOk: (Video, real) -> bool)
    requires f.searchQuery == "" && All in f.experienceLevel && f.ratingMin == 0.0
    ensures Keep(v, f, ratingOk) <==> MatchesDateRange(v, f.dateRange)
  {
  }

  /** A video without candidate experience matches no specific level. */
  lemma NoExperienceNeverMatches(v: Video, levels: seq<string>)
    requires v.candidate.None? || v.candidate.value.experience == ""
    ensures !MatchesExperienceLevel(v, levels)
  {
  }

  /** The buckets: 0-2, 3-5 and above 5; five is only in "3-5"; other levels hold nothing. */
  lemma Buckets(years: int, level: string)
    ensures InBucket("0-2", Some(years)) <==> 0 <= years <= 2
    ensures InBucket("3-5", Some(years)) <==> 3 <= years <= 5
    ensures InBucket("5+", Some(years)) <==> years > 5
    ensures level !in {"0-2", "3-5", "5+"} ==> !InBucket(level, Some(years))
    ensures !InBucket(level, None)
  {
  }

  /** `parseInt` reads the leading number of a text such as "3-5 years" or "5+". */
  lemma ParseIntReadsLeadingNumber(n: nat, rest: string)
    requires rest == [] || !IsDigit(rest[0])
    ensures ParseInt(NatToString(n) + rest) == Some(n)
  {
    var d := NatToString(n);
    var s := d + rest;
    assert s[0] == d[0];
    LeadingDigitsOf(d, rest);
    assert s[..|d|] == d;
    NatToStringValue(n);
    ParseIntOfDigitStart(s);
  }

  /** A text that starts with a digit is read from its first character, unsigned. */
  lemma ParseIntOfDigitStart(s: string)
    requires s != [] && IsDigit(s[0])
    ensures ParseInt(s) == Some(DigitsValue(s[..LeadingDigits(s)]) as int)
  {
    assert !IsSpace(s[0]);
    assert TrimStart(s) == s;
  }

  /** A candidate whose experience reads "n..." matches exactly the levels whose bucket holds n. */
  lemma ExperienceMatch(v: Video, levels: seq<string>, n: nat, rest: string)
    requires v.candidate.Some? && v.candidate.value.experience == NatToString(n) + rest
    requires rest == [] || !IsDigit(rest[0])
    ensures MatchesExperienceLevel(v, levels) <==> exists i | 0 <= i < |levels| :: InBucket(levels[i], Some(n))
  {
    ParseIntReadsLeadingNumber(n, rest);
  }

  /** The end day is inclusive up to one day after the chosen end; the start is inclusive. */
  lemma DateBounds(v: Video, start: int, end: int)
    requires v.createdAt.Some?
    ensures MatchesDateRange(v, DateRange(Some(start), Some(end))) <==>
      start <= v.createdAt.value <= end + DayMs
    ensures MatchesDateRange(v.(createdAt := None), DateRange(Some(start), Some(end)))
  {
  }
}
