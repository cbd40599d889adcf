/** The Anki text export and the two regular expressions the parsers apply
    to it.

    Records are found with `^([^\t\n]+)\t"(.+?)"$` under MULTILINE and DOTALL,
    scanned left to right as `re.findall` does; the reading is the first
    group of the leftmost `<div class=""furigana-text"">([^<]+)</div>` inside
    a record's payload, stripped. Both expressions are written out here as a
    declarative predicate (what a match is) and a scanner (how `findall` and
    `search` walk the text), and the lemmas show that the scanner returns
    exactly the matches the regular-expression semantics defines. */
module AnkiExport {
  import opened Text
  import opened Vocabulary

  // ---------------------------------------------------------------------
  // The record pattern  ^([^\t\n]+)\t"(.+?)"$   (MULTILINE | DOTALL)

  /** One match of the record pattern: `s[start..end]`, with the two groups. */
  datatype Match = Match(start: nat, term: string, payload: string, end: nat)

  /** `^` under MULTILINE: the start of the text or just after a newline. */
  predicate IsLineStart(s: string, p: int) {
    p == 0 || (0 < p <= |s| && s[p - 1] == '\n')
  }

  /** `[^\t\n]` */
  predicate IsTermChar(c: char) {
    c != '\t' && c != '\n'
  }

  /** `[^\t\n]+` */
  predicate IsTerm(t: string) {
    |t| > 0 && forall k :: 0 <= k < |t| ==> IsTermChar(t[k])
  }

  /** `"$` under MULTILINE: a quote at `c` followed by a newline or by the end. */
  predicate ClosesAt(s: string, c: int) {
    0 <= c < |s| && s[c] == '"' && (c + 1 == |s| || s[c + 1] == '\n')
  }

  /** `m` is a match of the record pattern in `s`. The term is a run of
      non-tab, non-newline characters ending at a tab, so it is the whole run
      before the first tab; the lazy payload `.+?` has at least one character
      and stops at the first closing quote that leaves it non-empty. */
  predicate IsMatch(s: string, m: Match) {
    var t := m.start + |m.term|;
    var q := t + 2;
    IsLineStart(s, m.start) &&
    IsTerm(m.term) &&
    q <= |s| && s[m.start..t] == m.term && s[t] == '\t' && s[t + 1] == '"' &&
    |m.payload| > 0 && m.end == q + |m.payload| + 1 && m.end <= |s| &&
    s[q..q + |m.payload|] == m.payload &&
    ClosesAt(s, m.end - 1) &&
    forall c :: q < c < m.end - 1 ==> !ClosesAt(s, c)
  }

  /** Where the greedy `[^\t\n]+` starting at `p` stops. */
  function TermEnd(s: string, p: nat): (t: nat)
    requires p <= |s|
    ensures p <= t <= |s|
    ensures forall k :: p <= k < t ==> IsTermChar(s[k])
    ensures t == |s| || !IsTermChar(s[t])
    decreases |s| - p
  {
    if p == |s| || !IsTermChar(s[p]) then p else TermEnd(s, p + 1)
  }

  /** The first closing quote at or after `c`, or -1. */
  function ClosingQuote(s: string, c: nat): (r: int)
    requires c <= |s|
    ensures r == -1 || c <= r < |s|
    ensures r >= 0 ==> ClosesAt(s, r)
    ensures forall k :: c <= k && (r < 0 || k < r) ==> !ClosesAt(s, k)
    decreases |s| - c
  {
    if c == |s| then -1
    else if ClosesAt(s, c) then c
    else ClosingQuote(s, c + 1)
  }

  /** The attempt to match the record pattern at position `p`. */
  function MatchAt(s: string, p: nat): (r: Option<Match>)
    requires p <= |s|
    ensures r.Some? ==> r.value.start == p && IsMatch(s, r.value)
  {
    if !IsLineStart(s, p) then None
    else
      var t := TermEnd(s, p);
      if t == p || t + 2 > |s| || s[t] != '\t' || s[t + 1] != '"' then None
      else
        var q := t + 2;
        if q == |s| then None
        else
          var c := ClosingQuote(s, q + 1);
          if c < 0 then None
          else Some(Match(p, s[p..t], s[q..c], c + 1))
  }

  /** The greedy term run starting at `p` stops at the first character that
      cannot belong to a term. */
  lemma TermEndAt(s: string, p: nat, t: nat)
    requires p <= t < |s| && !IsTermChar(s[t])
    requires forall k :: p <= k < t ==> IsTermChar(s[k])
    ensures TermEnd(s, p) == t
  {
  }

  /** The search for a closing quote from `c` stops at the first one. */
  lemma ClosingQuoteAt(s: string, c: nat, r: nat)
    requires c <= r < |s| && ClosesAt(s, r)
    requires forall k :: c <= k < r ==> !ClosesAt(s, k)
    ensures ClosingQuote(s, c) == r
  {
  }

  /** A match is determined by where it starts: the attempt at that position
      finds it. */
  lemma MatchAtFinds(s: string, m: Match)
    requires IsMatch(s, m)
    ensures MatchAt(s, m.start) == Some(m)
  {
    var p, t := m.start, m.start + |m.term|;
    forall k | p <= k < t
      ensures IsTermChar(s[k])
    {
      assert s[k] == s[p..t][k - p];
    }
    TermEndAt(s, p, t);
    ClosingQuoteAt(s, t + 3, m.end - 1);
  }

  /** `re.findall` from position `p`: try each position in turn; after a
      match, resume where it ended. */
  function FindAllFrom(s: string, p: nat): (ms: seq<Match>)
    requires p <= |s|
    ensures forall i :: 0 <= i < |ms| ==> IsMatch(s, ms[i]) && p <= ms[i].start
    ensures forall i :: 0 <= i < |ms| - 1 ==> ms[i].end <= ms[i + 1].start
    decreases |s| - p
  {
    if p == |s| then []
    else
      match MatchAt(s, p)
      case Some(m) => [m] + FindAllFrom(s, m.end)
      case None => FindAllFrom(s, p + 1)
  }

  /** `re.findall(pattern, content, re.MULTILINE | re.DOTALL)`. */
  function FindAll(s: string): seq<Match>
  {
    FindAllFrom(s, 0)
  }

  /** `m` is among `ms` or starts strictly inside the span of one of them. */
  predicate Covered(ms: seq<Match>, m: Match) {
    m in ms || exists f :: f in ms && f.start < m.start < f.end
  }

  /** Cover by later matches carries over when a match is put in front. */
  lemma CoveredByRest(f: Match, rest: seq<Match>, m: Match)
    requires Covered(rest, m)
    ensures Covered([f] + rest, m)
  {
    if m !in rest {
      var g :| g in rest && g.start < m.start < g.end;
      assert g in [f] + rest;
    }
  }

  /** Every match of the pattern at or after `p` is found, unless it starts
      inside the span of a match found before it. */
  lemma {:induction false} FindAllFromComplete(s: string, p: nat, m: Match)
    requires p <= m.start <= |s| && MatchAt(s, m.start) == Some(m)
    ensures Covered(FindAllFrom(s, p), m)
    decreases |s| - p
  {
    if p == m.start {
      assert FindAllFrom(s, p) == [m] + FindAllFrom(s, m.end);
    } else {
      match MatchAt(s, p)
      case Some(f) =>
        assert FindAllFrom(s, p) == [f] + FindAllFrom(s, f.end);
        if m.start < f.end {
          assert f in FindAllFrom(s, p);
        } else {
          FindAllFromComplete(s, f.end, m);
          CoveredByRest(f, FindAllFrom(s, f.end), m);
        }
      case None =>
        assert FindAllFrom(s, p) == FindAllFrom(s, p + 1);
        FindAllFromComplete(s, p + 1, m);
    }
  }

  /** Matches found by `findall` are exactly the pattern's non-overlapping
      leftmost matches: each one is a match, they come in text order without
      overlapping, and a match that is not found starts inside a found one. */
  lemma FindAllIsLeftmostNonOverlapping(s: string, m: Match)
    requires IsMatch(s, m)
    ensures forall i :: 0 <= i < |FindAll(s)| ==> IsMatch(s, FindAll(s)[i])
    ensures forall i, j :: 0 <= i < j < |FindAll(s)| ==> FindAll(s)[i].end <= FindAll(s)[j].start
    ensures Covered(FindAll(s), m)
  {
    MatchAtFinds(s, m);
    FindAllFromComplete(s, 0, m);
    var ms := FindAll(s);
    forall i, j | 0 <= i < j < |ms|
      ensures ms[i].end <= ms[j].start
    {
      OrderedChain(s, ms, i, j);
    }
  }

  lemma {:induction false} OrderedChain(s: string, ms: seq<Match>, i: nat, j: nat)
    requires forall k :: 0 <= k < |ms| ==> IsMatch(s, ms[k])
    requires forall k :: 0 <= k < |ms| - 1 ==> ms[k].end <= ms[k + 1].start
    requires i < j < |ms|
    ensures ms[i].end <= ms[j].start
    decreases j - i
  {
    if i + 1 < j {
      OrderedChain(s, ms, i + 1, j);
    }
  }

  // ---------------------------------------------------------------------
  // The reading pattern  <div class=""furigana-text"">([^<]+)</div>

  /** The opening tag, with the export's doubled quotes taken literally. */
  const FuriganaOpen: string := "<div class=\"\"furigana-text\"\">"
  const FuriganaClose: string := "</div>"

  /** Where the greedy `[^<]+` starting at `j` stops. */
  function RunEnd(h: string, j: nat): (k: nat)
    requires j <= |h|
    ensures j <= k <= |h|
    ensures forall x :: j <= x < k ==> h[x] != '<'
    ensures k == |h| || h[k] == '<'
    decreases |h| - j
  {
    if j == |h| || h[j] == '<' then j else RunEnd(h, j + 1)
  }

  /** The reading pattern matches at `i`. A shorter run than the greedy one
      would be followed by a character other than `<`, so the greedy run is
      the only candidate for the group. */
  predicate FuriganaAt(h: string, i: nat) {
    OccursAt(h, FuriganaOpen, i) &&
    var j := i + |FuriganaOpen|;
    var k := RunEnd(h, j);
    k > j && OccursAt(h, FuriganaClose, k)
  }

  /** The text of group 1 of the reading pattern matched at `i`. */
  function Capture(h: string, i: nat): (g: string)
    requires FuriganaAt(h, i)
    ensures |g| > 0
    ensures forall x :: 0 <= x < |g| ==> g[x] != '<'
  {
    h[i + |FuriganaOpen|..RunEnd(h, i + |FuriganaOpen|)]
  }

  /** `re.search` of the reading pattern from `i`: the leftmost position
      where it matches, or -1. */
  function SearchFurigana(h: string, i: nat): (r: int)
    requires i <= |h|
    ensures r == -1 || (i <= r <= |h| && FuriganaAt(h, r))
    ensures forall x :: i <= x <= |h| && (r < 0 || x < r) ==> !FuriganaAt(h, x)
    decreases |h| - i
  {
    if FuriganaAt(h, i) then i
    else if i == |h| then -1
    else SearchFurigana(h, i + 1)
  }

  /** The reading a payload yields: the stripped group of the leftmost
      reading match, or "" when the payload has none. */
  function Reading(payload: string): (r: string)
    ensures forall x :: 0 <= x < |r| ==> r[x] != '<'
    ensures r != [] ==> !IsSpace(r[0]) && !IsSpace(r[|r| - 1])
  {
    var i := SearchFurigana(payload, 0);
    if i < 0 then "" else Strip(Capture(payload, i))
  }

  /** A non-empty reading is the stripped group of the leftmost match of the
      reading pattern. */
  lemma ReadingIsLeftmostCapture(payload: string, i: nat)
    requires FuriganaAt(payload, i)
    requires forall x :: 0 <= x < i ==> !FuriganaAt(payload, x)
    ensures Reading(payload) == Strip(Capture(payload, i))
  {
    assert i <= |payload|;
    var r := SearchFurigana(payload, 0);
    assert r >= 0 && !(r < i) && !(i < r);
  }

  /** A payload without the reading pattern still yields its record, with
      the empty reading. */
  lemma ReadingAbsent(payload: string)
    requires forall x :: 0 <= x <= |payload| ==> !FuriganaAt(payload, x)
    ensures Reading(payload) == ""
  {
  }

  // ---------------------------------------------------------------------
  // Records

  /** The record one match yields. */
  function RecordOf(m: Match): VocabRecord
  {
    VocabRecord(m.term, Reading(m.payload))
  }

  /** The body of both parsers' loop: the match's term, and the stripped
      furigana of its payload or "" when the payload has none. */
  method ReadRecord(m: Match) returns (word: VocabRecord)
    ensures word == RecordOf(m)
  {
    var kanji, html := m.term, m.payload;
    var furiganaMatch := SearchFurigana(html, 0);
    var reading := if furiganaMatch >= 0 then Strip(Capture(html, furiganaMatch)) else "";
    word := VocabRecord(kanji, reading);
  }

  /** What both parsers return for a given export text: one record per match
      of the record pattern, in text order. */
  function Records(content: string): (words: seq<VocabRecord>)
    ensures |words| == |FindAll(content)|
    ensures forall i :: 0 <= i < |words| ==> words[i] == RecordOf(FindAll(content)[i])
  {
    var ms := FindAll(content);
    seq(|ms|, i requires 0 <= i < |ms| => RecordOf(ms[i]))
  }

  /** A record as the parsers can produce it: a non-empty term free of tabs
      and newlines, and a reading that is empty or stripped and free of `<`. */
  predicate WellFormedRecord(w: VocabRecord) {
    IsTerm(w.term) &&
    (forall k :: 0 <= k < |w.reading| ==> w.reading[k] != '<') &&
    (w.reading == "" || (!IsSpace(w.reading[0]) && !IsSpace(w.reading[|w.reading| - 1])))
  }

  /** The record of a match is well formed. */
  lemma RecordOfWellFormed(s: string, m: Match)
    requires IsMatch(s, m)
    ensures WellFormedRecord(RecordOf(m))
  {
    var r := Reading(m.payload);
    assert RecordOf(m) == VocabRecord(m.term, r);
  }

  /** Every record the parsers return is well formed. */
  lemma RecordsWellFormed(content: string)
    ensures forall i :: 0 <= i < |Records(content)| ==> WellFormedRecord(Records(content)[i])
  {
    var ms := FindAll(content);
    forall i | 0 <= i < |Records(content)|
      ensures WellFormedRecord(Records(content)[i])
    {
      RecordOfWellFormed(content, ms[i]);
    }
  }
}
