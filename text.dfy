/** The few Python `str` operations the story generator relies on, with the
    semantics CPython gives them: `isspace`/`strip`, `find`, `rfind` of one
    character, `in`, `join`, `split`, ASCII `lower`, `str(int)`, the `:2`/`:10`
    format padding and the slice `s[:n]`. */
module Text {

  datatype Option<+T> = None | Some(value: T)

  function Min(a: int, b: int): int { if a <= b then a else b }
  function Max(a: int, b: int): int { if a <= b then b else a }

  // ---------------------------------------------------------------------
  // Whitespace and strip

  /** The characters for which CPython's `str.isspace()` holds, i.e. what
      `str.strip()` with no argument removes. */
  predicate IsSpace(c: char) {
    ('\t' <= c <= '\r') || ('\U{1C}' <= c <= '\U{1F}') || c == ' ' ||
    c == '\U{85}' || c == '\U{A0}' || c == '\U{1680}' ||
    ('\U{2000}' <= c <= '\U{200A}') || c == '\U{2028}' || c == '\U{2029}' ||
    c == '\U{202F}' || c == '\U{205F}' || c == '\U{3000}'
  }

  /** Number of whitespace characters at the start of `s`. */
  function LeadingSpaces(s: string): (n: nat)
    ensures n <= |s|
    ensures forall k :: 0 <= k < n ==> IsSpace(s[k])
    ensures n < |s| ==> !IsSpace(s[n])
  {
    if |s| > 0 && IsSpace(s[0]) then 1 + LeadingSpaces(s[1..]) else 0
  }

  /** Number of whitespace characters at the end of `s`. */
  function TrailingSpaces(s: string): (n: nat)
    ensures n <= |s|
    ensures forall k :: |s| - n <= k < |s| ==> IsSpace(s[k])
    ensures n < |s| ==> !IsSpace(s[|s| - 1 - n])
  {
    if |s| > 0 && IsSpace(s[|s| - 1]) then 1 + TrailingSpaces(s[..|s| - 1]) else 0
  }

  /** `s.strip()`: the part of `s` between its leading and trailing whitespace. */
  function Strip(s: string): (r: string)
    ensures OccursAt(s, r, LeadingSpaces(s))
    ensures forall k :: LeadingSpaces(s) + |r| <= k < |s| ==> IsSpace(s[k])
    ensures r != [] ==> !IsSpace(r[0]) && !IsSpace(r[|r| - 1])
    ensures r == [] <==> forall k :: 0 <= k < |s| ==> IsSpace(s[k])
  {
    var a := LeadingSpaces(s);
    var rest := s[a..];
    rest[..|rest| - TrailingSpaces(rest)]
  }

  // ---------------------------------------------------------------------
  // Substrings

  /** `sub` occurs in `s` starting at index `i`. */
  predicate OccursAt(s: string, sub: string, i: int) {
    0 <= i && i + |sub| <= |s| && s[i..i + |sub|] == sub
  }

  /** Python's `sub in s`. */
  predicate Contains(s: string, sub: string) {
    exists i :: 0 <= i <= |s| && OccursAt(s, sub, i)
  }

  /** Moving right past a prefix `x` preserves occurrences exactly. */
  lemma OccursShift(x: string, y: string, sub: string, i: int)
    requires 0 <= i
    ensures OccursAt(x + y, sub, |x| + i) <==> OccursAt(y, sub, i)
  {
    if i + |sub| <= |y| {
      assert (x + y)[|x| + i..|x| + i + |sub|] == y[i..i + |sub|];
    }
  }

  /** An occurrence in `x` is one in `x + y`. */
  lemma OccursExtend(x: string, y: string, sub: string, i: int)
    requires OccursAt(x, sub, i)
    ensures OccursAt(x + y, sub, i)
  {
    assert (x + y)[i..i + |sub|] == x[i..i + |sub|];
  }

  /** `a + b + w + c + d` holds `w` right after `a + b`. */
  lemma OccursInside(a: string, b: string, w: string, c: string, d: string)
    ensures OccursAt(a + (b + w + c) + d, w, |a| + |b|)
  {
    var s := a + (b + w + c) + d;
    assert s[|a| + |b|..|a| + |b| + |w|] == w;
  }

  /** `a + x + y` holds `x` right after `a`. */
  lemma OccursMiddle(a: string, x: string, y: string)
    ensures OccursAt(a + x + y, x, |a|)
  {
    assert (a + x + y)[|a|..|a| + |x|] == x;
  }

  /** `a + (x + y + z) + d` holds `x` right after `a`. */
  lemma OccursHead(a: string, x: string, y: string, z: string, d: string)
    ensures OccursAt(a + (x + y + z) + d, x, |a|)
  {
    var s := a + (x + y + z) + d;
    assert s[|a|..|a| + |x|] == x;
  }

  /** An occurrence in the middle part of `a + b + c` is one in the whole. */
  lemma OccursInPart(s: string, a: string, b: string, c: string, sub: string, i: int)
    requires s == a + b + c && OccursAt(b, sub, i)
    ensures OccursAt(s, sub, |a| + i)
  {
    OccursShift(a, b, sub, i);
    OccursExtend(a + b, c, sub, |a| + i);
  }

  /** An occurrence in the first part of `a + b` is one in the whole. */
  lemma OccursInFirst(s: string, a: string, b: string, sub: string, i: int)
    requires s == a + b && OccursAt(a, sub, i)
    ensures OccursAt(s, sub, i)
  {
    OccursExtend(a, b, sub, i);
  }

  /** Occurrences in the second part of `a + b` are those in the whole,
      shifted by `|a|`. */
  lemma OccursInSecond(s: string, a: string, b: string, sub: string, i: int)
    requires s == a + b && 0 <= i
    ensures OccursAt(s, sub, |a| + i) <==> OccursAt(b, sub, i)
  {
    OccursShift(a, b, sub, i);
  }

  /** A directive `tag + value` that sits after a blank line at the start of
      `tail` sits at the same place after `body` in `body + tail`. */
  lemma DirectiveAfter(s: string, body: string, tail: string, tag: string, value: string,
                       present: bool)
    requires s == body + tail
    requires OccursAt(tail, tag, 2) <==> present
    requires present ==> OccursAt(tail, value, 2 + |tag|)
    ensures OccursAt(s, tag, |body| + 2) <==> present
    ensures present ==> OccursAt(s, value, |body| + 2 + |tag|)
  {
    OccursShift(body, tail, tag, 2);
    OccursShift(body, tail, value, 2 + |tag|);
  }

  /** `a + b + c` starts with `a`, holds `b` right after it and ends with `c`. */
  lemma ThreeParts(s: string, a: string, b: string, c: string)
    requires s == a + b + c
    ensures OccursAt(s, a, 0) && OccursAt(s, b, |a|) && |s| == |a| + |b| + |c|
    ensures OccursAt(s, c, |a| + |b|)
  {
    assert s[..|a|] == a;
    assert s[|a|..|a| + |b|] == b;
    assert s[|a| + |b|..|s|] == c;
  }

  /** A string ending with `b` ends with any suffix of `b`. */
  lemma EndsWithPart(s: string, a: string, b: string, z: string)
    requires s == a + b && |b| >= |z| && b[|b| - |z|..] == z
    ensures |s| >= |z| && s[|s| - |z|..] == z
  {
    SuffixOfSuffix(a, b, z);
  }

  /** An occurrence inside an occurring piece is an occurrence in the whole. */
  lemma OccursWithin(s: string, piece: string, at: int, sub: string, j: int)
    requires OccursAt(s, piece, at) && OccursAt(piece, sub, j)
    ensures OccursAt(s, sub, at + j)
  {
    forall k | 0 <= k < |sub|
      ensures s[at + j..at + j + |sub|][k] == sub[k]
    {
      assert s[at + j + k] == s[at..at + |piece|][j + k];
      assert sub[k] == piece[j..j + |sub|][k];
    }
    assert s[at + j..at + j + |sub|] == sub;
  }

  /** The characters of an occurring piece are those of the whole. */
  lemma CharOfPiece(s: string, piece: string, at: int, j: int)
    requires OccursAt(s, piece, at) && 0 <= j < |piece|
    ensures s[at + j] == piece[j]
  {
    assert s[at..at + |piece|][j] == piece[j];
  }

  /** Where the four parts of `a + b + c + d` lie. */
  lemma FourParts(s: string, a: string, b: string, c: string, d: string)
    requires s == a + b + c + d
    ensures OccursAt(s, a, 0)
    ensures OccursAt(s, b, |a|)
    ensures OccursAt(s, c, |a| + |b|)
    ensures OccursAt(s, d, |a| + |b| + |c|) && |s| == |a| + |b| + |c| + |d|
  {
    assert s[..|a|] == a;
    assert s[|a|..|a| + |b|] == b;
    assert s[|a| + |b|..|a| + |b| + |c|] == c;
    assert s[|a| + |b| + |c|..|s|] == d;
  }

  /** A suffix of `y` is a suffix of `x + y`. */
  lemma SuffixOfSuffix(x: string, y: string, z: string)
    requires |y| >= |z| && y[|y| - |z|..] == z
    ensures |x + y| >= |z| && (x + y)[|x + y| - |z|..] == z
  {
    assert (x + y)[|x + y| - |z|..] == y[|y| - |z|..];
  }

  /** `x + y` ends with `y`. */
  lemma EndsWithSuffix(x: string, y: string)
    ensures (x + y)[|x + y| - |y|..] == y
  {
  }


  /** `s.find(sub, start)`: the leftmost occurrence at or after `start`, or -1. */
  function Find(s: string, sub: string, start: nat): (r: int)
    requires start <= |s|
    ensures r == -1 || start <= r <= |s|
    ensures r >= 0 ==> OccursAt(s, sub, r)
    ensures forall j :: start <= j && (r < 0 || j < r) ==> !OccursAt(s, sub, j)
    decreases |s| - start
  {
    if OccursAt(s, sub, start) then start
    else if start == |s| then -1
    else Find(s, sub, start + 1)
  }

  /** `s.rfind(c)` for a one-character needle: the last index of `c`, or -1. */
  function LastIndexOf(s: string, c: char): (r: int)
    ensures -1 <= r < |s|
    ensures r >= 0 ==> s[r] == c
    ensures forall j :: r < j < |s| ==> s[j] != c
  {
    if |s| == 0 then -1
    else if s[|s| - 1] == c then |s| - 1
    else LastIndexOf(s[..|s| - 1], c)
  }

  // ---------------------------------------------------------------------
  // Join and split

  /** `sep.join(parts)`. */
  function Join(parts: seq<string>, sep: string): string
  {
    if |parts| == 0 then ""
    else if |parts| == 1 then parts[0]
    else parts[0] + sep + Join(parts[1..], sep)
  }

  /** `s.split(sep)` for a non-empty separator: the pieces between the
      successive leftmost occurrences of `sep`. */
  function Split(s: string, sep: string): (r: seq<string>)
    requires |sep| > 0
    ensures |r| >= 1
    decreases |s|
  {
    var i := Find(s, sep, 0);
    if i < 0 then [s] else [s[..i]] + Split(s[i + |sep|..], sep)
  }

  /** Sum of the lengths of `parts`. */
  function TotalLength(parts: seq<string>): nat
  {
    if |parts| == 0 then 0 else |parts[0]| + TotalLength(parts[1..])
  }

  /** A joined string is as long as its parts plus one separator between
      each neighbouring pair. */
  lemma {:induction false} JoinLength(parts: seq<string>, sep: string)
    ensures |Join(parts, sep)| ==
      if |parts| == 0 then 0 else TotalLength(parts) + |sep| * (|parts| - 1)
  {
    if |parts| > 1 {
      JoinLength(parts[1..], sep);
    }
  }

  const ListSeparator: string := ", "

  /** When `t` holds no ", ", the leftmost ", " in `t + ", " + rest` is the
      separator right after `t`. */
  lemma FindSeparatorAfter(t: string, rest: string)
    requires !Contains(t, ListSeparator)
    ensures Find(t + ListSeparator + rest, ListSeparator, 0) == |t|
  {
    var s := t + ListSeparator + rest;
    assert OccursAt(s, ListSeparator, |t|);
    forall j | 0 <= j < |t|
      ensures !OccursAt(s, ListSeparator, j)
    {
      if j + 2 <= |t| {
        assert s[j..j + 2] == t[j..j + 2];
        assert OccursAt(s, ListSeparator, j) ==> OccursAt(t, ListSeparator, j);
      } else {
        assert s[j + 1] == ',';
      }
    }
  }

  /** Splitting peels off a leading part that holds no ", ". */
  lemma SplitAfterPart(t: string, rest: string)
    requires !Contains(t, ListSeparator)
    ensures Split(t + ListSeparator + rest, ListSeparator) == [t] + Split(rest, ListSeparator)
  {
    var s := t + ListSeparator + rest;
    FindSeparatorAfter(t, rest);
    assert s[..|t|] == t;
    assert s[|t| + 2..] == rest;
  }

  /** Splitting the ", "-joined listing of at least one part on ", " gives
      the parts back, provided no part itself contains ", ". */
  lemma {:induction false} SplitJoin(parts: seq<string>)
    requires |parts| >= 1
    requires forall k :: 0 <= k < |parts| ==> !Contains(parts[k], ListSeparator)
    ensures Split(Join(parts, ListSeparator), ListSeparator) == parts
  {
    if |parts| == 1 {
      assert Find(parts[0], ListSeparator, 0) < 0;
    } else {
      SplitAfterPart(parts[0], Join(parts[1..], ListSeparator));
      SplitJoin(parts[1..]);
      assert parts == [parts[0]] + parts[1..];
    }
  }

  /** The empty listing splits into one empty piece, so the round trip needs
      at least one part. */
  lemma SplitOfEmptyListing()
    ensures Join([], ListSeparator) == ""
    ensures Split("", ListSeparator) == [""]
  {
    assert Find("", ListSeparator, 0) == -1;
  }

  // ---------------------------------------------------------------------
  // Case, numbers, padding, slices

  /** `c.lower()` restricted to ASCII letters. */
  function LowerChar(c: char): char
  {
    if 'A' <= c <= 'Z' then (c as int + 32) as char else c
  }

  /** `s.lower()` on ASCII letters; every other character is kept. */
  function Lower(s: string): (r: string)
    ensures |r| == |s|
    ensures forall k :: 0 <= k < |s| ==> r[k] == LowerChar(s[k])
  {
    seq(|s|, k requires 0 <= k < |s| => LowerChar(s[k]))
  }

  /** Lowering works character by character, so it distributes over `+`. */
  lemma LowerConcat(a: string, b: string)
    ensures Lower(a + b) == Lower(a) + Lower(b)
  {
    assert forall k :: 0 <= k < |a + b| ==>
      Lower(a + b)[k] == (Lower(a) + Lower(b))[k];
  }

  function DigitChar(d: nat): (c: char)
    requires d < 10
    ensures '0' <= c <= '9'
  {
    (48 + d) as char
  }

  function DigitValue(c: char): nat
    requires '0' <= c <= '9'
  {
    c as int - 48
  }

  predicate IsDigits(s: string) {
    forall k :: 0 <= k < |s| ==> '0' <= s[k] <= '9'
  }

  /** `str(n)` for a natural number: its decimal digits, most significant first. */
  function NatToString(n: nat): (r: string)
    ensures |r| >= 1 && IsDigits(r)
    ensures n >= 10 ==> r[0] != '0'
  {
    if n < 10 then [DigitChar(n)] else NatToString(n / 10) + [DigitChar(n % 10)]
  }

  /** `str(i)` for any integer. */
  function IntToString(i: int): (r: string)
    ensures |r| >= 1
  {
    if i < 0 then "-" + NatToString(-i) else NatToString(i)
  }

  /** The number a string of decimal digits denotes (`int(s)`). */
  function DecimalValue(s: string): nat
    requires IsDigits(s)
  {
    if |s| == 0 then 0 else 10 * DecimalValue(s[..|s| - 1]) + DigitValue(s[|s| - 1])
  }

  /** Reading back the digits `str` writes gives the number. */
  lemma {:induction false} DecimalRoundTrip(n: nat)
    ensures DecimalValue(NatToString(n)) == n
  {
    if n >= 10 {
      var s := NatToString(n);
      assert s[..|s| - 1] == NatToString(n / 10);
      DecimalRoundTrip(n / 10);
    }
  }

  /** `format(s, ">w")`: `s` right-aligned in a field of `width` spaces. */
  function PadLeft(s: string, width: nat): (r: string)
    ensures |r| == Max(width, |s|)
    ensures r[|r| - |s|..] == s
    ensures forall k :: 0 <= k < |r| - |s| ==> r[k] == ' '
  {
    if |s| >= width then s else seq(width - |s|, _ => ' ') + s
  }

  /** A text that opens with `PadLeft(x, width)` has the padding spaces
      first and `x` right after them. */
  lemma PadLeftOpens(s: string, x: string, width: nat, rest: string)
    requires s == PadLeft(x, width) + rest
    ensures var pad := Max(width, |x|) - |x|;
            (forall k :: 0 <= k < pad ==> s[k] == ' ') && OccursAt(s, x, pad)
  {
    var p := PadLeft(x, width);
    assert s[..|p|] == p;
    assert s[|p| - |x|..|p|] == p[|p| - |x|..];
  }

  /** `format(s, "<w")`: `s` left-aligned in a field of `width` spaces. */
  function PadRight(s: string, width: nat): (r: string)
    ensures |r| == Max(width, |s|)
    ensures r[..|s|] == s
    ensures forall k :: |s| <= k < |r| ==> r[k] == ' '
  {
    if |s| >= width then s else s + seq(width - |s|, _ => ' ')
  }

  /** Where Python's slice `s[:n]` ends: negative `n` counts from the end
      and every bound is clamped to `0..|s|`. */
  function SliceEnd(length: nat, n: int): (e: nat)
    ensures e <= length
    ensures 0 <= n <= length ==> e == n
  {
    if n >= 0 then Min(n, length) else Max(0, length + n)
  }

  /** `s[:n]`. */
  function PyPrefix(s: string, n: int): (r: string)
    ensures |r| == SliceEnd(|s|, n)
    ensures r == s[..|r|]
  {
    s[..SliceEnd(|s|, n)]
  }
}
