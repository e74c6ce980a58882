/**
 * String primitives shared by the handlers and components: trimming,
 * prefix and substring search, ASCII case mapping, splitting on one
 * character, and decimal rendering of integers (JavaScript's `${n}`).
 */
module Text {
  import opened Wrappers

  /** JavaScript's `s || ""` for an optional text: the text, or the empty string when absent. */
  function OrEmpty(s: Option<string>): (r: string)
    ensures s.Some? ==> r == s.value
    ensures s.None? ==> r == ""
  {
    s.GetOr("")
  }

  /** The whitespace characters `trim()` and the regex class `\s` remove (ASCII subset). */
  predicate IsSpace(c: char) {
    c == ' ' || c == '\t' || c == '\n' || c == '\r' || c == '\U{0B}' || c == '\U{0C}'
  }

  /** `s` with its leading whitespace removed. */
  function TrimStart(s: string): (r: string)
    ensures |r| <= |s| && r == s[|s| - |r|..]
    ensures forall k :: 0 <= k < |s| - |r| ==> IsSpace(s[k])
    ensures r == [] || !IsSpace(r[0])
  {
    if |s| > 0 && IsSpace(s[0]) then TrimStart(s[1..]) else s
  }

  /** `s` with its trailing whitespace removed. */
  function TrimEnd(s: string): (r: string)
    ensures |r| <= |s| && r == s[..|r|]
    ensures forall k :: |r| <= k < |s| ==> IsSpace(s[k])
    ensures r == [] || !IsSpace(r[|r| - 1])
  {
    if |s| > 0 && IsSpace(s[|s| - 1]) then TrimEnd(s[..|s| - 1]) else s
  }

  /** `r` is `s[i..j]`, and only whitespace lies outside that stretch. */
  predicate TrimmedAt(s: string, r: string, i: nat, j: nat) {
    && i <= j <= |s| && r == s[i..j]
    && (forall k :: 0 <= k < i ==> IsSpace(s[k]))
    && (forall k :: j <= k < |s| ==> IsSpace(s[k]))
  }

  /** `r` is `s` with some leading and some trailing whitespace removed. */
  ghost predicate Trimmed(s: string, r: string) {
    exists i: nat, j: nat :: TrimmedAt(s, r, i, j)
  }

  /** JavaScript's `String.prototype.trim`. */
  function Trim(s: string): (r: string)
    ensures Trimmed(s, r)
    ensures r == [] || (!IsSpace(r[0]) && !IsSpace(r[|r| - 1]))
  {
    var a := TrimStart(s);
    var r := TrimEnd(a);
    TrimBothEnds(s, a, r);
    r
  }

  /** Trimming the start and then the end leaves a stretch of `s` with only whitespace around it. */
  lemma TrimBothEnds(s: string, a: string, r: string)
    requires |a| <= |s| && a == s[|s| - |a|..]
    requires forall k :: 0 <= k < |s| - |a| ==> IsSpace(s[k])
    requires |r| <= |a| && r == a[..|r|]
    requires forall k :: |r| <= k < |a| ==> IsSpace(a[k])
    ensures TrimmedAt(s, r, |s| - |a|, |s| - |a| + |r|)
  {
    var i := |s| - |a|;
    assert r == s[i..i + |r|];
    forall k | i + |r| <= k < |s|
      ensures IsSpace(s[k])
    {
      assert s[k] == a[k - i];
    }
  }

  /** A string with no surrounding whitespace is its own trim. */
  lemma TrimOfTrimmed(s: string)
    requires s == [] || (!IsSpace(s[0]) && !IsSpace(s[|s| - 1]))
    ensures Trim(s) == s
  {
  }

  /** JavaScript truthiness of an optional string: present and non-empty. */
  predicate Truthy(o: Option<string>) {
    o.Some? && o.value != ""
  }

  predicate StartsWith(s: string, p: string) {
    |p| <= |s| && s[..|p|] == p
  }

  /** `p` occurs in `s` starting at index `i`. */
  predicate OccursAt(s: string, p: string, i: int) {
    0 <= i && i + |p| <= |s| && s[i..i + |p|] == p
  }

  /** The first index at or after `k` where `p` occurs in `s`. */
  function FindFrom(s: string, p: string, k: nat): (r: Option<nat>)
    requires |p| > 0
    decreases |s| - k
    ensures r.Some? ==> k <= r.value && OccursAt(s, p, r.value)
    ensures r.Some? ==> forall i :: k <= i < r.value ==> !OccursAt(s, p, i)
    ensures r.None? ==> forall i :: k <= i ==> !OccursAt(s, p, i)
  {
    if k + |p| > |s| then None
    else if s[k..k + |p|] == p then Some(k)
    else FindFrom(s, p, k + 1)
  }

  /** Where `p` occurs nowhere from `k` on, `FindFrom` finds nothing. */
  lemma {:induction false} NoneWhenAbsent(s: string, p: string, k: nat)
    requires |p| > 0
    requires forall i :: k <= i ==> !OccursAt(s, p, i)
    ensures FindFrom(s, p, k).None?
    decreases |s| - k
  {
    if k + |p| <= |s| {
      assert !OccursAt(s, p, k);
      NoneWhenAbsent(s, p, k + 1);
    }
  }

  /** An occurrence at `q` with none between `k` and `q` is what `FindFrom` finds. */
  lemma FindFromIs(s: string, p: string, k: nat, q: nat)
    requires |p| > 0 && k <= q && OccursAt(s, p, q)
    requires forall i :: k <= i < q ==> !OccursAt(s, p, i)
    ensures FindFrom(s, p, k) == Some(q)
  {
  }

  /** `p` cannot occur at a position whose character differs from `p`'s first. */
  lemma NotOccursAtChar(s: string, p: string, i: int)
    requires |p| > 0 && 0 <= i < |s| && s[i] != p[0]
    ensures !OccursAt(s, p, i)
  {
    if i + |p| <= |s| {
      assert s[i..i + |p|][0] == s[i];
    }
  }

  /** When the stretch from `k` to an occurrence at `q` holds no first character of `p`, that occurrence is found. */
  lemma FindAfterGap(s: string, p: string, k: nat, q: nat)
    requires |p| > 0 && k <= q && OccursAt(s, p, q)
    requires p[0] !in s[k..q]
    ensures FindFrom(s, p, k) == Some(q)
  {
    forall i | k <= i < q ensures !OccursAt(s, p, i) {
      assert s[i] == s[k..q][i - k];
      NotOccursAtChar(s, p, i);
    }
    FindFromIs(s, p, k, q);
  }

  /** The first index of character `c` in `s`. */
  function IndexOf(s: string, c: char): (r: Option<nat>)
    ensures r.Some? ==> r.value < |s| && s[r.value] == c && c !in s[..r.value]
    ensures r.None? ==> c !in s
  {
    if |s| == 0 then None
    else if s[0] == c then Some(0)
    else match IndexOf(s[1..], c)
      case None => None
      case Some(i) => assert s[..i + 1] == [s[0]] + s[1..][..i]; Some(i + 1)
  }

  /** The last index of character `c` in `s`. */
  function LastIndexOf(s: string, c: char): (r: Option<nat>)
    ensures r.Some? ==> r.value < |s| && s[r.value] == c && c !in s[r.value + 1..]
    ensures r.None? ==> c !in s
  {
    if |s| == 0 then None
    else if s[|s| - 1] == c then Some(|s| - 1)
    else match LastIndexOf(s[..|s| - 1], c)
      case None => None
      case Some(i) => assert s[i + 1..] == s[..|s| - 1][i + 1..] + [s[|s| - 1]]; Some(i)
  }

  function UpperChar(c: char): char {
    if 'a' <= c <= 'z' then (c as int - 32) as char else c
  }

  function LowerChar(c: char): char {
    if 'A' <= c <= 'Z' then (c as int + 32) as char else c
  }

  /** `toUpperCase()` restricted to ASCII letters. */
  function Upper(s: string): (r: string)
    ensures |r| == |s| && forall k :: 0 <= k < |s| ==> r[k] == UpperChar(s[k])
  {
    seq(|s|, k requires 0 <= k < |s| => UpperChar(s[k]))
  }

  /** `toLowerCase()` restricted to ASCII letters. */
  function Lower(s: string): (r: string)
    ensures |r| == |s| && forall k :: 0 <= k < |s| ==> r[k] == LowerChar(s[k])
  {
    seq(|s|, k requires 0 <= k < |s| => LowerChar(s[k]))
  }

  /** JavaScript's `s.split(sep)` for a one-character separator: never empty, no segment holds `sep`. */
  function Split(s: string, sep: char): (r: seq<string>)
    ensures |r| >= 1
    ensures forall k :: 0 <= k < |r| ==> sep !in r[k]
    ensures sep !in s ==> r == [s]
  {
    match IndexOf(s, sep)
    case None => [s]
    case Some(i) => [s[..i]] + Split(s[i + 1..], sep)
  }

  /** JavaScript's `parts.join(sep)`. */
  function Join(parts: seq<string>, sep: char): string {
    if |parts| == 0 then ""
    else if |parts| == 1 then parts[0]
    else parts[0] + [sep] + Join(parts[1..], sep)
  }

  /** Splitting and re-joining on the same character gives back the string. */
  lemma {:induction false} JoinSplit(s: string, sep: char)
    ensures Join(Split(s, sep), sep) == s
    decreases |s|
  {
    match IndexOf(s, sep)
    case None =>
    case Some(i) =>
      var rest := Split(s[i + 1..], sep);
      assert Split(s, sep) == [s[..i]] + rest;
      JoinSplit(s[i + 1..], sep);
      JoinCons(s[..i], rest, sep);
      Around(s, i);
  }

  /** A string is what lies before index `i`, the character there, and what lies after. */
  lemma Around(s: string, i: nat)
    requires i < |s|
    ensures s == s[..i] + [s[i]] + s[i + 1..]
  {
    assert s[..i] + [s[i]] == s[..i + 1];
  }

  /** Joining a part in front of at least one more puts a separator between them. */
  lemma JoinCons(p: string, rest: seq<string>, sep: char)
    requires |rest| >= 1
    ensures Join([p] + rest, sep) == p + [sep] + Join(rest, sep)
  {
    assert ([p] + rest)[1..] == rest;
  }

  /** Joining parts that hold no separator and splitting again gives back the parts. */
  lemma {:induction false} SplitJoin(parts: seq<string>, sep: char)
    requires |parts| >= 1
    requires forall k :: 0 <= k < |parts| ==> sep !in parts[k]
    ensures Split(Join(parts, sep), sep) == parts
    decreases |parts|
  {
    if |parts| > 1 {
      var p, rest := parts[0], parts[1..];
      var tail := Join(rest, sep);
      assert parts == [p] + rest;
      JoinCons(p, rest, sep);
      var s := p + [sep] + tail;
      assert s == p + ([sep] + tail);
      IndexOfPrefix(p, [sep] + tail, sep);
      Pieces(p, sep, tail);
      assert Split(s, sep) == [p] + Split(tail, sep);
      SplitJoin(rest, sep);
    }
  }

  /** What lies before and after the separator of `p + [sep] + q`. */
  lemma Pieces(p: string, sep: char, q: string)
    ensures (p + [sep] + q)[..|p|] == p
    ensures (p + [sep] + q)[|p| + 1..] == q
  {
  }

  /** The first `c` of `p + q`, when `p` holds no `c` and `q` starts with one, is at `|p|`. */
  lemma IndexOfPrefix(p: string, q: string, c: char)
    requires c !in p && |q| > 0 && q[0] == c
    ensures IndexOf(p + q, c) == Some(|p|)
  {
    var s := p + q;
    assert s[|p|] == c;
    assert s[..|p|] == p;
  }

  /** The last `c` of `p + q`, when `p` ends with one and `q` holds none, is `p`'s last character. */
  lemma LastIndexOfSuffix(p: string, q: string, c: char)
    requires c !in q && |p| > 0 && p[|p| - 1] == c
    ensures LastIndexOf(p + q, c) == Some(|p| - 1)
  {
    var s := p + q;
    assert s[|p| - 1] == c;
    assert s[|p|..] == q;
  }

  function DigitChar(d: nat): char
    requires d < 10
  {
    ('0' as int + d) as char
  }

  predicate IsDigit(c: char) {
    '0' <= c <= '9'
  }

  /** The decimal rendering of a natural number, as `${n}` prints it. */
  function NatToDecimal(n: nat): (r: string)
    ensures |r| >= 1 && forall k :: 0 <= k < |r| ==> IsDigit(r[k])
    ensures n < 10 <==> |r| == 1
  {
    if n < 10 then [DigitChar(n)] else NatToDecimal(n / 10) + [DigitChar(n % 10)]
  }

  /** The value of a string of decimal digits. */
  function DecimalValue(s: string): nat
    requires forall k :: 0 <= k < |s| ==> IsDigit(s[k])
  {
    if |s| == 0 then 0
    else
      assert IsDigit(s[|s| - 1]);
      10 * DecimalValue(s[..|s| - 1]) + (s[|s| - 1] as int - '0' as int)
  }

  /** Reading back a rendered natural number gives the number. */
  lemma {:induction false} DecimalRoundTrip(n: nat)
    ensures DecimalValue(NatToDecimal(n)) == n
  {
    if n >= 10 {
      DecimalRoundTrip(n / 10);
      var s := NatToDecimal(n);
      assert s[..|s| - 1] == NatToDecimal(n / 10);
    }
  }

  /** A rendered number followed by a non-digit: the leading digits read back as the number. */
  lemma DecimalPrefixReadsBack(n: nat, rest: string)
    requires |rest| > 0 && !IsDigit(rest[0])
    ensures var r := NatToDecimal(n) + rest; var w := |NatToDecimal(n)|;
      w < |r| && (forall k :: 0 <= k < w ==> IsDigit(r[k])) && !IsDigit(r[w])
      && r[..w] == NatToDecimal(n) && DecimalValue(r[..w]) == n
  {
    var r := NatToDecimal(n) + rest;
    assert r[..|NatToDecimal(n)|] == NatToDecimal(n);
    DecimalRoundTrip(n);
  }

  /** The rendering of an integer: a minus sign before the magnitude when negative. */
  function IntToDecimal(i: int): (r: string)
    ensures |r| >= 1
    ensures i < 0 <==> r[0] == '-'
    ensures i >= 0 ==> r == NatToDecimal(i)
    ensures i < 0 ==> r[1..] == NatToDecimal(-i)
  {
    if i < 0 then "-" + NatToDecimal(-i) else NatToDecimal(i)
  }

  /** Distinct naturals render differently. */
  lemma NatToDecimalInjective(m: nat, n: nat)
    requires NatToDecimal(m) == NatToDecimal(n)
    ensures m == n
  {
    DecimalRoundTrip(m);
    DecimalRoundTrip(n);
  }
}
