/**
  The string functions of the Go standard library that the program uses: decimal printing and reading,
  strings.Split, strings.Join, and the leftmost occurrence of a substring.
 */
module Text {
  import opened Wrappers

  const UINT32_MODULUS := 0x1_0000_0000

  predicate IsDigit(c: char) {
    '0' <= c <= '9'
  }

  predicate AllDigits(s: string) {
    forall i | 0 <= i < |s| :: IsDigit(s[i])
  }

  function DigitChar(d: nat): (c: char)
    requires d < 10
    ensures IsDigit(c)
  {
    ('0' as int + d) as char
  }

  /** strconv.Itoa and %d on a nonnegative number. */
  function Decimal(n: nat): (s: string) {
    if n < 10 then [DigitChar(n)] else Decimal(n / 10) + [DigitChar(n % 10)]
  }

  function DigitsValue(s: string): (n: nat)
    requires AllDigits(s)
  {
    if s == "" then 0
    else 10 * DigitsValue(s[..|s| - 1]) + (s[|s| - 1] as int - '0' as int)
  }

  /** strconv.ParseUint(s, 10, 32). */
  function ParseUint32(s: string): (r: Option<nat>)
    ensures r.Some? ==> r.value <= 4_294_967_295
    ensures r.None? && s != "" && AllDigits(s) ==> DigitsValue(s) > 4_294_967_295
  {
    if s == "" || !AllDigits(s) || DigitsValue(s) >= UINT32_MODULUS then None else Some(DigitsValue(s))
  }

  lemma {:induction false} DecimalReadsBack(n: nat)
    ensures |Decimal(n)| > 0 && AllDigits(Decimal(n)) && DigitsValue(Decimal(n)) == n
    ensures n > 0 ==> Decimal(n)[0] != '0'
  {
    if n >= 10 {
      DecimalReadsBack(n / 10);
      var s := Decimal(n);
      assert s[..|s| - 1] == Decimal(n / 10);
    } else {
      var s := Decimal(n);
      assert s[..0] == "";
    }
  }

  predicate OccursAt(s: string, sub: string, i: nat) {
    i + |sub| <= |s| && s[i..i + |sub|] == sub
  }

  ghost predicate Contains(s: string, sub: string) {
    exists i: nat :: OccursAt(s, sub, i)
  }

  lemma OccursAtChar(s: string, c: char, i: nat)
    ensures OccursAt(s, [c], i) <==> i < |s| && s[i] == c
  {
    if i < |s| { assert s[i..i + 1] == [s[i]]; }
  }

  /** strings.Index from position `from`: the leftmost occurrence at or after it. */
  function Find(s: string, sub: string, from: nat): (r: Option<nat>)
    ensures r.Some? ==> from <= r.value && OccursAt(s, sub, r.value)
    ensures r.Some? ==> forall i: nat | from <= i < r.value :: !OccursAt(s, sub, i)
    ensures r.None? ==> forall i: nat | from <= i :: !OccursAt(s, sub, i)
    decreases |s| - from
  {
    if from + |sub| > |s| then None
    else if OccursAt(s, sub, from) then Some(from)
    else if from == |s| then None
    else Find(s, sub, from + 1)
  }

  /** strings.Split with a nonempty separator. */
  function Split(s: string, sep: string): (parts: seq<string>)
    requires sep != ""
    ensures |parts| >= 1
    decreases |s|
  {
    match Find(s, sep, 0)
    case None => [s]
    case Some(k) => [s[..k]] + Split(s[k + |sep|..], sep)
  }

  /** strings.Join. */
  function Join(parts: seq<string>, sep: string): (s: string) {
    if parts == [] then ""
    else if |parts| == 1 then parts[0]
    else parts[0] + sep + Join(parts[1..], sep)
  }

  lemma JoinCons(part: string, rest: seq<string>, sep: string)
    requires rest != []
    ensures Join([part] + rest, sep) == part + sep + Join(rest, sep)
  {
    assert ([part] + rest)[1..] == rest;
  }

  lemma {:induction false} JoinAppend(parts: seq<string>, last: string, sep: string)
    requires parts != []
    ensures Join(parts + [last], sep) == Join(parts, sep) + sep + last
  {
    if |parts| == 1 {
      assert (parts + [last])[1..] == [last];
    } else {
      assert (parts + [last])[1..] == parts[1..] + [last];
      JoinAppend(parts[1..], last, sep);
      var tail := Join(parts[1..], sep);
      assert parts[0] + sep + (tail + sep + last) == parts[0] + sep + tail + sep + last;
    }
  }

  lemma CutAt(s: string, sep: string, k: nat)
    requires OccursAt(s, sep, k)
    ensures s == s[..k] + sep + s[k + |sep|..]
  {
    assert s == s[..k] + s[k..k + |sep|] + s[k + |sep|..];
  }

  /** Joining what Split returns gives the text back, for every separator. */
  lemma {:induction false} JoinOfSplit(s: string, sep: string)
    requires sep != ""
    ensures Join(Split(s, sep), sep) == s
    decreases |s|
  {
    match Find(s, sep, 0)
    case None =>
    case Some(k) =>
      var rest := s[k + |sep|..];
      JoinOfSplit(rest, sep);
      JoinCons(s[..k], Split(rest, sep), sep);
      CutAt(s, sep, k);
  }

  /** Splitting a nonempty list of separator-free parts at a one-character separator gives the list back. */
  lemma {:induction false} SplitOfJoin(parts: seq<string>, c: char)
    requires parts != []
    requires forall i | 0 <= i < |parts| :: c !in parts[i]
    ensures Split(Join(parts, [c]), [c]) == parts
  {
    var s := Join(parts, [c]);
    if |parts| == 1 {
      if Find(s, [c], 0).Some? {
        OccursAtChar(s, c, Find(s, [c], 0).value);
      }
    } else {
      var tail := Join(parts[1..], [c]);
      var k := |parts[0]|;
      OccursAtChar(s, c, k);
      forall i: nat | i < k ensures !OccursAt(s, [c], i) {
        assert s[i] == parts[0][i];
        OccursAtChar(s, c, i);
      }
      assert Find(s, [c], 0) == Some(k);
      assert s[..k] == parts[0] && s[k + 1..] == tail;
      SplitOfJoin(parts[1..], c);
      assert parts == [parts[0]] + parts[1..];
    }
  }

  /** Text without the separator is a single part, and only such text is. */
  lemma SplitWithout(s: string, c: char)
    ensures |Split(s, [c])| == 1 <==> c !in s
    ensures c !in s ==> Split(s, [c]) == [s]
  {
    if c in s {
      var i :| 0 <= i < |s| && s[i] == c;
      OccursAtChar(s, c, i);
    } else if Find(s, [c], 0).Some? {
      OccursAtChar(s, c, Find(s, [c], 0).value);
    }
  }

  /** Go compares strings byte by byte; for UTF-8 that is the lexicographic order of code points. */
  predicate StringLess(a: string, b: string) {
    if b == "" then false
    else if a == "" then true
    else a[0] < b[0] || (a[0] == b[0] && StringLess(a[1..], b[1..]))
  }

  lemma {:induction false} StringLessTotal(a: string, b: string)
    ensures !(StringLess(a, b) && StringLess(b, a))
    ensures a != b ==> StringLess(a, b) || StringLess(b, a)
    ensures !StringLess(a, a)
  {
    if a != "" {
      if b != "" {
        StringLessTotal(a[1..], b[1..]);
        assert a == [a[0]] + a[1..] && b == [b[0]] + b[1..];
      }
      StringLessTotal(a[1..], a[1..]);
    }
  }

  lemma {:induction false} StringLessTransitive(a: string, b: string, c: string)
    requires StringLess(a, b) && StringLess(b, c)
    ensures StringLess(a, c)
  {
    if a != "" && a[0] == b[0] == c[0] {
      StringLessTransitive(a[1..], b[1..], c[1..]);
    }
  }

  /** The two halves of a strict weak order, in the form sort.Slice needs. */
  lemma StringLessWeak(a: string, b: string, c: string)
    requires StringLess(a, c)
    ensures StringLess(a, b) || StringLess(b, c)
  {
    StringLessTotal(a, b);
    if !StringLess(a, b) && a != b {
      StringLessTransitive(b, a, c);
    }
  }

  /** The first k characters agree, and then a ends or has the smaller character. */
  predicate LessAt(a: string, b: string, k: nat) {
    k <= |a| && k < |b| && a[..k] == b[..k] && (k == |a| || a[k] < b[k])
  }

  ghost predicate IsBelow(a: string, b: string) {
    exists k: nat :: LessAt(a, b, k)
  }

  lemma {:induction false} StringLessExactly(a: string, b: string)
    ensures StringLess(a, b) <==> IsBelow(a, b)
  {
    if a == "" || b == "" {
      assert b != "" ==> LessAt(a, b, 0);
    } else if a[0] == b[0] {
      StringLessExactly(a[1..], b[1..]);
      if k: nat :| LessAt(a[1..], b[1..], k) { LessAtShifted(a, b, k); }
      if k: nat :| LessAt(a, b, k) {
        assert k > 0;
        LessAtShifted(a, b, k - 1);
      }
    } else {
      assert LessAt(a, b, 0) <==> a[0] < b[0];
      forall k: nat | k > 0 ensures !LessAt(a, b, k) {
        if k <= |a| && k <= |b| { assert a[..k][0] != b[..k][0]; }
      }
    }
  }

  lemma LessAtShifted(a: string, b: string, k: nat)
    requires a != "" && b != "" && a[0] == b[0]
    ensures LessAt(a, b, k + 1) <==> LessAt(a[1..], b[1..], k)
  {
    if k + 1 <= |a| && k + 1 <= |b| {
      assert a[..k + 1] == [a[0]] + a[1..][..k] && b[..k + 1] == [b[0]] + b[1..][..k];
    }
  }

  /** What Split leaves after the last separator has none. */
  lemma {:induction false} SplitLastIsFree(s: string, sep: string)
    requires sep != ""
    ensures !Contains(Split(s, sep)[|Split(s, sep)| - 1], sep)
    ensures |Split(s, sep)| == 1 ==> Split(s, sep) == [s]
    decreases |s|
  {
    match Find(s, sep, 0)
    case None =>
    case Some(k) => SplitLastIsFree(s[k + |sep|..], sep);
  }
}
