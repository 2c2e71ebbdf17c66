/**
  Template variables: send_service.go replaces a placeholder {{key}} over and over until the text is stable.
 */
module Template {
  import opened Wrappers
  import opened Text

  function Count(s: string, c: char): nat {
    if s == "" then 0 else Count(s[..|s| - 1], c) + (if s[|s| - 1] == c then 1 else 0)
  }

  function ReplaceOnce(s: string, target: string, value: string): string {
    match Find(s, target, 0)
    case None => s
    case Some(i) => s[..i] + value + s[i + |target|..]
  }

  function Iterate(f: string -> string, s: string, n: nat): string
    decreases n
  {
    if n == 0 then s else f(Iterate(f, s, n - 1))
  }

  function Replacer(target: string, value: string): string -> string {
    (s: string) => ReplaceOnce(s, target, value)
  }

  /** n rounds of replaceOnce. */
  function Rounds(s: string, target: string, value: string, n: nat): string {
    Iterate(Replacer(target, value), s, n)
  }

  /** Some character occurs less often in the replacement than in what it replaces. */
  ghost predicate Shrinks(target: string, value: string) {
    exists c: char :: Count(value, c) < Count(target, c)
  }

  /** Some number of rounds leads from s to this text, and a further round does not change it. */
  ghost predicate IsStable(s: string, target: string, value: string, text: string) {
    ReplaceOnce(text, target, value) == text && exists n: nat :: text == Rounds(s, target, value, n)
  }

  ghost predicate Stops(s: string, target: string, value: string) {
    exists text :: IsStable(s, target, value, text)
  }

  function Placeholder(key: string): string {
    "{{" + key + "}}"
  }

  predicate BraceFree(s: string) {
    '{' !in s
  }

  // ---- The source's loops ----

  /** findSubstring: the leftmost occurrence, or -1. */
  method FindSubstring(s: string, substr: string) returns (idx: int)
    ensures idx == match Find(s, substr, 0) case None => -1 case Some(i) => i
  {
    if |substr| == 0 {
      return 0;
    }
    var i := 0;
    while i <= |s| - |substr|
      invariant 0 <= i && Find(s, substr, 0) == Find(s, substr, i)
    {
      if s[i..i + |substr|] == substr {
        return i;
      }
      i := i + 1;
    }
    idx := -1;
  }

  method ReplaceFirst(s: string, target: string, value: string) returns (r: string)
    ensures r == ReplaceOnce(s, target, value)
  {
    var idx := FindSubstring(s, target);
    if idx == -1 {
      return s;
    }
    r := s[..idx] + value + s[idx + |target|..];
  }

  /**
    replaceAll. It is repeated to a fixed point, so a replacement can join the text around it into a new
    placeholder, and the loop may not stop at all.
   */
  method ReplaceAll(s: string, target: string, value: string) returns (result: string)
    requires Stops(s, target, value)
    ensures IsStable(s, target, value, result)
    ensures Contains(result, target) ==> value == target
  {
    ghost var last := LastRound(s, target, value);
    result := s;
    ghost var n: nat := 0;
    NoRounds(s, target, value);
    while true
      invariant n <= last && result == Rounds(s, target, value, n)
      decreases last - n
    {
      var newResult := ReplaceFirst(result, target, value);
      if newResult == result {
        StableLacksTarget(result, target, value);
        return;
      }
      NotLast(s, target, value, n, last, result);
      n := n + 1;
      result := newResult;
    }
  }

  lemma LastRound(s: string, target: string, value: string) returns (n: nat)
    requires Stops(s, target, value)
    ensures ReplaceOnce(Rounds(s, target, value, n), target, value) == Rounds(s, target, value, n)
  {
    var text :| IsStable(s, target, value, text);
    n :| text == Rounds(s, target, value, n);
  }

  lemma NoRounds(s: string, target: string, value: string)
    ensures Rounds(s, target, value, 0) == s
  {
  }

  lemma NextRound(s: string, target: string, value: string, n: nat)
    ensures Rounds(s, target, value, n + 1) == ReplaceOnce(Rounds(s, target, value, n), target, value)
  {
  }

  lemma NotLast(s: string, target: string, value: string, n: nat, last: nat, text: string)
    requires n <= last && text == Rounds(s, target, value, n) && ReplaceOnce(text, target, value) != text
    requires ReplaceOnce(Rounds(s, target, value, last), target, value) == Rounds(s, target, value, last)
    ensures n < last && ReplaceOnce(text, target, value) == Rounds(s, target, value, n + 1)
  {
    NextRound(s, target, value, n);
  }

  /** One template variable of SendEmail. */
  method FillPlaceholder(text: string, key: string, value: string) returns (filled: string)
    requires Stops(text, Placeholder(key), value)
    ensures IsStable(text, Placeholder(key), value, filled)
    ensures Contains(filled, Placeholder(key)) ==> value == Placeholder(key)
  {
    filled := ReplaceAll(text, Placeholder(key), value);
  }

  /** A text that a round does not change lacks the target, unless the target is replaced by itself. */
  lemma StableLacksTarget(s: string, target: string, value: string)
    requires ReplaceOnce(s, target, value) == s
    ensures Contains(s, target) ==> value == target
  {
    if Contains(s, target) {
      var i := Find(s, target, 0).value;
      var t := s[..i] + value + s[i + |target|..];
      assert t[i..i + |value|] == value;
      assert s[i..i + |target|] == target;
    }
  }

  // ---- Counting ----

  lemma {:induction false} CountConcat(a: string, b: string, c: char)
    ensures Count(a + b, c) == Count(a, c) + Count(b, c)
  {
    if b == "" {
      assert a + b == a;
    } else {
      assert (a + b)[..|a + b| - 1] == a + b[..|b| - 1];
      CountConcat(a, b[..|b| - 1], c);
    }
  }

  lemma {:induction false} CountNone(s: string, c: char)
    requires c !in s
    ensures Count(s, c) == 0
  {
    if s != "" { CountNone(s[..|s| - 1], c); }
  }

  lemma ReplaceOnceCounts(s: string, target: string, value: string, c: char)
    ensures Find(s, target, 0).Some? ==>
      Count(ReplaceOnce(s, target, value), c) == Count(s, c) - Count(target, c) + Count(value, c)
  {
    if Find(s, target, 0).Some? {
      var i := Find(s, target, 0).value;
      var head, tail := s[..i], s[i + |target|..];
      assert s == head + target + tail;
      CountConcat(head + target, tail, c);
      CountConcat(head, target, c);
      CountConcat(head + value, tail, c);
      CountConcat(head, value, c);
    }
  }

  /** A placeholder has at least two opening braces and a brace-free value none. */
  lemma PlaceholderShrinks(key: string, value: string)
    requires BraceFree(value)
    ensures Shrinks(Placeholder(key), value)
  {
    CountNone(value, '{');
    CountConcat("{{" + key, "}}", '{');
    CountConcat("{{", key, '{');
    assert "{{"[..1] == "{";
    assert Count("{", '{') == 1 by { assert "{"[..0] == ""; }
    assert Count("{{", '{') == 2;
  }

  /** When some character is rarer in the value than in the target, the loop stops on every text. */
  lemma {:induction false} ShrinkingStops(s: string, target: string, value: string, c: char) returns (n: nat)
    requires Count(value, c) < Count(target, c)
    ensures IsStable(s, target, value, Rounds(s, target, value, n))
    decreases Count(s, c)
  {
    var t := ReplaceOnce(s, target, value);
    if t == s {
      n := 0;
      NoRounds(s, target, value);
    } else {
      ReplaceOnceCounts(s, target, value, c);
      var m := ShrinkingStops(t, target, value, c);
      n := m + 1;
      IterateFromNext(Replacer(target, value), s, n);
    }
  }

  /** So filling in a value without opening braces always ends, and leaves no placeholder. */
  lemma BraceFreeStops(text: string, key: string, value: string)
    requires BraceFree(value)
    ensures Stops(text, Placeholder(key), value) && value != Placeholder(key)
  {
    PlaceholderShrinks(key, value);
    var c: char :| Count(value, c) < Count(Placeholder(key), c);
    var n := ShrinkingStops(text, Placeholder(key), value, c);
    assert Placeholder(key)[0] == '{';
  }

  // ---- The result ----

  /** A fixed point reached by iteration is reached for good. */
  lemma {:induction false} FixedPointStays(f: string -> string, s: string, m: nat, n: nat)
    requires m <= n && f(Iterate(f, s, m)) == Iterate(f, s, m)
    ensures Iterate(f, s, n) == Iterate(f, s, m)
    decreases n
  {
    if m < n { FixedPointStays(f, s, m, n - 1); }
  }

  lemma {:induction false} IterateFromNext(f: string -> string, s: string, n: nat)
    requires n > 0
    ensures Iterate(f, s, n) == Iterate(f, f(s), n - 1)
    decreases n
  {
    if n > 1 {
      IterateFromNext(f, s, n - 1);
    } else {
      assert Iterate(f, s, 0) == s;
    }
  }

  /** Once the placeholder is gone further rounds change nothing, so the stable text is unique. */
  lemma StableIsUnique(s: string, target: string, value: string, m: nat, n: nat)
    requires !Contains(Rounds(s, target, value, m), target) && !Contains(Rounds(s, target, value, n), target)
    ensures Rounds(s, target, value, n) == Rounds(s, target, value, m)
  {
    if m <= n {
      FixedPointStays(Replacer(target, value), s, m, n);
    } else {
      FixedPointStays(Replacer(target, value), s, n, m);
    }
  }

  lemma OccursFrom(s: string, sub: string, i: nat)
    requires sub != ""
    ensures OccursAt(s, sub, i) ==> i < |s| && s[i] == sub[0]
  {
    if i + |sub| <= |s| { assert s[i..i + |sub|][0] == s[i]; }
  }

  lemma FirstAfterPlain(a: string, target: string, rest: string)
    requires target != "" && target[0] == '{' && BraceFree(a)
    ensures Find(a + target + rest, target, 0) == Some(|a|)
  {
    var s := a + target + rest;
    assert OccursAt(s, target, |a|);
    forall i: nat | i < |a| ensures !OccursAt(s, target, i) {
      assert s[i] == a[i] && a[i] in a;
      OccursFrom(s, target, i);
    }
  }

  lemma ReplacesFirst(a: string, target: string, rest: string, value: string)
    requires target != "" && target[0] == '{' && BraceFree(a)
    ensures Replacer(target, value)(a + target + rest) == a + value + rest
  {
    FirstAfterPlain(a, target, rest);
    var s := a + target + rest;
    assert s[..|a|] == a && s[|a| + |target|..] == rest;
  }

  lemma {:induction false} FillsTemplate(a: string, lits: seq<string>, key: string, value: string)
    requires BraceFree(a) && BraceFree(value) && lits != []
    requires forall i | 0 <= i < |lits| :: BraceFree(lits[i])
    ensures Rounds(a + Join(lits, Placeholder(key)), Placeholder(key), value, |lits| - 1) == a + Join(lits, value)
    ensures BraceFree(a + Join(lits, value))
    decreases |lits|
  {
    var target := Placeholder(key);
    if |lits| == 1 {
      assert Join(lits, target) == lits[0] && Join(lits, value) == lits[0];
    } else {
      var head, rest := a + lits[0], lits[1..];
      TextSplits(a, lits, target);
      TextSplits(a, lits, value);
      ReplacesFirst(head, target, Join(rest, target), value);
      FillsTemplate(head + value, rest, key, value);
      IterateFromNext(Replacer(target, value), a + Join(lits, target), |lits| - 1);
    }
  }

  lemma TextSplits(a: string, lits: seq<string>, sep: string)
    requires |lits| > 1
    ensures a + Join(lits, sep) == a + lits[0] + sep + Join(lits[1..], sep)
  {
  }

  /** On a template whose text has no braces of its own, the loop puts the value for every placeholder, once. */
  lemma TemplateIsFilled(lits: seq<string>, key: string, value: string, filled: string, n: nat)
    requires lits != [] && BraceFree(value) && forall i | 0 <= i < |lits| :: BraceFree(lits[i])
    requires filled == Rounds(Join(lits, Placeholder(key)), Placeholder(key), value, n)
    requires !Contains(filled, Placeholder(key))
    ensures filled == Join(lits, value)
  {
    var s, target := Join(lits, Placeholder(key)), Placeholder(key);
    FillsTemplate("", lits, key, value);
    assert "" + s == s && "" + Join(lits, value) == Join(lits, value);
    BraceFreeHasNone(Join(lits, value), key);
    StableIsUnique(s, target, value, |lits| - 1, n);
  }

  lemma BraceFreeHasNone(s: string, key: string)
    requires BraceFree(s)
    ensures !Contains(s, Placeholder(key))
  {
    forall i: nat ensures !OccursAt(s, Placeholder(key), i) {
      OccursFrom(s, Placeholder(key), i);
      assert i < |s| ==> s[i] in s;
    }
  }

  /** Replacements can join up into a new placeholder, which is then replaced as well. */
  lemma JoinedPlaceholder()
    ensures Rounds("{" + "{{a}}" + "{a}}", "{{a}}", "", 1) == "{{a}}"
    ensures Rounds("{" + "{{a}}" + "{a}}", "{{a}}", "", 2) == ""
  {
    var target, s := "{{a}}", "{" + "{{a}}" + "{a}}";
    assert s[2] == '{' && target[2] == 'a';
    assert !OccursAt(s, target, 0) by { assert s[0..5][2] != target[2]; }
    assert OccursAt(s, target, 1);
    assert Find(s, target, 0) == Some(1);
    assert ReplaceOnce(s, target, "") == s[..1] + "" + s[6..] == target;
    assert OccursAt(target, target, 0);
    assert ReplaceOnce(target, target, "") == target[..0] + "" + target[5..] == "";
    var f := Replacer(target, "");
    assert Iterate(f, s, 0) == s && Iterate(f, s, 1) == target;
  }

  // ---- Where it does not stop ----

  lemma ContainsSplits(s: string, sub: string) returns (head: string, tail: string)
    requires Contains(s, sub)
    ensures s == head + sub + tail
  {
    var i: nat :| OccursAt(s, sub, i);
    head, tail := s[..i], s[i + |sub|..];
  }

  lemma InsideConcat(a: string, sub: string, b: string)
    ensures Contains(a + sub + b, sub)
  {
    assert OccursAt(a + sub + b, sub, |a|);
  }

  lemma ReplacingKeeps(s: string, target: string, value: string)
    requires target != "" && Contains(s, target) && Contains(value, target) && value != target
    ensures Contains(ReplaceOnce(s, target, value), target) && ReplaceOnce(s, target, value) != s
  {
    var head, tail := ContainsSplits(value, target);
    var i := Find(s, target, 0).value;
    var a, b := s[..i], s[i + |target|..];
    assert a + value + b == (a + head) + target + (tail + b);
    InsideConcat(a + head, target, tail + b);
    assert head == "" && tail == "" ==> value == target;
  }

  /** A value that holds its own placeholder is never used up: every round finds one more to replace. */
  lemma {:induction false} SelfReferenceNeverStops(s: string, target: string, value: string, n: nat)
    requires target != "" && Contains(s, target) && Contains(value, target) && value != target
    ensures Contains(Rounds(s, target, value, n), target)
    ensures Rounds(s, target, value, n + 1) != Rounds(s, target, value, n)
    decreases n
  {
    if n > 0 {
      SelfReferenceNeverStops(s, target, value, n - 1);
      ReplacingKeeps(Rounds(s, target, value, n - 1), target, value);
    }
    ReplacingKeeps(Rounds(s, target, value, n), target, value);
  }

  /** So on such a value the loop stops if and only if there is nothing to replace. */
  lemma SelfReferenceStopsExactly(s: string, target: string, value: string)
    requires target != "" && Contains(value, target) && value != target
    ensures Stops(s, target, value) <==> !Contains(s, target)
  {
    if Contains(s, target) {
      forall n: nat ensures !IsStable(s, target, value, Rounds(s, target, value, n)) {
        SelfReferenceNeverStops(s, target, value, n);
        NextRound(s, target, value, n);
      }
    } else {
      NoRounds(s, target, value);
      assert IsStable(s, target, value, s);
    }
  }
}
