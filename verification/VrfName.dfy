/**
 Shortening VRF names to the interface-name limit (pkg/vrfname/vrfname.go). Characters stand for bytes.
 */
module VrfName {
  const MAX_LEN := 15

  predicate IsVowel(c: char) {
    c in "aeiouAEIOU"
  }

  /** A consonant or a digit. */
  predicate IsHard(c: char) {
    '0' <= c <= '9' || (('a' <= c <= 'z' || 'A' <= c <= 'Z') && !IsVowel(c))
  }

  // ---- Inner vowels ----

  predicate Inner(s: string, i: nat)
    requires i < |s|
  {
    IsVowel(s[i]) && 0 < i < |s| - 1 && IsHard(s[i - 1]) && IsHard(s[i + 1])
  }

  /** The first n characters without the inner vowels among them. */
  function DevoweledTo(s: string, n: nat): (r: string)
    requires n <= |s|
    ensures |r| <= n
  {
    if n == 0 then "" else DevoweledTo(s, n - 1) + (if Inner(s, n - 1) then "" else [s[n - 1]])
  }

  function Devoweled(s: string): string {
    DevoweledTo(s, |s|)
  }

  method RemoveInnerVowels(s: string) returns (out: string)
    ensures out == Devoweled(s)
  {
    out := "";
    for i := 0 to |s|
      invariant out == DevoweledTo(s, i)
    {
      if IsVowel(s[i]) && i > 0 && i < |s| - 1 && IsHard(s[i - 1]) && IsHard(s[i + 1]) {
        continue;
      }
      out := out + [s[i]];
    }
  }

  /** What the output ends with: the last character, or the hard one before a vowel that was dropped. */
  lemma Ending(s: string, n: nat)
    requires 0 < n <= |s|
    ensures var r := DevoweledTo(s, n);
            && r != "" && (if Inner(s, n - 1) then IsHard(r[|r| - 1]) else r[|r| - 1] == s[n - 1])
  {
    hide IsVowel;
    hide IsHard;
    if Inner(s, n - 1) {
      NotBoth(s, n - 2);
      assert DevoweledTo(s, n) == DevoweledTo(s, n - 1);
      assert DevoweledTo(s, n - 1) == DevoweledTo(s, n - 2) + [s[n - 2]];
    }
  }

  /** Neighbors are never both dropped: the neighbors of an inner vowel are hard. */
  lemma NotBoth(s: string, i: nat)
    requires i + 1 < |s|
    ensures !(Inner(s, i) && Inner(s, i + 1))
    ensures IsVowel(s[i + 1]) ==> !Inner(s, i)
    ensures IsVowel(s[i]) ==> !Inner(s, i + 1)
  {
  }

  lemma {:induction false} NoInnerLeft(s: string, n: nat)
    requires n <= |s|
    ensures forall j: nat :: j < |DevoweledTo(s, n)| ==> !Inner(DevoweledTo(s, n), j)
  {
    hide IsVowel;
    hide IsHard;
    if n > 0 {
      NoInnerLeft(s, n - 1);
      var was, now := DevoweledTo(s, n - 1), DevoweledTo(s, n);
      if !Inner(s, n - 1) {
        forall j: nat | j < |now| ensures !Inner(now, j) {
          if j == |was| - 1 && j > 0 {
            NewInterior(s, n - 1);
          } else if j < |was| - 1 {
            assert !Inner(was, j);
          }
        }
      } else {
        assert now == was;
      }
    }
  }

  /** The last character of the output so far is no inner vowel once the next one follows it. */
  lemma NewInterior(s: string, n: nat)
    requires 0 < n < |s| && |DevoweledTo(s, n)| > 1
    ensures var r := DevoweledTo(s, n);
            !(IsVowel(r[|r| - 1]) && IsHard(r[|r| - 2]) && IsHard(s[n]))
  {
    Ending(s, n);
    if !Inner(s, n - 1) && IsVowel(s[n - 1]) && n > 1 {
      NotBoth(s, n - 2);
      Ending(s, n - 1);
      assert DevoweledTo(s, n) == DevoweledTo(s, n - 1) + [s[n - 1]];
    }
  }

  lemma {:induction false} NothingToDrop(s: string, n: nat)
    requires n <= |s| && forall j: nat :: j < |s| ==> !Inner(s, j)
    ensures DevoweledTo(s, n) == s[..n]
  {
    if n > 0 {
      NothingToDrop(s, n - 1);
      assert s[..n] == s[..n - 1] + [s[n - 1]];
    }
  }

  /** Dropping inner vowels a second time drops nothing. */
  lemma DevowelTwice(s: string)
    ensures Devoweled(Devoweled(s)) == Devoweled(s)
  {
    NoInnerLeft(s, |s|);
    NothingToDrop(Devoweled(s), |Devoweled(s)|);
  }

  // ---- Underscores ----

  function Underscores(s: string): nat {
    if s == "" then 0 else (if s[0] == '_' then 1 else 0) + Underscores(s[1..])
  }

  function Bare(s: string): string {
    if s == "" then "" else Letter(s[0]) + Bare(s[1..])
  }

  function Letter(c: char): string {
    if c == '_' then "" else [c]
  }

  lemma {:induction false} BareLength(s: string)
    ensures |Bare(s)| == |s| - Underscores(s)
  {
    if s != "" {
      BareLength(s[1..]);
    }
  }

  /** s without the underscores from position p on. */
  function BareFrom(s: string, p: nat): string
    requires p <= |s|
  {
    s[..p] + Bare(s[p..])
  }

  method LastIndexByte(s: string, b: char) returns (r: int)
    ensures -1 <= r < |s| && (r >= 0 ==> s[r] == b) && forall j :: r < j < |s| ==> s[j] != b
  {
    r := |s| - 1;
    while r >= 0
      invariant -1 <= r < |s| && forall j :: r < j < |s| ==> s[j] != b
    {
      if s[r] == b {
        return;
      }
      r := r - 1;
    }
  }

  /** s without its last k underscores, or without any if there are fewer. */
  function DropLast(s: string, k: nat): string {
    if s == "" then ""
    else
      var init, c := s[..|s| - 1], s[|s| - 1];
      if c == '_' && k > 0 then DropLast(init, k - 1) else DropLast(init, k) + [c]
  }

  function Excess(s: string, target: nat): nat {
    if |s| > target then |s| - target else 0
  }

  /** Underscores go from the right, exactly as many as it takes. */
  method DropUnderscoresRTL(s: string, target: nat) returns (r: string)
    ensures r == DropLast(s, Excess(s, target))
    ensures |r| == |s| - (if Underscores(s) < Excess(s, target) then Underscores(s) else Excess(s, target))
  {
    r := s;
    ghost var cut := |s|;
    assert s[cut..] == "";
    while |r| > target
      invariant cut <= |s| && r == BareFrom(s, cut)
      invariant Underscores(s[cut..]) <= Excess(s, target)
      decreases |r|
    {
      BareLength(s[cut..]);
      var idx := LastIndexByte(r, '_');
      if idx < 0 {
        NoneBefore(s, cut);
        break;
      }
      LastBefore(s, cut, idx);
      r := r[..idx] + r[idx + 1..];
      cut := idx;
    }
    CountSplits(s, cut);
    BareLength(s[cut..]);
    DroppedFrom(s, cut, Excess(s, target));
  }

  /** Dropping the last k underscores clears the text behind them, if k are there or none is left before. */
  lemma {:induction false} DroppedFrom(s: string, cut: nat, k: nat)
    requires cut <= |s| && Underscores(s[cut..]) <= k
    requires Underscores(s[cut..]) == k || Underscores(s[..cut]) == 0
    ensures DropLast(s, k) == BareFrom(s, cut)
  {
    if cut == |s| {
      assert s[cut..] == "" && s[..cut] == s;
      NothingDropped(s, k);
    } else {
      var init, c := s[..|s| - 1], s[|s| - 1];
      LastCharacter(s, cut);
      hide Bare;
      hide Underscores;
      assert init[..cut] == s[..cut];
      DroppedFrom(init, cut, if c == '_' then k - 1 else k);
    }
  }

  lemma LastCharacter(s: string, cut: nat)
    requires cut < |s|
    ensures var init, c := s[..|s| - 1], s[|s| - 1];
            && BareFrom(s, cut) == BareFrom(init, cut) + Letter(c)
            && Underscores(s[cut..]) == Underscores(init[cut..]) + if c == '_' then 1 else 0
  {
    var init, c := s[..|s| - 1], s[|s| - 1];
    var tail := init[cut..];
    assert s[cut..] == tail + [c];
    BareAppends(tail, [c]);
    CountSplits(tail + [c], |tail|);
    assert (tail + [c])[..|tail|] == tail && (tail + [c])[|tail|..] == [c];
    assert Bare([c]) == Letter(c) + Bare([c][1..]) == Letter(c);
    assert Underscores([c]) == if c == '_' then 1 else 0;
    assert s[..cut] == init[..cut];
  }

  lemma {:induction false} NothingDropped(s: string, k: nat)
    requires k == 0 || Underscores(s) == 0
    ensures DropLast(s, k) == s
  {
    if s != "" {
      var init, c := s[..|s| - 1], s[|s| - 1];
      assert s == init + [c];
      CountSplits(s, |s| - 1);
      assert s[|s| - 1..] == [c] && Underscores([c]) == if c == '_' then 1 else 0;
      NothingDropped(init, k);
    }
  }

  lemma {:induction false} CountSplits(s: string, p: nat)
    requires p <= |s|
    ensures Underscores(s) == Underscores(s[..p]) + Underscores(s[p..])
    decreases |s|
  {
    if p > 0 {
      CountSplits(s[1..], p - 1);
      assert s[..p][1..] == s[1..][..p - 1] && s[1..][p - 1..] == s[p..];
    } else {
      assert s[..p] == "" && s[p..] == s;
    }
  }

  lemma {:induction false} BareHasNone(s: string)
    ensures '_' !in Bare(s)
    ensures '_' !in s ==> Bare(s) == s && Underscores(s) == 0
  {
    if s != "" {
      BareHasNone(s[1..]);
      assert s == [s[0]] + s[1..];
    }
  }

  /** No underscore in the text means none before the cut. */
  lemma NoneBefore(s: string, cut: nat)
    requires cut <= |s| && forall j :: 0 <= j < |BareFrom(s, cut)| ==> BareFrom(s, cut)[j] != '_'
    ensures Underscores(s[..cut]) == 0
  {
    var r := BareFrom(s, cut);
    assert forall j :: 0 <= j < cut ==> s[..cut][j] == r[j];
    BareHasNone(s[..cut]);
  }

  /** The last underscore of the text is the last one before the cut. */
  lemma BeforeCut(s: string, cut: nat, idx: nat)
    requires cut <= |s| && idx < |BareFrom(s, cut)|
    requires var r := BareFrom(s, cut); r[idx] == '_' && forall j :: idx < j < |r| ==> r[j] != '_'
    ensures idx < cut && s[idx] == '_' && '_' !in s[idx + 1..cut]
  {
    BareHasNone(s[cut..]);
    hide Bare;
    var r, tail := BareFrom(s, cut), Bare(s[cut..]);
    assert forall j :: cut <= j < |r| ==> r[j] in tail;
    forall j | idx < j < cut ensures s[j] != '_' {
      assert r[j] == s[j];
    }
  }

  /** Dropping it moves the cut there. */
  lemma LastBefore(s: string, cut: nat, idx: nat)
    requires cut <= |s| && idx < |BareFrom(s, cut)|
    requires var r := BareFrom(s, cut); r[idx] == '_' && forall j :: idx < j < |r| ==> r[j] != '_'
    ensures idx < cut && idx <= |s|
    ensures var r := BareFrom(s, cut); r[..idx] + r[idx + 1..] == BareFrom(s, idx)
    ensures Underscores(s[idx..]) == Underscores(s[cut..]) + 1
  {
    BeforeCut(s, cut, idx);
    SkipsOver(s, cut, idx);
    hide Bare;
    hide Underscores;
    var r := BareFrom(s, cut);
    assert r[..idx] == s[..idx];
    assert r[idx + 1..] == s[idx + 1..cut] + Bare(s[cut..]);
  }

  lemma SkipsOver(s: string, cut: nat, idx: nat)
    requires idx < cut <= |s| && s[idx] == '_' && '_' !in s[idx + 1..cut]
    ensures Bare(s[idx..]) == s[idx + 1..cut] + Bare(s[cut..])
    ensures Underscores(s[idx..]) == Underscores(s[cut..]) + 1
  {
    var mid := s[idx + 1..cut];
    BareHasNone(mid);
    BareAppends(mid, s[cut..]);
    CountSplits(mid + s[cut..], |mid|);
    assert (mid + s[cut..])[..|mid|] == mid && (mid + s[cut..])[|mid|..] == s[cut..];
    assert mid + s[cut..] == s[idx..][1..];
  }

  lemma {:induction false} BareAppends(a: string, b: string)
    ensures Bare(a + b) == Bare(a) + Bare(b)
  {
    hide Letter;
    if a == "" {
      assert a + b == b;
    } else {
      BareAppends(a[1..], b);
      assert (a + b)[0] == a[0] && (a + b)[1..] == a[1..] + b;
      assert Letter(a[0]) + (Bare(a[1..]) + Bare(b)) == (Letter(a[0]) + Bare(a[1..])) + Bare(b);
    }
  }

  // ---- Reduce ----

  /** The consonants and digits, in order. */
  function Hards(s: string): string {
    if s == "" then "" else Hards(s[..|s| - 1]) + (if IsHard(s[|s| - 1]) then [s[|s| - 1]] else "")
  }

  lemma {:induction false} HardsAppend(a: string, b: string)
    ensures Hards(a + b) == Hards(a) + Hards(b)
  {
    if b == "" {
      assert a + b == a;
    } else {
      HardsAppend(a, b[..|b| - 1]);
      assert (a + b)[..|a + b| - 1] == a + b[..|b| - 1];
    }
  }

  lemma {:induction false} DevowelKeepsHards(s: string, n: nat)
    requires n <= |s|
    ensures Hards(DevoweledTo(s, n)) == Hards(s[..n])
  {
    hide IsVowel;
    hide IsHard;
    if n > 0 {
      DevowelKeepsHards(s, n - 1);
      assert s[..n][..n - 1] == s[..n - 1];
      if !Inner(s, n - 1) {
        HardsAppend(DevoweledTo(s, n - 1), [s[n - 1]]);
        HardsAppend(s[..n - 1], [s[n - 1]]);
        assert s[..n] == s[..n - 1] + [s[n - 1]];
      } else {
        VowelsAreSoft(s[n - 1]);
        assert DevoweledTo(s, n) == DevoweledTo(s, n - 1);
        assert s[..n][n - 1] == s[n - 1];
      }
    }
  }

  lemma VowelsAreSoft(c: char)
    ensures IsVowel(c) ==> !IsHard(c)
  {
  }

  lemma {:induction false} DropKeepsHards(s: string, k: nat)
    ensures Hards(DropLast(s, k)) == Hards(s)
  {
    if s != "" {
      var init, c := s[..|s| - 1], s[|s| - 1];
      DropKeepsHards(init, if c == '_' && k > 0 then k - 1 else k);
      if !(c == '_' && k > 0) {
        HardsAppend(DropLast(init, k), [c]);
        HardsAppend(init, [c]);
        assert s == init + [c];
      }
    }
  }

  /** The cascade: the name itself, then without inner vowels, then with underscores dropped from the right. */
  method Reduce(name: string) returns (r: string)
    ensures r == if |name| <= MAX_LEN then name else DropLast(Devoweled(name), Excess(Devoweled(name), MAX_LEN))
    ensures Hards(r) == Hards(name)
    ensures |r| <= MAX_LEN <==> Reducible(name)
  {
    DevowelKeepsHards(name, |name|);
    assert name[..|name|] == name;
    if |name| <= MAX_LEN {
      return name;
    }
    var reduced := RemoveInnerVowels(name);
    DropKeepsHards(reduced, Excess(reduced, MAX_LEN));
    if |reduced| <= MAX_LEN {
      NothingDropped(reduced, 0);
      return reduced;
    }
    r := DropUnderscoresRTL(reduced, MAX_LEN);
  }

  /** Exactly these names can be made to fit. */
  predicate Reducible(name: string) {
    |Devoweled(name)| - Underscores(Devoweled(name)) <= MAX_LEN
  }

  method CanReduce(name: string) returns (r: bool)
    ensures r <==> Reducible(name)
  {
    var reduced := Reduce(name);
    return |reduced| <= MAX_LEN;
  }
}
