/** Byte-wise string order, and comma-separated lists: sort.Strings, strings.Join, strings.Split. */
module Strings {
  import opened Text

  predicate LessEq(a: string, b: string) {
    a == "" || (b != "" && (a[0] < b[0] || (a[0] == b[0] && LessEq(a[1..], b[1..]))))
  }

  lemma {:induction false} LessEqTotal(a: string, b: string)
    ensures LessEq(a, b) || LessEq(b, a)
  {
    if a != "" && b != "" && a[0] == b[0] {
      LessEqTotal(a[1..], b[1..]);
    }
  }

  lemma {:induction false} LessEqAntisymmetric(a: string, b: string)
    requires LessEq(a, b) && LessEq(b, a)
    ensures a == b
  {
    if a != "" && b != "" {
      LessEqAntisymmetric(a[1..], b[1..]);
      assert a == [a[0]] + a[1..] && b == [b[0]] + b[1..];
    }
  }

  lemma {:induction false} LessEqTransitive(a: string, b: string, c: string)
    requires LessEq(a, b) && LessEq(b, c)
    ensures LessEq(a, c)
  {
    if a != "" && b != "" && c != "" && a[0] == b[0] && b[0] == c[0] {
      LessEqTransitive(a[1..], b[1..], c[1..]);
    }
  }

  predicate IsLeast(m: string, s: set<string>) {
    m in s && forall x :: x in s ==> LessEq(m, x)
  }

  lemma {:induction false} LeastExists(s: set<string>) returns (m: string)
    requires s != {}
    ensures IsLeast(m, s)
  {
    var pick := Inhabitant(s);
    LessEqTotal(pick, pick);
    if s == {pick} {
      m := pick;
    } else {
      var rest := s - {pick};
      var least := LeastExists(rest);
      LessEqTotal(pick, least);
      m := if LessEq(pick, least) then pick else least;
      forall x | x in s ensures LessEq(m, x) {
        if x != pick && m == pick {
          LessEqTransitive(pick, least, x);
        }
      }
    }
  }

  function Least(s: set<string>): (m: string)
    requires s != {}
    ensures IsLeast(m, s)
  {
    assert exists m :: IsLeast(m, s) by { var m := LeastExists(s); }
    assert forall m, n :: IsLeast(m, s) && IsLeast(n, s) ==> m == n by {
      forall m, n | IsLeast(m, s) && IsLeast(n, s) ensures m == n {
        LessEqAntisymmetric(m, n);
      }
    }
    var m :| IsLeast(m, s);
    m
  }

  /** The keys of a map in the order sort.Strings gives them. */
  function Sorted(s: set<string>): (r: seq<string>)
    ensures forall x :: x in r <==> x in s
    ensures forall i, j :: 0 <= i < j < |r| ==> LessEq(r[i], r[j]) && r[i] != r[j]
  {
    if s == {} then []
    else
      var rest := Sorted(s - {Least(s)});
      assert forall j :: 0 <= j < |rest| ==> rest[j] in rest;
      [Least(s)] + rest
  }

  /** strings.Join with a comma. */
  function Join(keys: seq<string>): string {
    if keys == [] then ""
    else if |keys| == 1 then keys[0]
    else keys[0] + "," + Join(keys[1..])
  }

  /** The position of the first comma, or the length. */
  function FirstComma(s: string): (k: nat)
    ensures k <= |s|
    ensures ',' !in s[..k]
    ensures k < |s| ==> s[k] == ','
  {
    if s == "" || s[0] == ',' then 0
    else
      var k := FirstComma(s[1..]);
      assert s[..k + 1] == [s[0]] + s[1..][..k];
      k + 1
  }

  /** strings.Split on a comma. */
  function Split(s: string): seq<string>
    decreases |s|
  {
    var k := FirstComma(s);
    if k == |s| then [s] else [s[..k]] + Split(s[k + 1..])
  }

  lemma {:induction false} FirstCommaAt(a: string, b: string)
    requires ',' !in a
    ensures FirstComma(a + "," + b) == |a|
    ensures FirstComma(a) == |a|
  {
    if a != "" {
      FirstCommaAt(a[1..], b);
      assert (a + "," + b)[1..] == a[1..] + "," + b;
    }
  }

  /** A non-empty list of comma-free keys survives joining and splitting. */
  lemma {:induction false} SplitJoin(keys: seq<string>)
    requires keys != [] && forall k :: k in keys ==> ',' !in k
    ensures Split(Join(keys)) == keys
  {
    if |keys| == 1 {
      FirstCommaAt(keys[0], "");
    } else {
      var rest := Join(keys[1..]);
      FirstCommaAt(keys[0], rest);
      var s := keys[0] + "," + rest;
      assert s[..|keys[0]|] == keys[0] && s[|keys[0]| + 1..] == rest;
      SplitJoin(keys[1..]);
    }
  }
}
