/**
 Routing-table numbers for VRFs. Both agents look for the first free number in [50, 80) in the
 same way: sort the numbers in use, then walk them once with a moving candidate.
 */
module TableIds {
  import opened Text

  const START := 50
  const END := 80

  predicate Ordered(s: seq<int>) {
    forall i, j :: 0 <= i < j < |s| ==> s[i] <= s[j]
  }

  function Insert(x: int, s: seq<int>): (r: seq<int>)
    requires Ordered(s)
    ensures Ordered(r)
    ensures forall y :: y in r <==> y == x || y in s
  {
    if s == [] then [x]
    else if x <= s[0] then [x] + s
    else
      var rest := Insert(x, s[1..]);
      assert forall j :: 0 < j < |s| ==> s[0] <= s[j];
      assert forall y :: y in s[1..] ==> s[0] <= y;
      assert forall k :: 0 <= k < |rest| ==> rest[k] in rest && s[0] <= rest[k];
      [s[0]] + rest
  }

  /** sort.Ints / sort.Slice by table. */
  function Sort(s: seq<int>): (r: seq<int>)
    ensures Ordered(r)
    ensures forall y :: y in r <==> y in s
  {
    if s == [] then [] else Insert(s[0], Sort(s[1..]))
  }

  /** The first number at or above START that is not in use. */
  ghost predicate LeastFree(used: set<int>, id: int) {
    && START <= id < END
    && id !in used
    && forall k :: START <= k < id ==> k in used
  }

  ghost predicate Exhausted(used: set<int>) {
    forall k :: START <= k < END ==> k in used
  }

  lemma LeastFreeUnique(used: set<int>, a: int, b: int)
    requires LeastFree(used, a) && LeastFree(used, b)
    ensures a == b
  {
  }

  ghost function AsSet(s: seq<int>): set<int> {
    set x | x in s
  }

  /** findFreeTableID: duplicates and numbers outside the range are in the way of nothing. */
  method FindFree(tables: seq<int>) returns (r: Option<int>)
    ensures r.Some? ==> LeastFree(AsSet(tables), r.value)
    ensures r.None? <==> Exhausted(AsSet(tables))
  {
    var sorted := Sort(tables);
    var free := START;
    for k := 0 to |sorted|
      invariant START <= free
      invariant forall j :: START <= j < free ==> j in sorted[..k]
      invariant free !in sorted[..k]
    {
      assert sorted[..k + 1] == sorted[..k] + [sorted[k]];
      if sorted[k] == free {
        free := free + 1;
      }
    }
    assert sorted[..|sorted|] == sorted;
    if free >= END {
      return None;
    }
    assert free in AsSet(tables) <==> free in tables;
    return Some(free);
  }
}
