/** The order of events in a reconcile run: L3VNI ports come up only after FRR was reloaded. */
module Ordering {
  import opened LinkTable

  /** A port created in the run comes up only if a successful reload lies between. */
  ghost predicate UpAfterReload(run: seq<Event>) {
    forall i, j :: 0 <= i < j < |run| && PortCreated(run[i]) && run[j] == SetUp(run[i].index) ==>
      exists k :: i < k < j && run[k] == FrrReloaded
  }

  predicate PortCreated(e: Event) {
    e.Created? && e.l3Port
  }

  /** No VRF device is deleted while an l2.* bridge is enslaved to it. */
  ghost predicate VrfsDeletedBare(run: seq<Event>) {
    forall k :: 0 <= k < |run| && run[k].VrfDeleted? ==> run[k].enslavedL2 == {}
  }

  /** Events of a phase before the reload: it brings up nothing it created as a port. */
  ghost predicate NoPortUp(run: seq<Event>) {
    forall i, j :: 0 <= i < |run| && 0 <= j < |run| && PortCreated(run[i]) ==> run[j] != SetUp(run[i].index)
  }

  ghost predicate IndicesWithin(run: seq<Event>, lo: int, hi: int) {
    forall k :: 0 <= k < |run| && (run[k].Created? || run[k].SetUp?) ==> lo <= run[k].index < hi
  }

  ghost predicate NoPortCreated(run: seq<Event>) {
    forall k :: 0 <= k < |run| ==> !PortCreated(run[k])
  }

  lemma NoPortUpConcat(a: seq<Event>, b: seq<Event>, lo: int, mid: int, hi: int)
    requires NoPortUp(a) && NoPortUp(b)
    requires lo <= mid <= hi && IndicesWithin(a, lo, mid) && IndicesWithin(b, mid, hi)
    ensures NoPortUp(a + b) && IndicesWithin(a + b, lo, hi)
  {
  }

  /** A phase that is quiet, a reload, and a phase that creates no port: the run is in order. */
  lemma ReloadBetween(a: seq<Event>, b: seq<Event>)
    requires NoPortUp(a) && NoPortCreated(b)
    ensures UpAfterReload(a + [FrrReloaded] + b)
  {
    var run := a + [FrrReloaded] + b;
    forall i, j | 0 <= i < j < |run| && PortCreated(run[i]) && run[j] == SetUp(run[i].index)
      ensures exists k :: i < k < j && run[k] == FrrReloaded
    {
      assert i < |a| < j;
      assert run[|a|] == FrrReloaded;
    }
  }
}
