/** The node agent's reconcile sequence (cmd/frr-cra/main.go). */
module FrrCra {
  import opened Text
  import opened LinkTable
  import opened Layer3
  import opened Layer2
  import opened Ordering
  import opened L3Plan
  import opened L2Plan
  import opened NlManager

  class Agent {
    const nl: Manager

    constructor (nl: Manager)
      ensures this.nl == nl
    {
      this.nl := nl;
    }

    // ---- Layer 3 ----

    /** getVRFsToDelete: exactly the doomed VRFs, in dump order. */
    method GetVRFsToDelete(cfg: Config) returns (ok: bool, doomed: seq<VRFInformation>)
      ensures ok ==> Ids(doomed) == Doomed(nl.base, cfg, nl.toolkit.links)
      ensures ok ==> forall k :: 0 <= k < |doomed| ==>
                IsVrf(nl.toolkit.links, doomed[k].vrfID) && doomed[k] == InfoOf(nl.toolkit.links, doomed[k].vrfID)
      ensures ok ==> forall j, k :: 0 <= j < k < |doomed| ==> doomed[j].vrfID < doomed[k].vrfID
    {
      ghost var t := nl.toolkit.links;
      doomed := [];
      var existing: seq<VRFInformation>;
      ok, existing := nl.ListL3();
      if !ok {
        return;
      }
      hide ToDelete;
      hide InfoOf;
      for i := 0 to |existing|
        invariant forall info :: info in doomed <==> info in existing[..i] && ToDelete(cfg, info)
        invariant forall k :: 0 <= k < |doomed| && i < |existing| ==> doomed[k].vrfID < existing[i].vrfID
        invariant forall j, k :: 0 <= j < k < |doomed| ==> doomed[j].vrfID < doomed[k].vrfID
      {
        assert existing[..i + 1] == existing[..i] + [existing[i]];
        var delete := MustDelete(cfg, existing[i]);
        if delete {
          doomed := doomed + [existing[i]];
        }
      }
      assert existing[..|existing|] == existing;
      DoomedIds(nl.base, cfg, t, existing, doomed);
    }

    /** The inner loop of getVRFsToDelete. */
    static method MustDelete(cfg: Config, info: VRFInformation) returns (delete: bool)
      ensures delete == ToDelete(cfg, info)
    {
      var needsDeletion, localOnly := true, false;
      ghost var found := FirstNamed(cfg, info.name);
      for j := 0 to |cfg|
        invariant needsDeletion && !localOnly
        invariant FirstNamed(cfg[j..], info.name) == found
      {
        if cfg[j].name == info.name {
          if cfg[j].localOnly || cfg[j].vni == info.vni {
            needsDeletion, localOnly := false, cfg[j].localOnly;
          }
          break;
        }
        assert cfg[j..][1..] == cfg[j + 1..];
      }
      return needsDeletion || (info.markForDelete && !localOnly);
    }

    /** One round of the delete loop, in terms of the table t before the loop. */
    method DeleteVRF(ghost t: Table, ghost done: set<int>, info: VRFInformation) returns (ok: bool)
      requires nl.toolkit.Valid() && nl.toolkit.links == RemoveAll(t, Families(t, done))
      requires 0 !in t && 0 !in done && IsVrf(t, info.vrfID) && info.vrfID !in done && t[info.vrfID].name == info.name
      modifies nl.toolkit
      ensures nl.toolkit.Valid() && nl.toolkit.next == old(nl.toolkit.next)
      ensures ok ==> nl.toolkit.links == RemoveAll(t, Families(t, done + {info.vrfID}))
      ensures nl.toolkit.links.Keys <= old(nl.toolkit.links).Keys
      ensures Deletions(t, {info.vrfID}, old(nl.toolkit.log), nl.toolkit.log)
    {
      FamiliesStep(t, done, info.vrfID);
      FamiliesFrame(t, done, info.vrfID);
      EnslavedShrinks(t, Families(t, done), info.vrfID);
      ghost var gone;
      ok, gone := nl.CleanupL3(info);
    }

    /** The delete loop of reconcileLayer3. */
    method DeleteVRFs(doomed: seq<VRFInformation>) returns (ok: bool)
      requires nl.toolkit.Valid()
      requires forall k :: 0 <= k < |doomed| ==>
                 IsVrf(nl.toolkit.links, doomed[k].vrfID) && nl.toolkit.links[doomed[k].vrfID].name == doomed[k].name
      requires forall j, k :: 0 <= j < k < |doomed| ==> doomed[j].vrfID < doomed[k].vrfID
      modifies nl.toolkit
      ensures nl.toolkit.Valid() && nl.toolkit.next == old(nl.toolkit.next)
      ensures nl.toolkit.links.Keys <= old(nl.toolkit.links).Keys
      ensures Deletions(old(nl.toolkit.links), Ids(doomed), old(nl.toolkit.log), nl.toolkit.log)
      ensures ok ==> nl.toolkit.links == RemoveAll(old(nl.toolkit.links), Families(old(nl.toolkit.links), Ids(doomed)))
      ensures doomed == [] ==> ok && unchanged(nl.toolkit)
    {
      ghost var t := nl.toolkit.links;
      assert Families(t, Ids([])) == {};
      RemoveNone(t);
      for i := 0 to |doomed|
        invariant nl.toolkit.Valid() && nl.toolkit.next == old(nl.toolkit.next)
        invariant nl.toolkit.links == RemoveAll(t, Families(t, Ids(doomed[..i])))
        invariant Deletions(t, Ids(doomed), old(nl.toolkit.log), nl.toolkit.log)
        invariant i == 0 ==> unchanged(nl.toolkit)
      {
        IdsStep(doomed, i);
        ghost var log := nl.toolkit.log;
        ok := DeleteVRF(t, Ids(doomed[..i]), doomed[i]);
        DeletionsTransitive(t, Ids(doomed), doomed[i].vrfID, old(nl.toolkit.log), log, nl.toolkit.log);
        if !ok {
          return;
        }
      }
      assert doomed[..|doomed|] == doomed;
      return true;
    }

    /** One round of createVRFs: nothing to do for an entry that a listed VRF matches. */
    method EnsureVRF(ghost t: Table, c: VRFInformation, existing: seq<VRFInformation>) returns (ok: bool, added: bool)
      requires nl.toolkit.Valid() && Lists(nl.base, t, existing)
      modifies nl.toolkit
      ensures nl.toolkit.Valid()
      ensures Grown(old(nl.toolkit.links), nl.toolkit.links, old(nl.toolkit.next))
      ensures QuietGrowth(old(nl.toolkit.log), nl.toolkit.log, old(nl.toolkit.next), nl.toolkit.next)
      ensures NewPortsDown(old(nl.toolkit.links), nl.toolkit.links)
      ensures added <==> !Provided(nl.base, t, c)
      ensures !added ==> ok && unchanged(nl.toolkit)
      ensures ok && added ==> exists table :: nl.toolkit.links == WithVrf(old(nl.toolkit.links), old(nl.toolkit.next), c, table)
      ensures ok ==> NoNewSharing(nl.base, old(nl.toolkit.links), nl.toolkit.links)
    {
      ProvidedIsListed(nl.base, t, existing, c);
      var exists_ := AlreadyExists(existing, c);
      if exists_ {
        return true, false;
      }
      ghost var u, n := nl.toolkit.links, nl.toolkit.next;
      ok := nl.CreateL3(c);
      added := true;
      if ok {
        CreateSharesNothing(nl.base, u, n, c, nl.toolkit.links[n].kind.table);
      }
    }

    /** createVRFs: every entry without a match among the listed VRFs is created, in order. */
    method CreateVRFs(cfg: Config) returns (ok: bool, created: seq<VRFInformation>)
      requires nl.toolkit.Valid()
      modifies nl.toolkit
      ensures nl.toolkit.Valid()
      ensures Grown(old(nl.toolkit.links), nl.toolkit.links, old(nl.toolkit.next))
      ensures NewPortsDown(old(nl.toolkit.links), nl.toolkit.links)
      ensures QuietGrowth(old(nl.toolkit.log), nl.toolkit.log, old(nl.toolkit.next), nl.toolkit.next)
      ensures ok && NoneReserved(nl.base, cfg) ==>
                Progress(nl.base, cfg, |cfg|, old(nl.toolkit.links), nl.toolkit.links, created)
      ensures ok ==> KeepsLayer2(nl.base, old(nl.toolkit.links), nl.toolkit.links)
      ensures ok ==> NoNewSharing(nl.base, old(nl.toolkit.links), nl.toolkit.links)
      ensures (forall c :: c in cfg ==> Provided(nl.base, old(nl.toolkit.links), c)) ==> created == [] && unchanged(nl.toolkit)
    {
      ghost var t, n0, log0 := nl.toolkit.links, nl.toolkit.next, nl.toolkit.log;
      created := [];
      StartVRFs(nl.base, cfg, t);
      hide Progress;
      hide KeepsLayer2;
      assert NoNewSharing(nl.base, t, t) && NewPortsDown(t, t);
      hide NoNewSharing;
      hide NewPortsDown;
      hide Provided;
      hide NoneReserved;
      hide WithVrf;
      hide Lists;
      var existing: seq<VRFInformation>;
      ok, existing := nl.ListL3();
      if !ok {
        return;
      }
      for i := 0 to |cfg|
        invariant nl.toolkit.Valid()
        invariant Grown(t, nl.toolkit.links, n0) && NewPortsDown(t, nl.toolkit.links)
        invariant QuietGrowth(log0, nl.toolkit.log, n0, nl.toolkit.next)
        invariant NoneReserved(nl.base, cfg) ==> Progress(nl.base, cfg, i, t, nl.toolkit.links, created)
        invariant KeepsLayer2(nl.base, t, nl.toolkit.links)
        invariant NoNewSharing(nl.base, t, nl.toolkit.links)
        invariant (forall c :: c in cfg ==> Provided(nl.base, t, c)) ==> created == [] && unchanged(nl.toolkit)
      {
        ghost var u, log1, n1 := nl.toolkit.links, nl.toolkit.log, nl.toolkit.next;
        assert cfg[i] in cfg;
        var added;
        ok, added := EnsureVRF(t, cfg[i], existing);
        NewPortsDownTrans(t, u, nl.toolkit.links);
        QuietGrowthStep(log0, log1, nl.toolkit.log, n0, n1, nl.toolkit.next);
        if !ok {
          return;
        }
        KeepsLayer2Step(nl.base, t, u, nl.toolkit.links, n1, cfg[i]);
        NoNewSharingTrans(nl.base, t, u, nl.toolkit.links);
        if NoneReserved(nl.base, cfg) {
          ProgressStep(nl.base, cfg, i, t, u, nl.toolkit.links, n1, created, added);
        }
        if added {
          created := created + [cfg[i]];
        }
      }
      return true, created;
    }

    /**
     reconcileLayer3: delete what the configuration does not keep, then create what is missing.
     On success the listing is the configuration. Run on a table that already has it, it does nothing.
     */
    method ReconcileLayer3(cfg: Config) returns (ok: bool, created: seq<VRFInformation>)
      requires nl.toolkit.Valid()
      modifies nl.toolkit
      ensures nl.toolkit.Valid()
      ensures NewPortsDown(old(nl.toolkit.links), nl.toolkit.links)
      ensures QuietPhase(old(nl.toolkit.links), Doomed(nl.base, cfg, old(nl.toolkit.links)),
                         old(nl.toolkit.log), nl.toolkit.log)
      ensures ok && NoneReserved(nl.base, cfg) && DistinctNames(cfg) ==> Converged(nl.base, cfg, nl.toolkit.links)
      ensures ok && NoneReserved(nl.base, cfg) ==>
                Progress(nl.base, cfg, |cfg|, Pruning(nl.base, cfg, old(nl.toolkit.links)), nl.toolkit.links, created)
      ensures ok && Bare(old(nl.toolkit.links), Doomed(nl.base, cfg, old(nl.toolkit.links))) ==>
                KeepsLayer2(nl.base, old(nl.toolkit.links), nl.toolkit.links)
      ensures ok ==> NoNewSharing(nl.base, old(nl.toolkit.links), nl.toolkit.links)
      ensures Converged(nl.base, cfg, old(nl.toolkit.links)) ==> created == [] && unchanged(nl.toolkit)
    {
      ghost var t, log0 := nl.toolkit.links, nl.toolkit.log;
      ghost var vs := Doomed(nl.base, cfg, t);
      created := [];
      var doomed: seq<VRFInformation>;
      ok, doomed := GetVRFsToDelete(cfg);
      if !ok {
        return;
      }
      NothingDoomed(nl.base, cfg, t, doomed);
      ok := DeleteVRFs(doomed);
      ghost var u, log1, n1 := nl.toolkit.links, nl.toolkit.log, nl.toolkit.next;
      DeletionsAreQuiet(t, vs, log0, log1, log1, n1, n1);
      if !ok {
        return;
      }
      DeletingPrunes(nl.base, cfg, t, n1);
      DeletedKeepsLayer2(nl.base, cfg, t, n1);
      DeleteSharesNothing(nl.base, t, Families(t, vs));
      hide NoNewSharing;
      ok, created := CreateVRFs(cfg);
      DeletionsAreQuiet(t, vs, log0, log1, nl.toolkit.log, n1, nl.toolkit.next);
      if ok {
        NoNewSharingTrans(nl.base, t, u, nl.toolkit.links);
        Layer3Done(nl.base, cfg, t, nl.toolkit.links, created);
      }
    }

    /** upNewVRFs */
    method UpNewVRFs(created: seq<VRFInformation>) returns (ok: bool, ghost up: set<string>)
      requires nl.toolkit.Valid()
      modifies nl.toolkit
      ensures nl.toolkit.Valid() && Calm(old(nl.toolkit.log), nl.toolkit.log)
      ensures nl.toolkit.links == WithUp(old(nl.toolkit.links), up)
      ensures ok ==> forall c :: c in created ==> PortNames(c) <= up
    {
      ghost var t := nl.toolkit.links;
      up := {};
      WithNoneUp(t);
      hide WithUp;
      hide PortNames;
      for i := 0 to |created|
        invariant nl.toolkit.Valid() && Calm(old(nl.toolkit.log), nl.toolkit.log)
        invariant nl.toolkit.links == WithUp(t, up)
        invariant forall k :: 0 <= k < i ==> PortNames(created[k]) <= up
      {
        ghost var more;
        ok, more := nl.UpL3(created[i]);
        WithUpTwice(t, up, more);
        up := up + more;
        if !ok {
          return;
        }
      }
      return true, up;
    }

    // ---- Layer 2 ----

    /** The inner loops of deleteLayer2. */
    static method NetMustGo(cfg: Config2, doomedVrfs: seq<VRFInformation>, info: Layer2Information) returns (delete: bool)
      ensures delete == NetDoomed(cfg, Names(doomedVrfs), info)
    {
      delete := true;
      for j := 0 to |cfg|
        invariant delete
        invariant forall i :: 0 <= i < j ==> cfg[i].vlanID != info.vlanID
      {
        if cfg[j].vlanID == info.vlanID {
          delete := false;
          break;
        }
      }
      for j := 0 to |doomedVrfs|
        invariant delete == !Wanted(cfg, info.vlanID)
        invariant forall i :: 0 <= i < j ==> doomedVrfs[i].name != info.vrf
      {
        if doomedVrfs[j].name == info.vrf {
          assert info.vrf in Names(doomedVrfs);
          return true;
        }
      }
    }

    /** deleteLayer2: what stays is configured and in no VRF that is about to go. */
    method DeleteLayer2(cfg: Config, cfg2: Config2) returns (ok: bool)
      requires nl.toolkit.Valid()
      modifies nl.toolkit
      ensures nl.toolkit.Valid() && nl.toolkit.next == old(nl.toolkit.next) && nl.toolkit.log == old(nl.toolkit.log)
      ensures nl.toolkit.links.Keys <= old(nl.toolkit.links).Keys
      ensures ok ==> L2Pruned(nl.base, cfg, cfg2, old(nl.toolkit.links), nl.toolkit.links)
    {
      hide Describes;
      hide Deleting;
      hide L2Pruned;
      ghost var t := nl.toolkit.links;
      var existing: seq<Layer2Information>;
      ok, existing := nl.ListL2();
      if !ok {
        return;
      }
      var vrfs: seq<VRFInformation>;
      ok, vrfs := GetVRFsToDelete(cfg);
      if !ok {
        return;
      }
      DeletingStart(cfg2, Names(vrfs), existing, t);
      for i := 0 to |existing|
        invariant nl.toolkit.Valid() && nl.toolkit.next == old(nl.toolkit.next) && nl.toolkit.log == old(nl.toolkit.log)
        invariant nl.toolkit.links.Keys <= t.Keys
        invariant Deleting(cfg2, Names(vrfs), existing, i, t, nl.toolkit.links)
        invariant ReservedAreVrfs(nl.base, t) ==> ReservedAreVrfs(nl.base, nl.toolkit.links)
      {
        ghost var u := nl.toolkit.links;
        var delete := NetMustGo(cfg2, vrfs, existing[i]);
        if delete {
          DeletingDescribes(cfg2, Names(vrfs), existing, i, t, u);
          DeletingDrop(cfg2, Names(vrfs), existing, i, t, u, nl.toolkit.next);
          ghost var gone;
          ok, gone := nl.CleanupL2(existing[i]);
          if !ok {
            return;
          }
          if ReservedAreVrfs(nl.base, u) {
            RemoveKeepsReserved(nl.base, u, gone);
          }
        } else {
          DeletingKeep(cfg2, Names(vrfs), existing, i, t, u);
        }
      }
      DeletedL2(nl.base, cfg, cfg2, t, nl.toolkit.links, existing, vrfs);
      return true;
    }

    /** The inner loop of createLayer2: the first listed network of the VLAN. */
    static method FindNet(existing: seq<Layer2Information>, vlanID: int) returns (r: Option<Layer2Information>)
      ensures r.Some? ==> r.value in existing && r.value.vlanID == vlanID
      ensures r.None? ==> forall e :: e in existing ==> e.vlanID != vlanID
    {
      for j := 0 to |existing|
        invariant forall k :: 0 <= k < j ==> existing[k].vlanID != vlanID
      {
        if existing[j].vlanID == vlanID {
          return Some(existing[j]);
        }
      }
      return None;
    }

    /** One round of createLayer2. */
    method EnsureNet(ghost t: Table, cfg: Config2, i: nat, existing: seq<Layer2Information>) returns (ok: bool)
      requires nl.toolkit.Valid() && i < |cfg| && ListsL2(t, existing)
      requires NetsPresent(t, nl.toolkit.links, existing)
      requires L2Assumptions(nl.base, cfg, t) ==> BuildingSafely(nl.base, cfg, existing, i, t, nl.toolkit.links)
      modifies nl.toolkit
      ensures nl.toolkit.Valid() && Calm(old(nl.toolkit.log), nl.toolkit.log)
      ensures ok ==> NetsPresent(t, nl.toolkit.links, existing)
      ensures ok && L2Assumptions(nl.base, cfg, t) ==> BuildingSafely(nl.base, cfg, existing, i + 1, t, nl.toolkit.links)
    {
      hide Describes;
      hide ListsL2;
      hide Building;
      hide SameL3;
      hide SameNet;
      hide CanonicalNames;
      hide NetPresent;
      hide ReservedAreVrfs;
      ghost var u, n := nl.toolkit.links, nl.toolkit.next;
      var current := FindNet(existing, cfg[i].vlanID);
      if current.None? {
        ghost var master;
        ok, master := nl.CreateL2(cfg[i]);
        if ok {
          CreatedNet(nl.base, cfg, existing, i, t, u, n, master);
        }
      } else {
        ok := nl.ReconcileL2(current.value, cfg[i]);
        if ok {
          UpdatedNet(nl.base, cfg, existing, i, t, u, nl.toolkit.links, n, current.value);
        }
      }
    }

    /** createLayer2: every entry is created or brought up to date, in order. */
    method CreateLayer2(cfg: Config2) returns (ok: bool)
      requires nl.toolkit.Valid()
      modifies nl.toolkit
      ensures nl.toolkit.Valid() && Calm(old(nl.toolkit.log), nl.toolkit.log)
      ensures ok ==> SameL3(old(nl.toolkit.links), nl.toolkit.links)
      ensures ok && L2Assumptions(nl.base, cfg, old(nl.toolkit.links)) && OnlyWanted(cfg, old(nl.toolkit.links)) ==>
                L2Converged(cfg, nl.toolkit.links)
    {
      hide Describes;
      hide ListsL2;
      hide BuildingSafely;
      hide SameL3;
      hide NetsPresent;
      hide L2Assumptions;
      ghost var t := nl.toolkit.links;
      var existing: seq<Layer2Information>;
      ok, existing := nl.ListL2();
      if !ok {
        return;
      }
      StartNets(nl.base, cfg, existing, t);
      for i := 0 to |cfg|
        invariant nl.toolkit.Valid() && Calm(old(nl.toolkit.log), nl.toolkit.log)
        invariant NetsPresent(t, nl.toolkit.links, existing)
        invariant L2Assumptions(nl.base, cfg, t) ==> BuildingSafely(nl.base, cfg, existing, i, t, nl.toolkit.links)
      {
        ok := EnsureNet(t, cfg, i, existing);
        if !ok {
          return;
        }
      }
      EndNets(nl.base, cfg, existing, t, nl.toolkit.links);
      return true;
    }

    // ---- The whole sequence ----

    /**
     reconcileNetlink. On every exit, ports created in the run came up only after a later reload, those of a
     run without a successful reload are down, and VRFs were deleted only when no l2.* bridge was enslaved to them. On success both layers are as
     configured, and the configured ports are up if those of the surviving VRFs were.
     */
    method ReconcileNetlink(cfg: Config, cfg2: Config2) returns (ok: bool)
      requires nl.toolkit.Valid()
      modifies nl.toolkit
      ensures nl.toolkit.Valid()
      ensures InOrder(old(nl.toolkit.log), nl.toolkit.log)
      ensures FrrReloaded !in nl.toolkit.log[|old(nl.toolkit.log)|..] ==> NewPortsDown(old(nl.toolkit.links), nl.toolkit.links)
      ensures ok && NoneReserved(nl.base, cfg) && DistinctNames(cfg) ==> Converged(nl.base, cfg, nl.toolkit.links)
      ensures ok && NoneReserved(nl.base, cfg) && SurvivorsUp(nl.base, cfg, old(nl.toolkit.links)) ==>
                ConfiguredUp(nl.base, cfg, nl.toolkit.links)
      ensures ok && L2Assumptions(nl.base, cfg2, old(nl.toolkit.links)) ==> L2Converged(cfg2, nl.toolkit.links)
    {
      hide L2Pruned;
      hide QuietPhase;
      hide Calm;
      hide InOrder;
      hide Converged;
      hide Progress;
      hide KeepsLayer2;
      hide SameL3;
      hide L2Assumptions;
      hide OnlyWanted;
      hide SurvivorsUp;
      hide ConfiguredUp;
      ghost var log0, t0 := nl.toolkit.log, nl.toolkit.links;
      NothingLogged(log0);
      ok := DeleteLayer2(cfg, cfg2);
      if !ok {
        return;
      }
      ghost var t1 := nl.toolkit.links;
      L2PrunedIsBare(nl.base, cfg, cfg2, t0, t1);
      var created;
      ok, created := ReconcileLayer3(cfg);
      ghost var t2, log2 := nl.toolkit.links, nl.toolkit.log;
      QuietIsInOrder(t1, Doomed(nl.base, cfg, t1), log0, log2);
      if !ok {
        return;
      }
      ok := nl.toolkit.ReloadFrr();
      if !ok {
        return;
      }
      ReloadedInOrder(t1, Doomed(nl.base, cfg, t1), log0, log2, nl.toolkit.log, nl.toolkit.log);
      ghost var up;
      ok, up := UpNewVRFs(created);
      ghost var t3, log4 := nl.toolkit.links, nl.toolkit.log;
      ReloadedInOrder(t1, Doomed(nl.base, cfg, t1), log0, log2, log4, log4);
      if !ok {
        return;
      }
      ok := CreateLayer2(cfg2);
      ReloadedInOrder(t1, Doomed(nl.base, cfg, t1), log0, log2, log4, nl.toolkit.log);
      if ok {
        AllUp(nl.base, cfg, t0, t1, t2, nl.toolkit.links, created, up, cfg2);
        StillConverged(nl.base, cfg, t2, nl.toolkit.links, up);
        L2Ready(nl.base, cfg, cfg2, t0, t1, t2, up);
      }
    }

    /** The inner loop of createVRFs. */
    static method AlreadyExists(existing: seq<VRFInformation>, c: VRFInformation) returns (r: bool)
      ensures r <==> exists k :: 0 <= k < |existing| && Matches(c, existing[k])
    {
      for j := 0 to |existing|
        invariant forall k :: 0 <= k < j ==> !Matches(c, existing[k])
      {
        if existing[j].name == c.name && (c.localOnly || (existing[j].vni == c.vni && !existing[j].markForDelete)) {
          return true;
        }
      }
      return false;
    }
  }

  /** No l2.* bridge is enslaved to any of the VRFs. */
  ghost predicate Bare(t: Table, vs: set<int>) {
    forall v :: v in vs ==> EnslavedL2(t, v) == {}
  }

  /** The log grew by deletions of these VRFs, and nothing new was enslaved to them in between. */
  ghost predicate Deletions(t: Table, vs: set<int>, log: seq<Event>, log': seq<Event>) {
    && log <= log'
    && forall k :: |log| <= k < |log'| ==>
         log'[k].VrfDeleted? && log'[k].index in vs && log'[k].enslavedL2 <= EnslavedL2(t, log'[k].index)
  }

  lemma DeletionsTransitive(t: Table, vs: set<int>, v: int, log0: seq<Event>, log1: seq<Event>, log2: seq<Event>)
    requires Deletions(t, vs, log0, log1) && Deletions(t, {v}, log1, log2) && v in vs
    ensures Deletions(t, vs, log0, log2)
  {
  }

  lemma EnslavedShrinks(t: Table, ds: set<int>, v: int)
    requires v != 0
    ensures EnslavedL2(RemoveAll(t, ds), v) <= EnslavedL2(t, v)
  {
  }

  ghost function Ids(infos: seq<VRFInformation>): set<int> {
    set info | info in infos :: info.vrfID
  }

  lemma IdsStep(infos: seq<VRFInformation>, i: nat)
    requires i < |infos| && forall j, k :: 0 <= j < k < |infos| ==> infos[j].vrfID < infos[k].vrfID
    ensures Ids(infos[..i + 1]) == Ids(infos[..i]) + {infos[i].vrfID} <= Ids(infos)
    ensures infos[i].vrfID !in Ids(infos[..i])
  {
    assert infos[..i + 1] == infos[..i] + [infos[i]];
    forall v | v in Ids(infos[..i]) ensures v in Ids(infos) && v < infos[i].vrfID {
      var k :| 0 <= k < i && infos[k].vrfID == v;
      assert infos[k] in infos;
    }
  }

  lemma DoomedIds(base: Base, cfg: Config, t: Table, existing: seq<VRFInformation>, doomed: seq<VRFInformation>)
    requires Lists(base, t, existing)
    requires forall info :: info in doomed <==> info in existing && ToDelete(cfg, info)
    ensures Ids(doomed) == Doomed(base, cfg, t)
    ensures forall info :: info in doomed ==> IsVrf(t, info.vrfID) && info == InfoOf(t, info.vrfID)
  {
    forall info | info in doomed
      ensures info.vrfID in Doomed(base, cfg, t) && info == InfoOf(t, info.vrfID)
    {
      var k :| 0 <= k < |existing| && existing[k] == info;
    }
    forall v | v in Doomed(base, cfg, t) ensures v in Ids(doomed) {
      assert InfoOf(t, v) in existing;
      assert InfoOf(t, v) in doomed;
    }
  }

  /** Layer 2 and the reserved names are as they were. */
  ghost predicate KeepsLayer2(base: Base, t: Table, u: Table) {
    && SameL2(t, u)
    && (WellNamed(base) && ReservedAreVrfs(base, t) ==> ReservedAreVrfs(base, u))
  }

  lemma KeepsLayer2Step(base: Base, t: Table, u: Table, w: Table, n: int, c: VRFInformation)
    requires KeepsLayer2(base, t, u) && WellFormed(u, n)
    requires w == u || exists table :: w == WithVrf(u, n, c, table)
    ensures KeepsLayer2(base, t, w)
  {
    if w != u {
      var table :| w == WithVrf(u, n, c, table);
      CreateVrfKeepsL2(u, n, c, table);
      SameL2Transitive(t, u, w);
      if WellNamed(base) && ReservedAreVrfs(base, t) {
        WithVrfKeepsReserved(base, u, n, c, table);
      }
    }
  }

  ghost predicate Progress(base: Base, cfg: Config, k: nat, t: Table, u: Table, created: seq<VRFInformation>)
    requires k <= |cfg|
  {
    Creating(base, cfg, k, t, u) && PortsKnown(base, cfg, k, t, u, created)
  }

  /** Before anything is created. */
  lemma StartVRFs(base: Base, cfg: Config, t: Table)
    ensures Progress(base, cfg, 0, t, t, []) && KeepsLayer2(base, t, t)
  {
  }

  lemma ProgressStep(base: Base, cfg: Config, k: nat, t: Table, u: Table, w: Table, n: int,
                     created: seq<VRFInformation>, added: bool)
    requires k < |cfg| && NoneReserved(base, cfg) && Progress(base, cfg, k, t, u, created) && WellFormed(u, n)
    requires added <==> !Provided(base, t, cfg[k])
    requires if added then exists table :: w == WithVrf(u, n, cfg[k], table) else w == u
    ensures Progress(base, cfg, k + 1, t, w, if added then created + [cfg[k]] else created)
  {
    assert cfg[k] in cfg;
    assert !base.Reserved(cfg[k].name);
    hide NoneReserved;
    hide WellFormed;
    hide Listed;
    hide Creating;
    hide PortsKnown;
    hide WithVrf;
    hide InfoOf;
    hide Matches;
    if added {
      var table :| w == WithVrf(u, n, cfg[k], table);
      CreatingStep(base, cfg, k, t, u, n, table);
      PortsKnownStep(base, cfg, k, t, u, n, table, created);
    } else {
      var v :| Listed(base, t, v) && Matches(cfg[k], InfoOf(t, v));
      CreatingSkip(base, cfg, k, t, u, v);
    }
  }

  lemma ProvidedIsListed(base: Base, t: Table, existing: seq<VRFInformation>, c: VRFInformation)
    requires Lists(base, t, existing)
    ensures Provided(base, t, c) <==> exists k :: 0 <= k < |existing| && Matches(c, existing[k])
  {
    if Provided(base, t, c) {
      var v :| Listed(base, t, v) && Matches(c, InfoOf(t, v));
      assert InfoOf(t, v) in existing;
    }
    if k :| 0 <= k < |existing| && Matches(c, existing[k]) {
      assert Listed(base, t, existing[k].vrfID);
    }
  }

  /** The table after the delete phase. */
  ghost function Pruning(base: Base, cfg: Config, t: Table): Table {
    RemoveAll(t, Families(t, Doomed(base, cfg, t)))
  }

  /** What the log may gain before the reload: no port comes up, and a VRF is deleted only if bare. */
  ghost predicate QuietPhase(t: Table, vs: set<int>, log: seq<Event>, log': seq<Event>) {
    && log <= log'
    && NoPortUp(log'[|log|..])
    && (Bare(t, vs) ==> VrfsDeletedBare(log'[|log|..]))
  }

  lemma DeletionsAreQuiet(t: Table, vs: set<int>, log0: seq<Event>, log1: seq<Event>, log2: seq<Event>, lo: int, hi: int)
    requires Deletions(t, vs, log0, log1) && (log1 == log2 || QuietGrowth(log1, log2, lo, hi))
    ensures QuietPhase(t, vs, log0, log2)
  {
    var a, b := log1[|log0|..], log2[|log1|..];
    assert log2[|log0|..] == a + b;
    forall k | 0 <= k < |a| ensures a[k].VrfDeleted? && (Bare(t, vs) ==> a[k].enslavedL2 == {}) {
      assert a[k] == log1[|log0| + k];
    }
  }

  lemma NothingDoomed(base: Base, cfg: Config, t: Table, doomed: seq<VRFInformation>)
    requires Ids(doomed) == Doomed(base, cfg, t)
    ensures Converged(base, cfg, t) ==> doomed == []
  {
    if doomed != [] {
      assert doomed[0].vrfID in Ids(doomed);
    }
  }

  lemma DeletedKeepsLayer2(base: Base, cfg: Config, t: Table, next: int)
    requires WellFormed(t, next)
    ensures Bare(t, Doomed(base, cfg, t)) ==> KeepsLayer2(base, t, Pruning(base, cfg, t))
  {
    var vs := Doomed(base, cfg, t);
    if Bare(t, vs) {
      forall b | IsL2Bridge(t, b) ensures t[b].master !in vs {
        assert t[b].master in vs ==> b in EnslavedL2(t, t[b].master);
      }
      DeleteVrfsKeepsL2(t, next, vs);
      if ReservedAreVrfs(base, t) {
        RemoveKeepsReserved(base, t, Families(t, vs));
      }
    }
  }

  lemma Layer3Done(base: Base, cfg: Config, t: Table, u: Table, created: seq<VRFInformation>)
    requires Pruned(base, cfg, Pruning(base, cfg, t))
    requires NoneReserved(base, cfg) ==> Progress(base, cfg, |cfg|, Pruning(base, cfg, t), u, created)
    requires KeepsLayer2(base, Pruning(base, cfg, t), u)
    requires Bare(t, Doomed(base, cfg, t)) ==> KeepsLayer2(base, t, Pruning(base, cfg, t))
    ensures NoneReserved(base, cfg) && DistinctNames(cfg) ==> Converged(base, cfg, u)
    ensures Bare(t, Doomed(base, cfg, t)) ==> KeepsLayer2(base, t, u)
  {
    if NoneReserved(base, cfg) && DistinctNames(cfg) {
      CreatingDone(base, cfg, Pruning(base, cfg, t), u);
    }
    if Bare(t, Doomed(base, cfg, t)) {
      SameL2Transitive(t, Pruning(base, cfg, t), u);
    }
  }

  function Names(infos: seq<VRFInformation>): set<string> {
    set info | info in infos :: info.name
  }

  ghost function DoomedNames(base: Base, cfg: Config, t: Table): set<string> {
    set v | v in Doomed(base, cfg, t) :: t[v].name
  }

  /** The table after deleteLayer2. */
  ghost predicate L2Pruned(base: Base, cfg: Config, cfg2: Config2, t: Table, u: Table) {
    && SameL3(t, u)
    && Bare(u, Doomed(base, cfg, u))
    && (forall b :: IsL2Bridge(u, b) ==> IsL2Bridge(t, b) && SameNet(t, u, b))
    && (forall b :: IsL2Bridge(u, b) ==> exists id :: Atoi(u[b].name[3..]) == Some(id) && Wanted(cfg2, id))
    && (forall b, id :: IsL2Bridge(t, b) && Atoi(t[b].name[3..]) == Some(id) && Wanted(cfg2, id) ==>
          VrfNameOf(t, b) in DoomedNames(base, cfg, t) || IsL2Bridge(u, b))
    && (ReservedAreVrfs(base, t) ==> ReservedAreVrfs(base, u))
  }

  lemma SameL3SameDoomed(base: Base, cfg: Config, t: Table, u: Table)
    requires SameL3(t, u)
    ensures Doomed(base, cfg, t) == Doomed(base, cfg, u)
  {
    forall v | IsVrf(t, v) || IsVrf(u, v)
      ensures IsVrf(t, v) && IsVrf(u, v) && t[v] == u[v] && InfoOf(t, v) == InfoOf(u, v)
    {
      assert L3Relevant(t, v) || L3Relevant(u, v);
      SameL3SamePorts(t, u, v);
      SameVrfSameInfo(t, u, v);
    }
  }

  lemma DeletedL2(base: Base, cfg: Config, cfg2: Config2, t: Table, u: Table,
                  existing: seq<Layer2Information>, vrfs: seq<VRFInformation>)
    requires ListsL2(t, existing) && Deleting(cfg2, Names(vrfs), existing, |existing|, t, u)
    requires Ids(vrfs) == Doomed(base, cfg, t)
    requires forall k :: 0 <= k < |vrfs| ==> IsVrf(t, vrfs[k].vrfID) && vrfs[k] == InfoOf(t, vrfs[k].vrfID)
    requires ReservedAreVrfs(base, t) ==> ReservedAreVrfs(base, u)
    ensures L2Pruned(base, cfg, cfg2, t, u)
  {
    hide Describes;
    hide SameNet;
    hide Bare;
    hide SameL3;
    hide Wanted;
    forall b | IsL2Bridge(u, b)
      ensures VrfNameOf(u, b) !in Names(vrfs)
      ensures exists id :: Atoi(u[b].name[3..]) == Some(id) && Wanted(cfg2, id)
    {
      KeptNet(cfg2, Names(vrfs), existing, t, u, b);
    }
    forall b, id | IsL2Bridge(t, b) && Atoi(t[b].name[3..]) == Some(id) && Wanted(cfg2, id)
                   && VrfNameOf(t, b) !in DoomedNames(base, cfg, t)
      ensures IsL2Bridge(u, b)
    {
      NamesOfDoomed(base, cfg, t, vrfs);
      WantedNetStays(cfg2, Names(vrfs), existing, t, u, b, id);
    }
    VacatedVrfsAreBare(base, cfg, t, u, vrfs);
  }

  lemma NamesOfDoomed(base: Base, cfg: Config, t: Table, vrfs: seq<VRFInformation>)
    requires Ids(vrfs) == Doomed(base, cfg, t)
    requires forall k :: 0 <= k < |vrfs| ==> IsVrf(t, vrfs[k].vrfID) && vrfs[k] == InfoOf(t, vrfs[k].vrfID)
    ensures Names(vrfs) <= DoomedNames(base, cfg, t)
  {
    forall name | name in Names(vrfs) ensures name in DoomedNames(base, cfg, t) {
      var info :| info in vrfs && info.name == name;
      assert info.vrfID in Ids(vrfs);
      assert t[info.vrfID].name == name;
    }
  }

  lemma WantedNetStays(cfg2: Config2, doomed: set<string>, existing: seq<Layer2Information>, t: Table, u: Table, b: int, id: int)
    requires ListsL2(t, existing) && Deleting(cfg2, doomed, existing, |existing|, t, u)
    requires IsL2Bridge(t, b) && Atoi(t[b].name[3..]) == Some(id) && Wanted(cfg2, id) && VrfNameOf(t, b) !in doomed
    ensures IsL2Bridge(u, b)
  {
    hide Wanted;
    var k :| 0 <= k < |existing| && existing[k].bridge == b;
    assert Describes(t, existing[k]);
  }

  lemma VacatedVrfsAreBare(base: Base, cfg: Config, t: Table, u: Table, vrfs: seq<VRFInformation>)
    requires SameL3(t, u) && Ids(vrfs) == Doomed(base, cfg, t)
    requires forall k :: 0 <= k < |vrfs| ==> IsVrf(t, vrfs[k].vrfID) && vrfs[k] == InfoOf(t, vrfs[k].vrfID)
    requires forall b :: IsL2Bridge(u, b) ==> VrfNameOf(u, b) !in Names(vrfs)
    ensures Bare(u, Doomed(base, cfg, u))
  {
    SameL3SameDoomed(base, cfg, t, u);
    forall v | v in Doomed(base, cfg, u) ensures EnslavedL2(u, v) == {} {
      var info :| info in vrfs && info.vrfID == v;
      assert L3Relevant(t, v);
      assert info.name in Names(vrfs);
      assert forall b :: b in EnslavedL2(u, v) ==> VrfNameOf(u, b) == info.name;
    }
  }

  lemma KeptNet(cfg2: Config2, doomed: set<string>, existing: seq<Layer2Information>, t: Table, u: Table, b: int)
    requires ListsL2(t, existing) && Deleting(cfg2, doomed, existing, |existing|, t, u) && IsL2Bridge(u, b)
    ensures VrfNameOf(u, b) !in doomed
    ensures exists id :: Atoi(u[b].name[3..]) == Some(id) && Wanted(cfg2, id)
  {
    assert IsL2Bridge(t, b);
    var k :| 0 <= k < |existing| && existing[k].bridge == b;
    assert Describes(t, existing[k]);
    assert Atoi(u[b].name[3..]) == Some(existing[k].vlanID);
  }

  // ---- The create loop of layer 2 ----

  /** What the layer-2 result needs: distinct VLANs, and names as the agent gives them. */
  ghost predicate L2Assumptions(base: Base, cfg: Config2, t: Table) {
    DistinctVlans(cfg) && CanonicalNames(t) && WellNamed(base) && ReservedAreVrfs(base, t)
  }

  /** Every network of the table is configured. */
  ghost predicate OnlyWanted(cfg: Config2, t: Table) {
    forall b :: IsL2Bridge(t, b) ==> exists id :: Atoi(t[b].name[3..]) == Some(id) && Wanted(cfg, id)
  }

  ghost predicate NetsPresent(t: Table, u: Table, existing: seq<Layer2Information>) {
    SameL3(t, u) && forall e :: e in existing ==> NetPresent(u, e)
  }

  ghost predicate BuildingSafely(base: Base, cfg: Config2, existing: seq<Layer2Information>, k: nat, t: Table, u: Table)
    requires k <= |cfg|
  {
    Building(cfg, existing, k, t, u) && ReservedAreVrfs(base, u)
  }

  lemma StartNets(base: Base, cfg: Config2, existing: seq<Layer2Information>, t: Table)
    requires ListsL2(t, existing)
    ensures NetsPresent(t, t, existing)
    ensures L2Assumptions(base, cfg, t) ==> BuildingSafely(base, cfg, existing, 0, t, t)
  {
    BuildingStart(cfg, existing, t);
    forall e | e in existing ensures NetPresent(t, e) {
      assert Describes(t, e);
      DescribedIsPresent(t, e);
    }
  }

  lemma EndNets(base: Base, cfg: Config2, existing: seq<Layer2Information>, t: Table, u: Table)
    requires ListsL2(t, existing) && NetsPresent(t, u, existing) && UniqueNames(u)
    requires L2Assumptions(base, cfg, t) ==> BuildingSafely(base, cfg, existing, |cfg|, t, u)
    ensures SameL3(t, u)
    ensures L2Assumptions(base, cfg, t) && OnlyWanted(cfg, t) ==> L2Converged(cfg, u)
  {
    if L2Assumptions(base, cfg, t) && OnlyWanted(cfg, t) {
      forall e | e in existing ensures Wanted(cfg, e.vlanID) {
        assert Describes(t, e);
        var id :| Atoi(t[e.bridge].name[3..]) == Some(id) && Wanted(cfg, id);
      }
      BuildingDone(cfg, existing, t, u);
    }
  }

  lemma CreatedNet(base: Base, cfg: Config2, existing: seq<Layer2Information>, i: nat, t: Table, u: Table, n: int, master: int)
    requires i < |cfg| && ListsL2(t, existing) && WellFormed(u, n) && NetsPresent(t, u, existing)
    requires AttachedTo(base, u, master, cfg[i].vrf)
    requires L2Assumptions(base, cfg, t) ==> BuildingSafely(base, cfg, existing, i, t, u)
    ensures NetsPresent(t, WithNet(u, n, cfg[i], master), existing)
    ensures L2Assumptions(base, cfg, t) ==> BuildingSafely(base, cfg, existing, i + 1, t, WithNet(u, n, cfg[i], master))
  {
    hide Describes;
    hide ListsL2;
    hide Building;
    hide SameL3;
    hide SameNet;
    hide CanonicalNames;
    hide NetPresent;
    var w := WithNet(u, n, cfg[i], master);
    CreateNetFrame(u, n, cfg[i], master);
    SameL3Transitive(t, u, w);
    if L2Assumptions(base, cfg, t) {
      assert VrfNameOf(w, n) == cfg[i].vrf;
      assert SetOf(cfg[i].gateways) == w[n].addrs;
      assert Realizes(w, n, cfg[i]);
      BuildingStep(cfg, existing, i, t, u, w, n);
      WithNetKeepsReserved(base, u, n, cfg[i], master);
    }
  }

  lemma UpdatedNet(base: Base, cfg: Config2, existing: seq<Layer2Information>, i: nat, t: Table, u: Table, w: Table,
                   next: int, e: Layer2Information)
    requires i < |cfg| && ListsL2(t, existing) && WellFormed(u, next) && NetsPresent(t, u, existing)
    requires e in existing && e.vlanID == cfg[i].vlanID && e.vxlan.Some? && e.vlanInterface.Some?
    requires NetUpdated(u, w, e.bridge, e.vxlan.value, e.vlanInterface.value) && w[e.bridge].mtu == cfg[i].mtu
    requires Describes(u, e) ==>
               && w[e.bridge].addrs == SetOf(cfg[i].gateways)
               && (ReservedAreVrfs(base, u) ==> VrfNameOf(w, e.bridge) == cfg[i].vrf)
    requires L2Assumptions(base, cfg, t) ==> BuildingSafely(base, cfg, existing, i, t, u)
    ensures NetsPresent(t, w, existing)
    ensures L2Assumptions(base, cfg, t) ==> BuildingSafely(base, cfg, existing, i + 1, t, w)
  {
    hide Describes;
    hide ListsL2;
    hide Building;
    hide SameL3;
    hide SameNet;
    hide CanonicalNames;
    ReconcileFrame(u, w, next, e);
    SameL3Transitive(t, u, w);
    if L2Assumptions(base, cfg, t) {
      BuildingDescribes(cfg, existing, i, t, u, e);
      ListedName(t, existing, e);
      BuildingKeepsName(cfg, existing, i, t, u, e.bridge);
      assert Realizes(w, e.bridge, cfg[i]);
      BuildingStep(cfg, existing, i, t, u, w, e.bridge);
      UpdateKeepsReserved(base, u, w, e.bridge, e.vxlan.value, e.vlanInterface.value);
    }
  }

  lemma BuildingKeepsName(cfg: Config2, existing: seq<Layer2Information>, k: nat, t: Table, u: Table, b: int)
    requires k <= |cfg| && Building(cfg, existing, k, t, u) && IsL2Bridge(t, b)
    ensures IsL2Bridge(u, b) && u[b].name == t[b].name
  {
  }

  lemma UpdateKeepsReserved(base: Base, t: Table, u: Table, b: int, x: int, v: int)
    requires NetUpdated(t, u, b, x, v) && ReservedAreVrfs(base, t)
    ensures ReservedAreVrfs(base, u)
  {
  }

  // ---- Putting the phases together ----

  /** What every exit of a run guarantees about the run's events. */
  ghost predicate InOrder(log: seq<Event>, log': seq<Event>) {
    log <= log' && UpAfterReload(log'[|log|..]) && VrfsDeletedBare(log'[|log|..])
  }

  lemma NothingLogged(log: seq<Event>)
    ensures InOrder(log, log)
  {
  }

  lemma L2PrunedIsBare(base: Base, cfg: Config, cfg2: Config2, t: Table, u: Table)
    requires L2Pruned(base, cfg, cfg2, t, u)
    ensures SameL3(t, u) && Bare(u, Doomed(base, cfg, u))
  {
  }

  lemma QuietIsInOrder(t: Table, vs: set<int>, log: seq<Event>, log': seq<Event>)
    requires QuietPhase(t, vs, log, log') && Bare(t, vs)
    ensures InOrder(log, log')
  {
  }

  lemma ReloadedInOrder(t: Table, vs: set<int>, log0: seq<Event>, log1: seq<Event>, log2: seq<Event>, log3: seq<Event>)
    requires QuietPhase(t, vs, log0, log1) && Bare(t, vs)
    requires Calm(log1 + [FrrReloaded], log2) && Calm(log2, log3)
    ensures InOrder(log0, log3) && FrrReloaded in log3[|log0|..]
  {
    var a, b := log1[|log0|..], log3[|log1| + 1..];
    assert log3[|log0|..] == a + [FrrReloaded] + b;
    forall k | 0 <= k < |b| ensures !PortCreated(b[k]) && !b[k].VrfDeleted? {
      assert b[k] == log3[|log1| + 1 + k];
      assert |log1| + 1 + k < |log2| ==> log3[|log1| + 1 + k] == log2[|log1| + 1 + k];
    }
    ReloadBetween(a, b);
  }

  /** Bringing ports up and changing layer 2 leave the layer-3 listing alone. */
  lemma StillConverged(base: Base, cfg: Config, t: Table, u: Table, up: set<string>)
    requires SameL3(WithUp(t, up), u)
    ensures Converged(base, cfg, t) ==> Converged(base, cfg, u)
  {
    if Converged(base, cfg, t) {
      forall v | IsVrf(u, v) ensures IsVrf(t, v) && t[v].name == u[v].name {
        assert L3Relevant(u, v);
      }
      forall v | IsVrf(t, v) ensures IsVrf(u, v) && t[v].name == u[v].name && InfoOf(t, v) == InfoOf(u, v) {
        WithUpKeeps(t, up, v);
        SameVrfSameInfo(t, WithUp(t, up), v);
        SameL3SamePorts(WithUp(t, up), u, v);
        SameVrfSameInfo(WithUp(t, up), u, v);
      }
      forall c | c in cfg ensures Provided(base, u, c) {
        assert Provided(base, t, c);
        var v :| Listed(base, t, v) && Matches(c, InfoOf(t, v));
        assert Listed(base, u, v);
      }
    }
  }

  lemma AllUp(base: Base, cfg: Config, t0: Table, t1: Table, t2: Table, t4: Table,
              created: seq<VRFInformation>, up: set<string>, cfg2: Config2)
    requires L2Pruned(base, cfg, cfg2, t0, t1) && 0 !in t1
    requires NoneReserved(base, cfg) ==> Progress(base, cfg, |cfg|, Pruning(base, cfg, t1), t2, created)
    requires forall c :: c in created ==> PortNames(c) <= up
    requires SameL3(WithUp(t2, up), t4)
    ensures NoneReserved(base, cfg) && SurvivorsUp(base, cfg, t0) ==> ConfiguredUp(base, cfg, t4)
  {
    hide L2Pruned;
    hide PortsUp;
    hide SameL3;
    hide Pruning;
    hide Progress;
    hide SurvivorsUp;
    L2PrunedIsBare(base, cfg, cfg2, t0, t1);
    if NoneReserved(base, cfg) && SurvivorsUp(base, cfg, t0) {
      forall c | c in cfg && !c.localOnly
        ensures exists v :: Listed(base, t4, v) && t4[v].name == c.name && PortsUp(t4, v)
      {
        forall w | Listed(base, Pruning(base, cfg, t1), w) && Matches(c, InfoOf(Pruning(base, cfg, t1), w))
          ensures PortsUp(Pruning(base, cfg, t1), w)
        {
          SurvivorUp(base, cfg, t0, t1, c, w);
        }
        var v := UpInLayer3(base, cfg, Pruning(base, cfg, t1), t2, created, c, up);
        WithUpKeeps(t2, up, v);
        SameL3SamePorts(WithUp(t2, up), t4, v);
        SamePortsSameView(WithUp(t2, up), t4, v, c);
        assert Listed(base, t4, v) && t4[v].name == c.name;
      }
    }
  }

  lemma UpInLayer3(base: Base, cfg: Config, t: Table, u: Table, created: seq<VRFInformation>,
                   c: VRFInformation, up: set<string>) returns (v: int)
    requires c in cfg && !c.localOnly && Progress(base, cfg, |cfg|, t, u, created)
    requires forall w :: Listed(base, t, w) && Matches(c, InfoOf(t, w)) ==> PortsUp(t, w)
    requires c in created ==> PortNames(c) <= up
    ensures Listed(base, u, v) && u[v].name == c.name && PortsUp(WithUp(u, up), v)
  {
    hide PortsUp;
    hide Progress;
    hide HasPortsOf;
    v := PortsOf(base, cfg, t, u, created, c);
    WithUpKeeps(u, up, v);
  }

  lemma PortsOf(base: Base, cfg: Config, t: Table, u: Table, created: seq<VRFInformation>, c: VRFInformation)
    returns (v: int)
    requires c in cfg && !c.localOnly && Progress(base, cfg, |cfg|, t, u, created)
    requires forall w :: Listed(base, t, w) && Matches(c, InfoOf(t, w)) ==> PortsUp(t, w)
    ensures Listed(base, u, v) && u[v].name == c.name
    ensures PortsUp(u, v) || (HasPortsOf(u, v, c) && c in created)
  {
    hide PortsUp;
    hide SamePorts;
    var j :| 0 <= j < |cfg| && cfg[j] == c;
    if w :| Listed(base, t, w) && Matches(c, InfoOf(t, w)) {
      v := w;
      SamePortsSameView(t, u, w, c);
      assert InfoOf(u, w).name == u[w].name;
    } else {
      assert PortsKnown(base, cfg, |cfg|, t, u, created);
      assert MadeFor(base, u, c);
      v :| Listed(base, u, v) && HasPortsOf(u, v, c);
    }
  }

  /** A VRF that survives the delete phase keeps its ports' state. */
  lemma SurvivorUp(base: Base, cfg: Config, t0: Table, t1: Table, c: VRFInformation, w: int)
    requires SameL3(t0, t1) && 0 !in t1 && SurvivorsUp(base, cfg, t0) && c in cfg && !c.localOnly
    requires Listed(base, Pruning(base, cfg, t1), w) && Matches(c, InfoOf(Pruning(base, cfg, t1), w))
    ensures PortsUp(Pruning(base, cfg, t1), w)
  {
    hide PortsUp;
    hide SameL3;
    var t := Pruning(base, cfg, t1);
    assert IsVrf(t1, w) && Owner(t1, w) == w;
    FamiliesFrame(t1, Doomed(base, cfg, t1), w);
    SamePortsSameView(t1, t, w, c);
    SameL3Back(t0, t1, w);
    SameL3SamePorts(t0, t1, w);
    SamePortsSameView(t0, t1, w, c);
  }

  lemma SameL3Back(t: Table, u: Table, v: int)
    requires SameL3(t, u) && IsVrf(u, v)
    ensures IsVrf(t, v) && t[v] == u[v]
  {
    assert L3Relevant(u, v);
  }

  lemma L2Ready(base: Base, cfg: Config, cfg2: Config2, t0: Table, t1: Table, t2: Table, up: set<string>)
    requires L2Pruned(base, cfg, cfg2, t0, t1) && KeepsLayer2(base, t1, t2)
    ensures L2Assumptions(base, cfg2, t0) ==>
              L2Assumptions(base, cfg2, WithUp(t2, up)) && OnlyWanted(cfg2, WithUp(t2, up))
  {
    var t3 := WithUp(t2, up);
    forall b | IsL2Bridge(t3, b) ensures IsL2Bridge(t0, b) && t0[b].name == t3[b].name && IsL2Bridge(t1, b) && t1[b].name == t3[b].name {
      assert IsL2Bridge(t2, b);
      assert SameNet(t1, t2, b);
      assert SameNet(t0, t1, b);
    }
  }
}
