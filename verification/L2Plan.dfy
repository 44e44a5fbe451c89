/**
 Which layer-2 networks a configuration deletes, creates and updates (cmd/frr-cra/main.go,
 deleteLayer2 and createLayer2), and what it means for a link table to have reached it.
 */
module L2Plan {
  import opened Text
  import opened LinkTable
  import opened Layer3
  import opened Layer2

  predicate Wanted(cfg: Config2, vlanID: int) {
    exists j :: 0 <= j < |cfg| && cfg[j].vlanID == vlanID
  }

  predicate DistinctVlans(cfg: Config2) {
    forall i, j :: 0 <= i < j < |cfg| ==> cfg[i].vlanID != cfg[j].vlanID
  }

  /** deleteLayer2's verdict: not configured any more, or in a VRF that is about to be deleted. */
  predicate NetDoomed(cfg: Config2, doomedVrfs: set<string>, info: Layer2Information) {
    !Wanted(cfg, info.vlanID) || info.vrf in doomedVrfs
  }

  /** The networks of the table are exactly the configured ones, each as configured. */
  ghost predicate L2Converged(cfg: Config2, t: Table) {
    && (forall b :: IsL2Bridge(t, b) ==> exists j :: 0 <= j < |cfg| && Realizes(t, b, cfg[j]))
    && (forall j :: 0 <= j < |cfg| ==> Realized(t, cfg[j]))
  }

  ghost predicate Realized(t: Table, c: Layer2Information) {
    exists b :: Realizes(t, b, c)
  }

  /** Base names do not look like the names the agent gives to ports. */
  predicate WellNamed(base: Base) {
    !PortLike(base.clusterVRF) && !PortLike(base.managementVRF)
  }

  predicate PortLike(name: string) {
    BR <= name || VX <= name || L2 <= name || VLAN <= name
  }

  lemma RemoveKeepsReserved(base: Base, t: Table, ds: set<int>)
    requires ReservedAreVrfs(base, t)
    ensures ReservedAreVrfs(base, RemoveAll(t, ds))
  {
  }

  lemma WithVrfKeepsReserved(base: Base, t: Table, n: int, c: VRFInformation, table: int)
    requires ReservedAreVrfs(base, t) && WellNamed(base)
    ensures ReservedAreVrfs(base, WithVrf(t, n, c, table))
  {
    assert BR <= BridgeName(c.vni) && VX <= VxlanName(c.vni);
  }

  lemma WithNetKeepsReserved(base: Base, t: Table, n: int, c: Layer2Information, master: int)
    requires ReservedAreVrfs(base, t) && WellNamed(base)
    ensures ReservedAreVrfs(base, WithNet(t, n, c, master))
  {
    assert L2 <= L2Name(c.vlanID) && VX <= VxlanName(c.vni) && VLAN <= VlanName(c.vlanID);
  }

  // ---- The delete loop ----

  /** After k rounds: the first k networks are gone or kept by right, the others untouched. */
  ghost predicate Deleting(cfg: Config2, doomedVrfs: set<string>, existing: seq<Layer2Information>, k: nat, t: Table, u: Table)
    requires k <= |existing|
  {
    && SameL3(t, u)
    && (forall b :: IsL2Bridge(u, b) ==> IsL2Bridge(t, b) && SameNet(t, u, b))
    && (forall j :: k <= j < |existing| ==> IsL2Bridge(u, existing[j].bridge))
    && (forall j :: 0 <= j < k ==> (IsL2Bridge(u, existing[j].bridge) <==> !NetDoomed(cfg, doomedVrfs, existing[j])))
  }

  lemma DeletingStart(cfg: Config2, doomedVrfs: set<string>, existing: seq<Layer2Information>, t: Table)
    requires ListsL2(t, existing)
    ensures Deleting(cfg, doomedVrfs, existing, 0, t, t)
  {
    forall j | 0 <= j < |existing| ensures IsL2Bridge(t, existing[j].bridge) {
      assert Describes(t, existing[j]);
    }
  }

  lemma DeletingKeep(cfg: Config2, doomedVrfs: set<string>, existing: seq<Layer2Information>, k: nat, t: Table, u: Table)
    requires k < |existing| && Deleting(cfg, doomedVrfs, existing, k, t, u)
    requires !NetDoomed(cfg, doomedVrfs, existing[k])
    ensures Deleting(cfg, doomedVrfs, existing, k + 1, t, u)
  {
  }

  lemma DeletingDescribes(cfg: Config2, doomedVrfs: set<string>, existing: seq<Layer2Information>, k: nat, t: Table, u: Table)
    requires k < |existing| && ListsL2(t, existing) && Deleting(cfg, doomedVrfs, existing, k, t, u)
    ensures Describes(u, existing[k])
  {
    SameNetSameInfo(t, u, existing[k]);
  }

  lemma DeletingDrop(cfg: Config2, doomedVrfs: set<string>, existing: seq<Layer2Information>, k: nat, t: Table, u: Table, next: int)
    requires k < |existing| && ListsL2(t, existing) && Deleting(cfg, doomedVrfs, existing, k, t, u) && WellFormed(u, next)
    requires NetDoomed(cfg, doomedVrfs, existing[k])
    ensures Deleting(cfg, doomedVrfs, existing, k + 1, t, RemoveAll(u, NetLinks(existing[k])))
  {
    hide Describes;
    hide SameNet;
    hide SameL3;
    hide NetDoomed;
    var info := existing[k];
    var w := RemoveAll(u, NetLinks(info));
    DeletingDescribes(cfg, doomedVrfs, existing, k, t, u);
    NetLinksOfBridge(u, info);
    CleanupFrame(u, next, info.bridge, NetLinks(info));
    SameL3Transitive(t, u, w);
    forall b | IsL2Bridge(w, b) ensures IsL2Bridge(t, b) && SameNet(t, w, b) {
      assert b != info.bridge && IsL2Bridge(u, b);
      SameNetTransitive(t, u, w, b);
    }
    forall j | 0 <= j < |existing| && j != k && IsL2Bridge(u, existing[j].bridge) ensures IsL2Bridge(w, existing[j].bridge) {
      assert existing[j].bridge != info.bridge;
      SameNetBridge(u, w, existing[j].bridge);
    }
  }

  lemma SameNetBridge(t: Table, u: Table, b: int)
    requires SameNet(t, u, b)
    ensures IsL2Bridge(u, b) && u[b] == t[b]
  {
  }

  lemma NetLinksOfBridge(t: Table, info: Layer2Information)
    requires Describes(t, info)
    ensures IsL2Bridge(t, info.bridge)
    ensures forall d :: d in NetLinks(info) ==>
              d == info.bridge || (d in t && t[d].master == info.bridge && (t[d].kind.Vxlan? || t[d].kind.Vlan?))
  {
  }

  // ---- The create loop ----

  /** After k rounds: the first k entries are realized, the networks of the others untouched. */
  ghost predicate Building(cfg: Config2, existing: seq<Layer2Information>, k: nat, t: Table, u: Table)
    requires k <= |cfg|
  {
    && SameL3(t, u)
    && (forall b :: IsL2Bridge(t, b) ==> IsL2Bridge(u, b) && u[b].name == t[b].name)
    && (forall b :: IsL2Bridge(u, b) && !IsL2Bridge(t, b) ==> exists j :: 0 <= j < k && u[b].name == L2Name(cfg[j].vlanID))
    && (forall e :: e in existing && (forall j :: 0 <= j < k ==> cfg[j].vlanID != e.vlanID) ==> SameNet(t, u, e.bridge))
    && (forall j :: 0 <= j < k ==> Realized(u, cfg[j]))
  }

  lemma BuildingStart(cfg: Config2, existing: seq<Layer2Information>, t: Table)
    requires ListsL2(t, existing)
    ensures Building(cfg, existing, 0, t, t)
  {
    forall e | e in existing ensures SameNet(t, t, e.bridge) {
      assert Describes(t, e);
    }
  }

  lemma BuildingDescribes(cfg: Config2, existing: seq<Layer2Information>, k: nat, t: Table, u: Table, e: Layer2Information)
    requires k < |cfg| && DistinctVlans(cfg) && ListsL2(t, existing) && Building(cfg, existing, k, t, u)
    requires e in existing && e.vlanID == cfg[k].vlanID
    ensures Describes(u, e)
  {
    SameNetSameInfo(t, u, e);
  }

  /** A step that changes only the network called after cfg[k], and realizes it, advances the loop. */
  lemma BuildingStep(cfg: Config2, existing: seq<Layer2Information>, k: nat, t: Table, u: Table, w: Table, b: int)
    requires k < |cfg| && DistinctVlans(cfg) && ListsL2(t, existing) && CanonicalNames(t)
    requires Building(cfg, existing, k, t, u) && SameL3(u, w)
    requires Realizes(w, b, cfg[k])
    requires forall other :: IsL2Bridge(u, other) && other != b ==> SameNet(u, w, other)
    requires forall other :: IsL2Bridge(w, other) ==> other == b || IsL2Bridge(u, other)
    requires IsL2Bridge(u, b) ==> u[b].name == w[b].name
    ensures Building(cfg, existing, k + 1, t, w)
  {
    var own := L2Name(cfg[k].vlanID);
    hide Describes;
    hide SameNet;
    hide CanonicalNames;
    hide ListsL2;
    SameL3Transitive(t, u, w);
    forall x | IsL2Bridge(t, x) ensures IsL2Bridge(w, x) && w[x].name == t[x].name {
      if x != b { SameNetBridge(u, w, x); }
    }
    forall x | IsL2Bridge(w, x) && !IsL2Bridge(t, x) ensures exists j :: 0 <= j < k + 1 && w[x].name == L2Name(cfg[j].vlanID) {
      if x != b {
        SameNetBridge(u, w, x);
        var j :| 0 <= j < k && u[x].name == L2Name(cfg[j].vlanID);
        assert w[x].name == L2Name(cfg[j].vlanID);
      }
    }
    forall e | e in existing && (forall j :: 0 <= j < k + 1 ==> cfg[j].vlanID != e.vlanID) ensures SameNet(t, w, e.bridge) {
      ListedName(t, existing, e);
      SameNetBridge(t, u, e.bridge);
      if e.bridge == b {
        DistinctNets(e.vlanID, cfg[k].vlanID);
        assert false;
      }
      SameNetTransitive(t, u, w, e.bridge);
    }
    forall j | 0 <= j < k + 1 ensures Realized(w, cfg[j]) {
      if j < k {
        var x :| Realizes(u, x, cfg[j]);
        if x == b {
          DistinctNets(cfg[j].vlanID, cfg[k].vlanID);
          assert false;
        }
        RealizesKept(u, w, x, cfg[j]);
      }
    }
  }

  lemma DistinctNets(a: int, b: int)
    requires a != b
    ensures L2Name(a) != L2Name(b)
  {
    if L2Name(a) == L2Name(b) {
      assert L2Name(a)[3..] == Itoa(a) && L2Name(b)[3..] == Itoa(b);
      ItoaInjective(a, b);
    }
  }

  lemma RealizesKept(t: Table, u: Table, b: int, c: Layer2Information)
    requires Realizes(t, b, c) && SameNet(t, u, b)
    ensures Realizes(u, b, c)
  {
  }

  lemma ListedName(t: Table, existing: seq<Layer2Information>, e: Layer2Information)
    requires ListsL2(t, existing) && CanonicalNames(t) && e in existing
    ensures IsL2Bridge(t, e.bridge) && t[e.bridge].name == L2Name(e.vlanID)
  {
    assert Describes(t, e);
  }

  /** All entries done, and every network that was there is configured: the table has converged. */
  lemma BuildingDone(cfg: Config2, existing: seq<Layer2Information>, t: Table, u: Table)
    requires ListsL2(t, existing) && CanonicalNames(t) && UniqueNames(u)
    requires Building(cfg, existing, |cfg|, t, u)
    requires forall e :: e in existing ==> Wanted(cfg, e.vlanID)
    ensures L2Converged(cfg, u)
  {
    forall b | IsL2Bridge(u, b) ensures exists j :: 0 <= j < |cfg| && Realizes(u, b, cfg[j]) {
      var j: int;
      if IsL2Bridge(t, b) {
        var e :| e in existing && e.bridge == b;
        ListedName(t, existing, e);
        j :| 0 <= j < |cfg| && cfg[j].vlanID == e.vlanID;
      } else {
        j :| 0 <= j < |cfg| && u[b].name == L2Name(cfg[j].vlanID);
      }
      assert Realized(u, cfg[j]);
      var x :| Realizes(u, x, cfg[j]);
      assert x == b;
    }
  }
}
