/**
 VRFs and their L3VNI ports (pkg/nl/layer3.go, list.go, create.go).

 A VRF owns the br.* bridges enslaved to it and the vx.* VXLANs enslaved to those bridges.
 Nothing about a VRF is remembered between calls: ListL3 recovers it from master indices.
 */
module Layer3 {
  import opened Text
  import opened LinkTable
  import opened TableIds

  const MAX_VRF_NAME := 15

  /** One type for configured and for listed VRFs, as in the source. */
  datatype VRFInformation = VRFInformation(
    name: string, vni: int, localOnly: bool,
    table: int := 0, bridgeID: int := 0, vrfID: int := 0, markForDelete: bool := false)

  function BridgeName(vni: int): string { BR + Itoa(vni) }
  function VxlanName(vni: int): string { VX + Itoa(vni) }

  // ---- What a table says about a VRF ----

  function First(s: set<int>): (r: Option<int>)
    ensures r.None? <==> s == {}
    ensures r.Some? ==> r.value in s && forall x :: x in s ==> r.value <= x
  {
    var order := Ascending(s);
    if order == [] then
      assert s == {} by { if s != {} { var x := Inhabitant(s); } }
      None
    else
      assert order[0] in s;
      assert forall x :: x in s ==> exists k :: 0 <= k < |order| && order[k] == x;
      Some(order[0])
  }

  function Bridges(t: Table, v: int): set<int> {
    set b | b in t && IsL3Bridge(t, b) && t[b].master == v
  }

  function Vxlans(t: Table, b: int): set<int> {
    set x | x in t && IsVxlanPort(t, x, b)
  }

  predicate IsVrf(t: Table, v: int) {
    v in t && t[v].kind.Vrf?
  }

  predicate Listed(base: Base, t: Table, v: int) {
    IsVrf(t, v) && !base.Reserved(t[v].name)
  }

  /** What ListL3 reports for one VRF: its first bridge and that bridge's first VXLAN. */
  function InfoOf(t: Table, v: int): VRFInformation
    requires IsVrf(t, v)
  {
    var found := VRFInformation(t[v].name, 0, false, t[v].kind.table, 0, v, true);
    var b := First(Bridges(t, v));
    if b.None? then found
    else
      var x := First(Vxlans(t, b.value));
      if x.None? then found.(bridgeID := b.value)
      else found.(bridgeID := b.value, vni := t[x.value].kind.vni, markForDelete := false)
  }

  /** b is the first L3VNI bridge of the VRF in dump order. */
  predicate IsFirstBridge(t: Table, v: int, b: int) {
    && b in t && t[b].kind.Bridge? && BR <= t[b].name && t[b].master == v
    && forall a :: a in t && t[a].kind.Bridge? && BR <= t[a].name && t[a].master == v ==> b <= a
  }

  /** x is the first VXLAN on the bridge in dump order. */
  predicate IsFirstVxlan(t: Table, b: int, x: int) {
    && x in t && t[x].kind.Vxlan? && VX <= t[x].name && t[x].master == b
    && forall a :: a in t && t[a].kind.Vxlan? && VX <= t[a].name && t[a].master == b ==> x <= a
  }

  /** The description of a VRF in the terms of its links. */
  lemma InfoSays(t: Table, v: int)
    requires IsVrf(t, v)
    ensures var info := InfoOf(t, v);
            && info.name == t[v].name && info.table == t[v].kind.table && info.vrfID == v && !info.localOnly
            && (forall b, x :: IsFirstBridge(t, v, b) && IsFirstVxlan(t, b, x) ==>
                  info.bridgeID == b && info.vni == t[x].kind.vni && !info.markForDelete)
            && (forall b :: IsFirstBridge(t, v, b) && (forall x :: !IsFirstVxlan(t, b, x)) ==>
                  info.bridgeID == b && info.markForDelete)
            && ((forall b :: !IsFirstBridge(t, v, b)) ==> info.bridgeID == 0 && info.markForDelete)
  {
    var bridges := Bridges(t, v);
    forall b ensures IsFirstBridge(t, v, b) <==> First(bridges) == Some(b) {
      FirstIs(bridges, b);
      assert forall a :: a in bridges <==> a in t && t[a].kind.Bridge? && BR <= t[a].name && t[a].master == v;
    }
    forall b, x ensures IsFirstVxlan(t, b, x) <==> First(Vxlans(t, b)) == Some(x) {
      FirstIs(Vxlans(t, b), x);
      assert forall a :: a in Vxlans(t, b) <==> a in t && t[a].kind.Vxlan? && VX <= t[a].name && t[a].master == b;
    }
    hide First;
    hide Bridges;
    hide Vxlans;
    hide IsFirstBridge;
    hide IsFirstVxlan;
    if First(bridges).Some? {
      assert IsFirstBridge(t, v, First(bridges).value);
      if First(Vxlans(t, First(bridges).value)).Some? {
        assert IsFirstVxlan(t, First(bridges).value, First(Vxlans(t, First(bridges).value)).value);
      }
    }
  }

  lemma FirstIs(s: set<int>, m: int)
    ensures First(s) == Some(m) <==> m in s && forall x :: x in s ==> m <= x
  {
  }

  /** The ports ListL3 finds for a VRF exist and are up. */
  ghost predicate PortsUp(t: Table, v: int) {
    var b := First(Bridges(t, v));
    && b.Some?
    && t[b.value].up
    && var x := First(Vxlans(t, b.value));
    && x.Some?
    && t[x.value].up
  }

  /** The VRF a link belongs to as device, L3VNI bridge or L3VNI VXLAN; 0 for every other link. */
  function Owner(t: Table, i: int): int
    requires i in t
  {
    if t[i].kind.Vrf? then i
    else if IsL3Bridge(t, i) then t[i].master
    else if t[i].kind.Vxlan? && VX <= t[i].name && IsL3Bridge(t, t[i].master) then t[t[i].master].master
    else 0
  }

  function Families(t: Table, vs: set<int>): set<int> {
    set i | i in t && Owner(t, i) in vs
  }

  ghost function TablesInUse(base: Base, t: Table): set<int> {
    set v | v in t && Listed(base, t, v) :: t[v].kind.table
  }

  /** A listing is exact: every listed VRF once, in dump order, with what the table says. */
  ghost predicate Lists(base: Base, t: Table, infos: seq<VRFInformation>) {
    && (forall k :: 0 <= k < |infos| ==>
          Listed(base, t, infos[k].vrfID) && infos[k] == InfoOf(t, infos[k].vrfID))
    && (forall v :: Listed(base, t, v) ==> InfoOf(t, v) in infos)
    && (forall j, k :: 0 <= j < k < |infos| ==> infos[j].vrfID < infos[k].vrfID)
  }

  // ---- Two tables that agree on the L3 part ----

  predicate L3Relevant(t: Table, i: int) {
    && i in t
    && (t[i].kind.Vrf? || IsL3Bridge(t, i) ||
        (t[i].kind.Vxlan? && VX <= t[i].name && IsL3Bridge(t, t[i].master)))
  }

  ghost predicate SameL3(t: Table, u: Table) {
    && (forall i :: L3Relevant(t, i) ==> L3Relevant(u, i) && u[i] == t[i])
    && (forall i :: L3Relevant(u, i) ==> L3Relevant(t, i))
  }

  /** The part of two tables that decides a VRF's listing agrees. */
  ghost predicate SameVrf(t: Table, u: Table, v: int) {
    && IsVrf(t, v) && IsVrf(u, v) && t[v].name == u[v].name && t[v].kind == u[v].kind
    && (forall b :: b in Bridges(t, v) <==> b in Bridges(u, v))
    && (forall b, x :: b in Bridges(t, v) ==> (x in Vxlans(t, b) <==> x in Vxlans(u, b)))
    && (forall b, x :: b in Bridges(t, v) && x in Vxlans(t, b) ==> t[x].kind == u[x].kind)
  }

  /** ... and so do the names and states of the VRF's ports. */
  ghost predicate SamePorts(t: Table, u: Table, v: int) {
    && SameVrf(t, u, v)
    && (forall b :: b in Bridges(t, v) ==> u[b].name == t[b].name && u[b].up == t[b].up)
    && (forall b, x :: b in Bridges(t, v) && x in Vxlans(t, b) ==> u[x].name == t[x].name && u[x].up == t[x].up)
  }

  /** The VRF's ports are the ones CreateL3 makes for c. */
  ghost predicate HasPortsOf(t: Table, v: int, c: VRFInformation) {
    && IsVrf(t, v) && t[v].name == c.name
    && var b := First(Bridges(t, v));
    && b.Some?
    && t[b.value].name == BridgeName(c.vni)
    && var x := First(Vxlans(t, b.value));
    && x.Some?
    && t[x.value].name == VxlanName(c.vni)
  }

  lemma SamePortsSameView(t: Table, u: Table, v: int, c: VRFInformation)
    requires SamePorts(t, u, v)
    ensures InfoOf(t, v) == InfoOf(u, v)
    ensures PortsUp(t, v) <==> PortsUp(u, v)
    ensures HasPortsOf(t, v, c) <==> HasPortsOf(u, v, c)
  {
    assert Bridges(t, v) == Bridges(u, v);
    var b := First(Bridges(t, v));
    if b.Some? {
      assert Vxlans(t, b.value) == Vxlans(u, b.value);
    }
  }

  lemma SameVrfSameInfo(t: Table, u: Table, v: int)
    requires SameVrf(t, u, v)
    ensures InfoOf(t, v) == InfoOf(u, v)
  {
    assert Bridges(t, v) == Bridges(u, v);
    var b := First(Bridges(t, v));
    if b.Some? {
      assert Vxlans(t, b.value) == Vxlans(u, b.value);
    }
  }

  lemma SameL3SamePorts(t: Table, u: Table, v: int)
    requires SameL3(t, u) && IsVrf(t, v)
    ensures SamePorts(t, u, v) && u[v] == t[v]
  {
    assert L3Relevant(t, v);
    forall b
      ensures b in Bridges(t, v) <==> b in Bridges(u, v)
      ensures b in Bridges(t, v) ==> u[b] == t[b]
    {
      if b in Bridges(t, v) { assert L3Relevant(t, b); }
      if b in Bridges(u, v) { assert L3Relevant(u, b); }
    }
    forall b, x | b in Bridges(t, v)
      ensures x in Vxlans(t, b) <==> x in Vxlans(u, b)
      ensures x in Vxlans(t, b) ==> u[x] == t[x]
    {
      assert L3Relevant(t, b);
      if x in Vxlans(t, b) { assert L3Relevant(t, x); }
      if x in Vxlans(u, b) { assert L3Relevant(u, x); }
    }
  }

  // ---- Deleting VRFs with their ports ----

  /** Deleting some VRFs with everything they own leaves the listing of every other VRF alone. */
  lemma FamiliesFrame(t: Table, vs: set<int>, w: int)
    requires 0 !in t
    requires IsVrf(t, w) && w !in vs
    ensures SamePorts(t, RemoveAll(t, Families(t, vs)), w)
  {
    var ds := Families(t, vs);
    var u := RemoveAll(t, ds);
    assert Owner(t, w) == w;
    forall b ensures b in Bridges(t, w) <==> b in Bridges(u, w) {
      if b in Bridges(t, w) { assert Owner(t, b) == w; }
    }
    forall b, x | b in Bridges(t, w)
      ensures x in Vxlans(t, b) <==> x in Vxlans(u, b)
      ensures x in Vxlans(t, b) ==> t[x].(master := u[x].master) == u[x]
    {
      assert Owner(t, b) == w;
      if x in Vxlans(t, b) { assert Owner(t, x) == w; }
    }
  }

  /** Families can be deleted one VRF after the other. */
  lemma FamiliesStep(t: Table, vs: set<int>, w: int)
    requires 0 !in t && 0 !in vs && w != 0
    requires IsVrf(t, w) && w !in vs
    ensures Families(RemoveAll(t, Families(t, vs)), {w}) == Families(t, {w})
    ensures RemoveAll(RemoveAll(t, Families(t, vs)), Families(t, {w})) == RemoveAll(t, Families(t, vs + {w}))
  {
    var ds := Families(t, vs);
    var u := RemoveAll(t, ds);
    assert Owner(t, w) == w;
    forall i ensures i in Families(u, {w}) <==> i in Families(t, {w}) {
      if i in Families(t, {w}) {
        if t[i].kind.Vxlan? { assert Owner(t, t[i].master) == w; }
      }
    }
    assert ds + Families(t, {w}) == Families(t, vs + {w});
    RemoveTwice(t, ds, Families(t, {w}));
  }

  // ---- Creating a VRF with its ports ----

  /** The links CreateL3 leaves behind: the device up, its two ports enslaved and down. */
  function WithVrf(t: Table, n: int, c: VRFInformation, table: int): Table {
    var device := t[n := Link(c.name, Vrf(table), 0, true, 0, {})];
    if c.localOnly then device
    else
      device[n + 1 := Link(BridgeName(c.vni), Bridge, n, false, DEFAULT_MTU, {})]
            [n + 2 := Link(VxlanName(c.vni), Vxlan(c.vni), n + 1, false, DEFAULT_MTU, {})]
  }

  /** Listing after creating recovers exactly what was created. */
  lemma CreateThenList(t: Table, n: int, c: VRFInformation, table: int)
    requires WellFormed(t, n)
    ensures var u := WithVrf(t, n, c, table);
            IsVrf(u, n) &&
            InfoOf(u, n) == if c.localOnly
                            then VRFInformation(c.name, 0, false, table, 0, n, true)
                            else VRFInformation(c.name, c.vni, false, table, n + 1, n, false)
    ensures !c.localOnly ==> HasPortsOf(WithVrf(t, n, c, table), n, c)
    ensures WithVrf(t, n, c, table)[n].up
  {
    var u := WithVrf(t, n, c, table);
    if c.localOnly {
      assert Bridges(u, n) == {};
    } else {
      assert Bridges(u, n) == {n + 1};
      assert Vxlans(u, n + 1) == {n + 2};
    }
  }

  /** Old links are as they were, and the new ones are enslaved to new ones or to nothing. */
  ghost predicate Extends(t: Table, u: Table, n: int) {
    && (forall i :: i in t ==> i in u && u[i] == t[i])
    && (forall i :: i in u && i !in t ==> n <= i && (u[i].master == 0 || u[i].master >= n))
  }

  lemma WithVrfExtends(t: Table, n: int, c: VRFInformation, table: int)
    requires WellFormed(t, n)
    ensures Extends(t, WithVrf(t, n, c, table), n)
    ensures forall i :: i in WithVrf(t, n, c, table) && i !in t ==>
              Owner(WithVrf(t, n, c, table), i) == n && !IsL2Bridge(WithVrf(t, n, c, table), i)
    ensures forall i :: IsVrf(WithVrf(t, n, c, table), i) ==> i == n || IsVrf(t, i)
  {
    hide Itoa;
    var u := WithVrf(t, n, c, table);
    if !c.localOnly {
      assert u[n + 1].name[0] == BR[0] && BR <= u[n + 1].name && VX <= u[n + 2].name;
    }
  }

  /** ... and the listing of every other VRF is what it was. */
  lemma CreateFrame(t: Table, n: int, c: VRFInformation, table: int, w: int)
    requires WellFormed(t, n) && IsVrf(t, w)
    ensures SamePorts(t, WithVrf(t, n, c, table), w)
  {
    WithVrfExtends(t, n, c, table);
    hide WithVrf;
    var u := WithVrf(t, n, c, table);
    assert Bridges(u, w) == Bridges(t, w);
    forall b | b in Bridges(t, w) ensures Vxlans(u, b) == Vxlans(t, b) {
    }
  }

  /** Deleting a VRF right after creating it restores the table. */
  lemma CreateThenCleanup(t: Table, n: int, c: VRFInformation, table: int)
    requires WellFormed(t, n)
    ensures var u := WithVrf(t, n, c, table);
            RemoveAll(u, Families(u, {n})) == t
  {
    WithVrfExtends(t, n, c, table);
    hide WithVrf;
    var u := WithVrf(t, n, c, table);
    forall i | i in t ensures Owner(u, i) != n {
    }
    assert Families(u, {n}) == u.Keys - t.Keys;
  }

  // ---- Table numbers ----

  /** Listed VRFs have pairwise distinct tables. */
  ghost predicate DistinctTables(base: Base, t: Table) {
    forall v, w :: Listed(base, t, v) && Listed(base, t, w) && t[v].kind.table == t[w].kind.table ==> v == w
  }

  /** Two listed VRFs share a table only if they did so before. */
  ghost predicate NoNewSharing(base: Base, t: Table, u: Table) {
    forall v, w :: Listed(base, u, v) && Listed(base, u, w) && u[v].kind.table == u[w].kind.table && v != w ==>
      Listed(base, t, v) && Listed(base, t, w) && t[v].kind.table == t[w].kind.table
  }

  /** Whatever shared a table before, a VRF created with a free number shares it with no listed one. */
  lemma CreateSharesNothing(base: Base, t: Table, n: int, c: VRFInformation, table: int)
    requires WellFormed(t, n) && LeastFree(TablesInUse(base, t), table)
    ensures NoNewSharing(base, t, WithVrf(t, n, c, table))
    ensures forall v :: Listed(base, WithVrf(t, n, c, table), v) && v != n ==> WithVrf(t, n, c, table)[v].kind.table != table
  {
    var u := WithVrf(t, n, c, table);
    forall v | Listed(base, u, v) && v != n ensures Listed(base, t, v) && u[v] == t[v] && t[v].kind.table != table {
      assert t[v].kind.table in TablesInUse(base, t);
    }
  }

  lemma DeleteSharesNothing(base: Base, t: Table, ds: set<int>)
    ensures NoNewSharing(base, t, RemoveAll(t, ds))
  {
    var u := RemoveAll(t, ds);
    assert forall v :: Listed(base, u, v) ==> Listed(base, t, v) && u[v].kind == t[v].kind;
  }

  lemma NoNewSharingTrans(base: Base, t: Table, u: Table, x: Table)
    requires NoNewSharing(base, t, u) && NoNewSharing(base, u, x)
    ensures NoNewSharing(base, t, x)
  {
  }

  /** So VRFs that were not listed before have tables of their own, and distinct tables stay distinct. */
  lemma NewTablesAreDistinct(base: Base, t: Table, u: Table)
    requires NoNewSharing(base, t, u)
    ensures DistinctTables(base, t) ==> DistinctTables(base, u)
    ensures forall v, w :: Listed(base, u, v) && v !in t && Listed(base, u, w) && v != w ==> u[v].kind.table != u[w].kind.table
  {
  }

  /** A reserved VRF sits on a number in the range with every smaller one, but not itself, used by listed VRFs. */
  ghost predicate ReservedInTheWay(base: Base, t: Table) {
    exists v :: IsVrf(t, v) && base.Reserved(t[v].name) && LeastFree(TablesInUse(base, t), t[v].kind.table)
  }

  /**
   The search does not see the reserved VRFs. Whether the number it returns is taken is decided by the
   table before the call: it is exactly when a reserved VRF is in the way.
   */
  lemma FreshForAllVrfs(base: Base, t: Table, table: int)
    requires LeastFree(TablesInUse(base, t), table)
    ensures (exists v :: IsVrf(t, v) && t[v].kind.table == table) <==> ReservedInTheWay(base, t)
  {
    forall v | Listed(base, t, v) ensures t[v].kind.table != table {
      assert t[v].kind.table in TablesInUse(base, t);
    }
    if ReservedInTheWay(base, t) {
      var v :| IsVrf(t, v) && base.Reserved(t[v].name) && LeastFree(TablesInUse(base, t), t[v].kind.table);
      LeastFreeUnique(TablesInUse(base, t), t[v].kind.table, table);
    }
  }

  /** A cluster VRF in table 50 shares it with the first VRF the agent creates. */
  lemma ReservedTableIsReused(base: Base)
    ensures var t := map[1 := Link(base.clusterVRF, Vrf(50), 0, true, 0, {})];
            WellFormed(t, 2) && ReservedInTheWay(base, t) && LeastFree(TablesInUse(base, t), t[1].kind.table)
  {
    var t := map[1 := Link(base.clusterVRF, Vrf(50), 0, true, 0, {})];
    assert TablesInUse(base, t) == {};
    assert IsVrf(t, 1) && base.Reserved(t[1].name);
  }
}
