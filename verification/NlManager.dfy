/** pkg/nl's Manager: it lists, creates and deletes L3 and L2 networks through the toolkit. */
module NlManager {
  import opened Text
  import opened LinkTable
  import opened TableIds
  import opened Layer3
  import opened Layer2
  import opened Ordering

  /** The l2.* bridges enslaved to v. */
  ghost function EnslavedL2(t: Table, v: int): set<int> {
    set b | b in t && IsL2Bridge(t, b) && t[b].master == v
  }

  class Manager {
    const toolkit: Toolkit
    const base: Base

    constructor (toolkit: Toolkit, base: Base)
      ensures this.toolkit == toolkit && this.base == base
    {
      this.toolkit, this.base := toolkit, base;
    }

    // ---- list.go ----

    /** updateL3Indices: the first bridge of the VRF in dump order, then its first VXLAN. */
    method UpdateL3Indices(info: VRFInformation, order: seq<int>) returns (r: VRFInformation)
      requires IsVrf(toolkit.links, info.vrfID) && order == Ascending(toolkit.links.Keys)
      requires info == VRFInformation(toolkit.links[info.vrfID].name, 0, false,
                                      toolkit.links[info.vrfID].kind.table, 0, info.vrfID, false)
      ensures r == InfoOf(toolkit.links, info.vrfID)
    {
      hide First;
      hide Ascending;
      var t := toolkit.links;
      var bridge := FindFirst(t, order, Bridges(t, info.vrfID));
      if bridge.None? {
        return info.(markForDelete := true);
      }
      r := info.(bridgeID := bridge.value);
      var vxlan := FindFirst(t, order, Vxlans(t, bridge.value));
      if vxlan.None? {
        return r.(markForDelete := true);
      }
      return r.(vni := t[vxlan.value].kind.vni);
    }

    /** A loop over the dump that stops at the first link of a set. */
    static method FindFirst(t: Table, order: seq<int>, s: set<int>) returns (r: Option<int>)
      requires order == Ascending(t.Keys) && s <= t.Keys
      ensures r == First(s)
    {
      hide First;
      hide Ascending;
      for k := 0 to |order|
        invariant forall j :: 0 <= j < k ==> order[j] !in s
      {
        if order[k] in s {
          FirstInOrder(t, order, s, k);
          return Some(order[k]);
        }
      }
      NoneInOrder(t, order, s);
      return None;
    }

    static lemma FirstInOrder(t: Table, order: seq<int>, s: set<int>, k: nat)
      requires order == Ascending(t.Keys) && s <= t.Keys && k < |order| && order[k] in s
      requires forall j :: 0 <= j < k ==> order[j] !in s
      ensures First(s) == Some(order[k])
    {
      hide First;
      hide Ascending;
      var m := First(s).value;
      assert m in order;
    }

    static lemma NoneInOrder(t: Table, order: seq<int>, s: set<int>)
      requires order == Ascending(t.Keys) && s <= t.Keys
      requires forall j :: 0 <= j < |order| ==> order[j] !in s
      ensures First(s).None?
    {
      hide First;
      hide Ascending;
      assert forall x :: x in s ==> x in order;
    }

    method ListL3() returns (ok: bool, infos: seq<VRFInformation>)
      ensures ok ==> Lists(base, toolkit.links, infos)
    {
      var t := toolkit.links;
      infos := [];
      var order: seq<int>;
      ok, order := toolkit.LinkList();
      if !ok {
        return;
      }
      for k := 0 to |order|
        invariant ListsPrefix(base, t, order, k, infos)
      {
        assert order[k] in t;
        if Listed(base, t, order[k]) {
          var link := t[order[k]];
          var info := UpdateL3Indices(VRFInformation(link.name, 0, false, link.kind.table, 0, order[k], false), order);
          ListsPrefixStep(base, t, order, k, infos);
          infos := infos + [info];
        }
      }
      forall v | Listed(base, t, v) ensures InfoOf(t, v) in infos {
        assert v in order;
      }
    }

    /** The listing of the first k links of a dump. */
    static ghost predicate ListsPrefix(base: Base, t: Table, order: seq<int>, k: nat, infos: seq<VRFInformation>)
      requires k <= |order|
    {
      && (forall j :: 0 <= j < |infos| ==>
            Listed(base, t, infos[j].vrfID) && infos[j] == InfoOf(t, infos[j].vrfID))
      && (forall j :: 0 <= j < |infos| ==> exists i :: 0 <= i < k && order[i] == infos[j].vrfID)
      && (forall i :: 0 <= i < k && Listed(base, t, order[i]) ==> InfoOf(t, order[i]) in infos)
      && (forall i, j :: 0 <= i < j < |infos| ==> infos[i].vrfID < infos[j].vrfID)
    }

    static lemma ListsPrefixStep(base: Base, t: Table, order: seq<int>, k: nat, infos: seq<VRFInformation>)
      requires k < |order| && StrictlyAscending(order)
      requires Listed(base, t, order[k]) && ListsPrefix(base, t, order, k, infos)
      ensures ListsPrefix(base, t, order, k + 1, infos + [InfoOf(t, order[k])])
    {
      hide First;
      hide Bridges;
      hide Vxlans;
      var more := infos + [InfoOf(t, order[k])];
      forall i | 0 <= i < k + 1 && Listed(base, t, order[i]) ensures InfoOf(t, order[i]) in more {
        if i < k {
          assert InfoOf(t, order[i]) in infos;
        } else {
          assert more[|infos|] == InfoOf(t, order[i]);
        }
      }
      forall j | 0 <= j < |more| ensures exists i :: 0 <= i < k + 1 && order[i] == more[j].vrfID {
        if j < |infos| {
          var i :| 0 <= i < k && order[i] == infos[j].vrfID;
          assert order[i] == more[j].vrfID;
        } else {
          assert order[k] == more[j].vrfID;
        }
      }
    }

    // ---- layer3.go ----

    /** findFreeTableID: the least number in the range that no listed VRF uses; listed is whether the VRFs could be read. */
    method FindFreeTableID() returns (r: Option<int>, listed: bool)
      ensures !listed ==> r.None?
      ensures listed ==> (r.None? <==> Exhausted(TablesInUse(base, toolkit.links)))
      ensures r.Some? ==> LeastFree(TablesInUse(base, toolkit.links), r.value)
      ensures r.Some? ==> (Taken(toolkit.links, r.value) <==> ReservedInTheWay(base, toolkit.links))
    {
      var ok, infos := ListL3();
      if !ok {
        return None, false;
      }
      var tables := seq(|infos|, k requires 0 <= k < |infos| => infos[k].table);
      ListedTables(base, toolkit.links, infos, tables);
      r := FindFree(tables);
      if r.Some? {
        FreshForAllVrfs(base, toolkit.links, r.value);
      }
      listed := true;
    }

    static lemma ListedTables(base: Base, t: Table, infos: seq<VRFInformation>, tables: seq<int>)
      requires Lists(base, t, infos)
      requires |tables| == |infos| && forall k :: 0 <= k < |infos| ==> tables[k] == infos[k].table
      ensures AsSet(tables) == TablesInUse(base, t)
    {
      forall v | IsVrf(t, v) ensures InfoOf(t, v).table == t[v].kind.table && InfoOf(t, v).vrfID == v { }
      hide InfoOf;
      forall x | x in TablesInUse(base, t) ensures x in AsSet(tables) {
        var v :| Listed(base, t, v) && t[v].kind.table == x;
        var k :| 0 <= k < |infos| && infos[k] == InfoOf(t, v);
        assert tables[k] == x;
      }
      forall x | x in AsSet(tables) ensures x in TablesInUse(base, t) {
        var k :| 0 <= k < |tables| && tables[k] == x;
        assert Listed(base, t, infos[k].vrfID);
      }
    }

    /** createVRF */
    method CreateVRF(name: string, table: int) returns (r: Option<int>)
      requires toolkit.Valid()
      modifies toolkit
      ensures toolkit.Valid() && toolkit.next >= old(toolkit.next)
      ensures Grown(old(toolkit.links), toolkit.links, old(toolkit.next))
      ensures NewPortsDown(old(toolkit.links), toolkit.links)
      ensures QuietGrowth(old(toolkit.log), toolkit.log, old(toolkit.next), toolkit.next)
      ensures r.Some? ==>
                && r.value == old(toolkit.next) && toolkit.next == old(toolkit.next) + 1
                && toolkit.links == old(toolkit.links)[r.value := Link(name, Vrf(table), 0, true, 0, {})]
                && forall i :: i in old(toolkit.links) ==> old(toolkit.links)[i].name != name
    {
      ghost var log0 := toolkit.log;
      var n := toolkit.LinkAdd(Link(name, Vrf(table), 0, false, 0, {}));
      if n.None? {
        return None;
      }
      var eui := toolkit.Untracked();
      if !eui {
        assert toolkit.log[|log0|..] == [Created(n.value, false)];
        return None;
      }
      var up := toolkit.LinkSetUp(n.value);
      assert toolkit.log[|log0|..] == if up then [Created(n.value, false), SetUp(n.value)] else [Created(n.value, false)];
      r := if up then n else None;
    }

    /** createBridge and createVXLAN: the new link stays down. */
    method CreatePort(l: Link) returns (r: Option<int>)
      requires toolkit.Valid() && !l.up
      modifies toolkit
      ensures toolkit.Valid() && toolkit.next >= old(toolkit.next)
      ensures Grown(old(toolkit.links), toolkit.links, old(toolkit.next))
      ensures NewPortsDown(old(toolkit.links), toolkit.links)
      ensures QuietGrowth(old(toolkit.log), toolkit.log, old(toolkit.next), toolkit.next)
      ensures !IsL3Port(old(toolkit.links), l) ==> NoPortCreated(toolkit.log[|old(toolkit.log)|..])
      ensures r.Some? ==>
                && r.value == old(toolkit.next) && toolkit.next == old(toolkit.next) + 1
                && toolkit.links == old(toolkit.links)[r.value := l]
                && (forall i :: i in old(toolkit.links) ==> old(toolkit.links)[i].name != l.name)
    {
      var underlay := toolkit.LinkByName("dum.underlay");
      if underlay.None? {
        return None;
      }
      r := toolkit.LinkAdd(l);
      if r.Some? {
        assert toolkit.log[|old(toolkit.log)|..] == [Created(r.value, IsL3Port(old(toolkit.links), l))];
        var configured := toolkit.Untracked();
        if !configured {
          r := None;
        }
      }
    }

    /** CreateL3: a device with the least free table, and for a fabric VRF its two ports, down. */
    method CreateL3(c: VRFInformation) returns (ok: bool)
      requires toolkit.Valid()
      modifies toolkit
      ensures toolkit.Valid() && toolkit.next >= old(toolkit.next)
      ensures Grown(old(toolkit.links), toolkit.links, old(toolkit.next))
      ensures NewPortsDown(old(toolkit.links), toolkit.links)
      ensures QuietGrowth(old(toolkit.log), toolkit.log, old(toolkit.next), toolkit.next)
      ensures ok ==>
                && |c.name| <= MAX_VRF_NAME
                && IsVrf(toolkit.links, old(toolkit.next))
                && LeastFree(TablesInUse(base, old(toolkit.links)), toolkit.links[old(toolkit.next)].kind.table)
                && (Taken(old(toolkit.links), toolkit.links[old(toolkit.next)].kind.table)
                    <==> ReservedInTheWay(base, old(toolkit.links)))
                && toolkit.links == WithVrf(old(toolkit.links), old(toolkit.next), c,
                                            toolkit.links[old(toolkit.next)].kind.table)
    {
      if |c.name| > MAX_VRF_NAME {
        return false;
      }
      var table, listed := FindFreeTableID();
      if table.None? {
        return false;
      }
      ghost var log0, n0 := toolkit.log, toolkit.next;
      var vrf := CreateVRF(c.name, table.value);
      if vrf.None? {
        return false;
      }
      if c.localOnly {
        return true;
      }
      ghost var log1, n1 := toolkit.log, toolkit.next;
      var bridge := CreatePort(Link(BridgeName(c.vni), Bridge, vrf.value, false, DEFAULT_MTU, {}));
      QuietGrowthStep(log0, log1, toolkit.log, n0, n1, toolkit.next);
      if bridge.None? {
        return false;
      }
      ghost var log2, n2 := toolkit.log, toolkit.next;
      var vxlan := CreatePort(Link(VxlanName(c.vni), Vxlan(c.vni), bridge.value, false, DEFAULT_MTU, {}));
      QuietGrowthStep(log0, log2, toolkit.log, n0, n2, toolkit.next);
      ok := vxlan.Some?;
    }

    /** One deletion by name, in terms of what is already gone from t. */
    method DeleteOne(ghost t: Table, i: int, name: string, ghost gone: set<int>) returns (ok: bool)
      requires toolkit.Valid() && toolkit.links == RemoveAll(t, gone)
      requires i in t && i != 0 && i !in gone && t[i].name == name && !t[i].kind.Vrf?
      modifies toolkit
      ensures toolkit.Valid() && toolkit.next == old(toolkit.next) && toolkit.log == old(toolkit.log)
      ensures toolkit.links == RemoveAll(t, if ok then gone + {i} else gone)
    {
      assert i in toolkit.links && toolkit.links[i].name == name && !toolkit.links[i].kind.Vrf?;
      ok := toolkit.DeleteLink(name);
      RemoveTwice(t, gone, {i});
    }

    /** deleteL3Children, the VXLANs enslaved to the given bridges. */
    method DeleteVxlans(bridges: set<int>, order: seq<int>) returns (ok: bool, ghost gone: set<int>)
      requires toolkit.Valid() && order == Ascending(toolkit.links.Keys)
      modifies toolkit
      ensures toolkit.Valid() && toolkit.next == old(toolkit.next) && toolkit.log == old(toolkit.log)
      ensures gone <= VxlansOf(old(toolkit.links), bridges)
      ensures toolkit.links == RemoveAll(old(toolkit.links), gone)
      ensures ok ==> gone == VxlansOf(old(toolkit.links), bridges)
    {
      var t := toolkit.links;
      ok, gone := true, {};
      RemoveNone(t);
      for k := 0 to |order|
        invariant toolkit.Valid() && toolkit.next == old(toolkit.next) && toolkit.log == old(toolkit.log)
        invariant toolkit.links == RemoveAll(t, gone)
        invariant gone <= VxlansOf(t, bridges)
        invariant forall j :: k <= j < |order| ==> order[j] !in gone
        invariant ok ==> forall j :: 0 <= j < k && order[j] in VxlansOf(t, bridges) ==> order[j] in gone
      {
        assert order[k] in t;
        var link := t[order[k]];
        if link.kind.Vxlan? && VX <= link.name && link.master in bridges {
          var deleted := DeleteOne(t, order[k], link.name, gone);
          ok := ok && deleted;
          if deleted {
            gone := gone + {order[k]};
          }
        }
      }
      if ok {
        forall x | x in VxlansOf(t, bridges) ensures x in gone {
          assert x in order;
        }
      }
    }

    /** deleteL3Children, the bridges themselves, in any order. */
    method DeleteBridges(ghost t: Table, bridges: map<int, string>, ghost before: set<int>)
      returns (ok: bool, ghost gone: set<int>)
      requires toolkit.Valid() && toolkit.links == RemoveAll(t, before) && bridges.Keys !! before
      requires forall b :: b in bridges ==> b in t && b != 0 && t[b].name == bridges[b] && !t[b].kind.Vrf?
      modifies toolkit
      ensures toolkit.Valid() && toolkit.next == old(toolkit.next) && toolkit.log == old(toolkit.log)
      ensures gone <= bridges.Keys && toolkit.links == RemoveAll(t, before + gone)
      ensures ok ==> gone == bridges.Keys
    {
      ok, gone := true, {};
      assert before + {} == before;
      var remaining := bridges.Keys;
      while remaining != {}
        invariant toolkit.Valid() && toolkit.next == old(toolkit.next) && toolkit.log == old(toolkit.log)
        invariant toolkit.links == RemoveAll(t, before + gone)
        invariant remaining <= bridges.Keys && gone <= bridges.Keys && remaining !! gone
        invariant ok ==> gone == bridges.Keys - remaining
        decreases remaining
      {
        assert exists b :: b in remaining by { var b := Inhabitant(remaining); }
        var b :| b in remaining;
        var deleted := DeleteOne(t, b, bridges[b], before + gone);
        ok := ok && deleted;
        if deleted {
          assert before + gone + {b} == before + (gone + {b});
          gone := gone + {b};
        }
        remaining := remaining - {b};
      }
    }

    /** deleteL3Children: the VXLANs of the VRF's bridges, then the bridges, whatever they are called. */
    method DeleteL3Children(vrfID: int, order: seq<int>) returns (ok: bool, ghost gone: set<int>)
      requires toolkit.Valid() && vrfID != 0 && order == Ascending(toolkit.links.Keys)
      modifies toolkit
      ensures toolkit.Valid() && toolkit.next == old(toolkit.next) && toolkit.log == old(toolkit.log)
      ensures gone <= Children(old(toolkit.links), vrfID)
      ensures toolkit.links == RemoveAll(old(toolkit.links), gone)
      ensures ok ==> gone == Children(old(toolkit.links), vrfID)
    {
      var t := toolkit.links;
      var bridges: map<int, string> := map b | b in Bridges(t, vrfID) :: t[b].name;
      assert bridges.Keys == Bridges(t, vrfID);
      hide Bridges;
      hide VxlansOf;
      hide Ascending;
      hide RemoveAll;
      ghost var vxlans, rest;
      var okVxlans, okBridges;
      okVxlans, vxlans := DeleteVxlans(bridges.Keys, order);
      okBridges, rest := DeleteBridges(t, bridges, vxlans);
      ok, gone := okVxlans && okBridges, vxlans + rest;
    }

    /** The device itself, found by its name, once some of the children are gone. */
    method DeleteDevice(ghost t: Table, name: string, ghost gone: set<int>) returns (ok: bool)
      requires toolkit.Valid() && toolkit.links == RemoveAll(t, gone) && 0 !in t && UniqueNames(t)
      modifies toolkit
      ensures toolkit.Valid() && toolkit.next == old(toolkit.next)
      ensures toolkit.links == RemoveAll(t, if ok then gone + Named(t, name) else gone)
      ensures old(toolkit.log) <= toolkit.log
      ensures forall k :: |old(toolkit.log)| <= k < |toolkit.log| ==> toolkit.log[k].VrfDeleted? && toolkit.log[k].index in Named(t, name)
      ensures forall v :: IsVrf(t, v) && t[v].name == name && gone <= Children(t, v) && v !in gone ==>
                toolkit.log == old(toolkit.log) + if ok then [VrfDeleted(v, EnslavedL2(t, v))] else []
    {
      ok := toolkit.DeleteLink(name);
      if Named(t, name) != {} {
        ghost var v := Inhabitant(Named(t, name));
        NamedIs(t, name, v);
        if v in gone {
          assert gone + {v} == gone;
        } else {
          RemoveTwice(t, gone, {v});
          assert RemoveAll(t, gone)[v].name == name;
          if IsVrf(t, v) && gone <= Children(t, v) {
            ChildrenLeaveL2(t, v, gone);
          }
        }
      } else {
        NoneNamed(t, name);
        assert gone + {} == gone;
      }
    }

    /**
     CleanupL3: it refuses the reserved names; otherwise it deletes what is enslaved to the given index, if any,
     then whatever has the given name, carrying on past errors. On an entry of ListL3 that is the VRF's family.
     */
    method CleanupL3(info: VRFInformation) returns (ok: bool, ghost gone: set<int>)
      requires toolkit.Valid()
      modifies toolkit
      ensures toolkit.Valid() && toolkit.next == old(toolkit.next)
      ensures base.Reserved(info.name) ==> !ok && unchanged(toolkit)
      ensures gone <= Owned(old(toolkit.links), info.vrfID) + Named(old(toolkit.links), info.name)
      ensures toolkit.links == RemoveAll(old(toolkit.links), gone)
      ensures ok ==> gone == Owned(old(toolkit.links), info.vrfID) + Named(old(toolkit.links), info.name)
      ensures old(toolkit.log) <= toolkit.log
      ensures forall k :: |old(toolkit.log)| <= k < |toolkit.log| ==>
                toolkit.log[k].VrfDeleted? && toolkit.log[k].index in Named(old(toolkit.links), info.name)
      ensures IsVrf(old(toolkit.links), info.vrfID) && old(toolkit.links)[info.vrfID].name == info.name ==>
                && Owned(old(toolkit.links), info.vrfID) + Named(old(toolkit.links), info.name)
                   == Families(old(toolkit.links), {info.vrfID})
                && toolkit.log == old(toolkit.log) +
                     if info.vrfID in gone then [VrfDeleted(info.vrfID, EnslavedL2(old(toolkit.links), info.vrfID))] else []
    {
      ghost var t := toolkit.links;
      RemoveNone(t);
      FamilyIsOwnedAndNamed(t, info.vrfID, info.name);
      ok, gone := false, {};
      if base.Reserved(info.name) {
        return;
      }
      ok := true;
      if info.vrfID != 0 {
        var listed, order := toolkit.LinkList();
        ok := listed;
        if listed {
          ok, gone := DeleteL3Children(info.vrfID, order);
        }
      }
      hide RemoveAll;
      hide Children;
      hide Families;
      var deleted := DeleteDevice(t, info.name, gone);
      if deleted {
        gone := gone + Named(t, info.name);
      }
      ok := ok && deleted;
    }

    /** setUp */
    method SetUpByName(name: string) returns (ok: bool, ghost i: int)
      requires toolkit.Valid()
      modifies toolkit
      ensures toolkit.Valid() && toolkit.next == old(toolkit.next)
      ensures !ok ==> unchanged(toolkit)
      ensures ok ==>
                && i in old(toolkit.links) && old(toolkit.links)[i].name == name
                && toolkit.links == WithUp(old(toolkit.links), {name})
                && toolkit.log == old(toolkit.log) + [SetUp(i)]
    {
      i := 0;
      var found := toolkit.LinkByName(name);
      if found.None? {
        return false, 0;
      }
      ok := toolkit.LinkSetUp(found.value);
      if ok {
        i := found.value;
        WithOneUp(old(toolkit.links), i);
      }
    }

    /** UpL3: the bridge, then the VXLAN, found by their names. */
    method UpL3(c: VRFInformation) returns (ok: bool, ghost up: set<string>)
      requires toolkit.Valid()
      modifies toolkit
      ensures toolkit.Valid() && toolkit.next == old(toolkit.next)
      ensures old(toolkit.log) <= toolkit.log
      ensures forall k :: |old(toolkit.log)| <= k < |toolkit.log| ==> toolkit.log[k].SetUp?
      ensures c.localOnly ==> ok && unchanged(toolkit)
      ensures up <= PortNames(c) && toolkit.links == WithUp(old(toolkit.links), up)
      ensures ok ==> up == PortNames(c)
    {
      ghost var t := toolkit.links;
      WithNoneUp(t);
      up := {};
      if c.localOnly {
        return true, up;
      }
      var bridge, vxlan;
      ghost var i;
      bridge, i := SetUpByName(BridgeName(c.vni));
      if !bridge {
        return false, up;
      }
      vxlan, i := SetUpByName(VxlanName(c.vni));
      WithUpTwice(t, {BridgeName(c.vni)}, {VxlanName(c.vni)});
      assert {BridgeName(c.vni)} + {VxlanName(c.vni)} == PortNames(c);
      ok, up := vxlan, if vxlan then PortNames(c) else {BridgeName(c.vni)};
    }

    /** GetVRFInterfaceIdxByName */
    method VrfIndexByName(name: string) returns (r: Option<int>)
      ensures r.Some? ==> r.value in toolkit.links && toolkit.links[r.value].name == name
      ensures r.Some? && !base.Reserved(name) ==> IsVrf(toolkit.links, r.value)
    {
      if base.Reserved(name) {
        r := toolkit.LinkByName(name);
        return;
      }
      var ok, infos := ListL3();
      if !ok {
        return None;
      }
      for k := 0 to |infos| {
        if infos[k].name == name {
          return Some(infos[k].vrfID);
        }
      }
      return None;
    }

    // ---- layer 2 ----

    /** updateL2Indices: the last VXLAN and the last VLAN port of the bridge, and its addresses. */
    method UpdateL2Indices(info: Layer2Information, order: seq<int>) returns (ok: bool, r: Layer2Information)
      requires IsL2Bridge(toolkit.links, info.bridge) && order == Ascending(toolkit.links.Keys)
      requires info.vxlan.None? && info.vlanInterface.None?
      ensures ok ==> r == info.(vxlan := r.vxlan, vlanInterface := r.vlanInterface, vni := r.vni, gateways := r.gateways)
      ensures ok ==> r.vxlan == Last(Vxlans(toolkit.links, info.bridge))
      ensures ok ==> r.vlanInterface == Last(VlanPorts(toolkit.links, info.bridge))
      ensures ok && r.vxlan.Some? ==> r.vni == toolkit.links[r.vxlan.value].kind.vni
      ensures ok ==> SetOf(r.gateways) == toolkit.links[info.bridge].addrs
    {
      hide Last;
      hide Ascending;
      hide LastSoFar;
      var t := toolkit.links;
      r := info;
      NoneSoFar(Vxlans(t, info.bridge), order);
      NoneSoFar(VlanPorts(t, info.bridge), order);
      for k := 0 to |order|
        invariant r == info.(vxlan := r.vxlan, vlanInterface := r.vlanInterface, vni := r.vni)
        invariant LastSoFar(Vxlans(t, info.bridge), order, k, r.vxlan)
        invariant LastSoFar(VlanPorts(t, info.bridge), order, k, r.vlanInterface)
        invariant r.vxlan.Some? ==> r.vxlan.value in t && t[r.vxlan.value].kind.Vxlan? && r.vni == t[r.vxlan.value].kind.vni
      {
        assert order[k] in t;
        var link := t[order[k]];
        SoFarStep(Vxlans(t, info.bridge), order, k, r.vxlan);
        SoFarStep(VlanPorts(t, info.bridge), order, k, r.vlanInterface);
        if link.master == info.bridge {
          if link.kind.Vxlan? && VX <= link.name {
            r := r.(vxlan := Some(order[k]), vni := link.kind.vni);
          }
          if link.kind.Vlan? && VLAN <= link.name {
            r := r.(vlanInterface := Some(order[k]));
          }
        }
      }
      LastIsLast(t, Vxlans(t, info.bridge), order, r.vxlan);
      LastIsLast(t, VlanPorts(t, info.bridge), order, r.vlanInterface);
      var addrs: seq<Addr>;
      ok, addrs := toolkit.AddrList(info.bridge);
      r := r.(gateways := addrs);
    }

    static ghost predicate LastSoFar(s: set<int>, order: seq<int>, k: nat, r: Option<int>)
      requires k <= |order|
    {
      && (r.Some? ==> r.value in s && exists j :: 0 <= j < k && order[j] == r.value)
      && (forall j :: 0 <= j < k && order[j] in s ==> r.Some? && order[j] <= r.value)
    }

    static lemma NoneSoFar(s: set<int>, order: seq<int>)
      ensures LastSoFar(s, order, 0, None)
    {
    }

    static lemma SoFarStep(s: set<int>, order: seq<int>, k: nat, r: Option<int>)
      requires k < |order| && StrictlyAscending(order) && LastSoFar(s, order, k, r)
      ensures LastSoFar(s, order, k + 1, if order[k] in s then Some(order[k]) else r)
    {
      if order[k] !in s && r.Some? {
        var j :| 0 <= j < k && order[j] == r.value;
        assert 0 <= j < k + 1;
      }
    }

    static lemma LastIsLast(t: Table, s: set<int>, order: seq<int>, r: Option<int>)
      requires order == Ascending(t.Keys) && s <= t.Keys && LastSoFar(s, order, |order|, r)
      ensures r == Last(s)
    {
      if s != {} {
        var m := Last(s).value;
        assert m in order;
      }
    }

    /** ListL2: fails on a bridge whose name carries no number. */
    method ListL2() returns (ok: bool, infos: seq<Layer2Information>)
      requires toolkit.Valid()
      ensures ok ==> ListsL2(toolkit.links, infos)
    {
      hide Describes;
      hide ListsL2;
      hide ListsL2Prefix;
      hide Ascending;
      var t := toolkit.links;
      infos := [];
      var order: seq<int>;
      ok, order := toolkit.LinkList();
      if !ok {
        return;
      }
      ListsL2PrefixSkip(t, order, 0, []);
      for k := 0 to |order|
        invariant ListsL2Prefix(t, order, k, infos)
      {
        assert order[k] in t;
        ListsL2PrefixSkip(t, order, k, infos);
        if IsL2Bridge(t, order[k]) {
          var known, info := DescribeL2(order[k], order);
          if !known {
            return false, infos;
          }
          ListsL2PrefixStep(t, order, k, infos, info);
          infos := infos + [info];
        }
      }
      ListsL2Whole(t, order, infos);
    }

    /** The listing of the first k links of a dump. */
    static ghost predicate ListsL2Prefix(t: Table, order: seq<int>, k: nat, infos: seq<Layer2Information>)
      requires k <= |order|
    {
      && (forall j :: 0 <= j < |infos| ==> Describes(t, infos[j]))
      && (forall j :: 0 <= j < |infos| ==> exists i :: 0 <= i < k && order[i] == infos[j].bridge)
      && (forall i :: 0 <= i < k && IsL2Bridge(t, order[i]) ==> exists j :: 0 <= j < |infos| && infos[j].bridge == order[i])
      && (forall i, j :: 0 <= i < j < |infos| ==> infos[i].bridge < infos[j].bridge)
    }

    static lemma ListsL2PrefixSkip(t: Table, order: seq<int>, k: nat, infos: seq<Layer2Information>)
      requires k <= |order|
      ensures ListsL2Prefix(t, order, 0, [])
      ensures k < |order| && ListsL2Prefix(t, order, k, infos) && !IsL2Bridge(t, order[k]) ==>
                ListsL2Prefix(t, order, k + 1, infos)
    {
      hide Describes;
    }

    static lemma ListsL2PrefixStep(t: Table, order: seq<int>, k: nat, infos: seq<Layer2Information>, info: Layer2Information)
      requires k < |order| && StrictlyAscending(order) && ListsL2Prefix(t, order, k, infos)
      requires Describes(t, info) && info.bridge == order[k]
      ensures ListsL2Prefix(t, order, k + 1, infos + [info])
    {
      hide Describes;
      var more := infos + [info];
      forall j | 0 <= j < |more|
        ensures Describes(t, more[j])
        ensures exists i :: 0 <= i < k + 1 && order[i] == more[j].bridge
      {
        if j < |infos| {
          var i :| 0 <= i < k && order[i] == infos[j].bridge;
          assert order[i] == more[j].bridge;
        } else {
          assert order[k] == more[j].bridge;
        }
      }
      forall i | 0 <= i < k + 1 && IsL2Bridge(t, order[i]) ensures exists j :: 0 <= j < |more| && more[j].bridge == order[i] {
        if i < k {
          var j :| 0 <= j < |infos| && infos[j].bridge == order[i];
          assert more[j].bridge == order[i];
        } else {
          assert more[|infos|].bridge == order[i];
        }
      }
    }

    static lemma ListsL2Whole(t: Table, order: seq<int>, infos: seq<Layer2Information>)
      requires order == Ascending(t.Keys) && ListsL2Prefix(t, order, |order|, infos)
      ensures ListsL2(t, infos)
    {
      hide Describes;
      forall b | IsL2Bridge(t, b) ensures exists j :: 0 <= j < |infos| && infos[j].bridge == b {
        assert b in order;
      }
    }

    /** One entry of ListL2. */
    method DescribeL2(b: int, order: seq<int>) returns (ok: bool, info: Layer2Information)
      requires toolkit.Valid() && IsL2Bridge(toolkit.links, b) && order == Ascending(toolkit.links.Keys)
      ensures ok ==> Describes(toolkit.links, info) && info.bridge == b
    {
      var t := toolkit.links;
      info := Layer2Information(0, t[b].mtu, 0, "", true, [], b);
      var vlanID := Atoi(t[b].name[3..]);
      if vlanID.None? {
        return false, info;
      }
      info := info.(vlanID := vlanID.value);
      if t[b].master > 0 {
        var found := toolkit.Untracked();
        if !found {
          return false, info;
        }
        if t[t[b].master].kind.Vrf? {
          info := info.(vrf := t[t[b].master].name);
        }
      }
      ok, info := UpdateL2Indices(info, order);
    }

    /** CleanupL2: VXLAN, bridge, VLAN port, carrying on past errors. */
    method CleanupL2(info: Layer2Information) returns (ok: bool, ghost gone: set<int>)
      requires toolkit.Valid() && Describes(toolkit.links, info)
      modifies toolkit
      ensures toolkit.Valid() && toolkit.next == old(toolkit.next) && toolkit.log == old(toolkit.log)
      ensures gone <= NetLinks(info) && toolkit.links == RemoveAll(old(toolkit.links), gone)
      ensures ok ==> gone == NetLinks(info)
      ensures ok ==> forall i :: i in {Some(info.bridge), info.vxlan, info.vlanInterface} && i.Some? ==> i.value !in toolkit.links
    {
      ghost var t := toolkit.links;
      RemoveNone(t);
      ok, gone := true, {};
      if info.vxlan.Some? {
        var deleted := DeleteIndex(t, info.vxlan.value, gone);
        ok := ok && deleted;
        gone := if deleted then gone + {info.vxlan.value} else gone;
      }
      var deleted := DeleteIndex(t, info.bridge, gone);
      ok := ok && deleted;
      gone := if deleted then gone + {info.bridge} else gone;
      if info.vlanInterface.Some? {
        deleted := DeleteIndex(t, info.vlanInterface.value, gone);
        ok := ok && deleted;
        gone := if deleted then gone + {info.vlanInterface.value} else gone;
      }
    }

    /** AddrAdd, in a loop: an address that is already there makes it fail. */
    method AddAddresses(b: int, addrs: seq<Addr>, except: seq<Addr>) returns (ok: bool)
      requires toolkit.Valid() && b in toolkit.links
      modifies toolkit`links
      ensures toolkit.Valid() && OnlyChanges(old(toolkit.links), toolkit.links, b)
      ensures ok ==> toolkit.links[b] ==
                     old(toolkit.links)[b].(addrs := old(toolkit.links)[b].addrs + (SetOf(addrs) - SetOf(except)))
    {
      ghost var l := toolkit.links[b];
      for k := 0 to |addrs|
        invariant toolkit.Valid() && OnlyChanges(old(toolkit.links), toolkit.links, b)
        invariant toolkit.links[b] == l.(addrs := l.addrs + (SetOf(addrs[..k]) - SetOf(except)))
      {
        assert addrs[..k + 1] == addrs[..k] + [addrs[k]];
        if addrs[k] !in except {
          if addrs[k] in toolkit.links[b].addrs {
            return false;
          }
          ok := toolkit.LinkSet(b, toolkit.links[b].(addrs := toolkit.links[b].addrs + {addrs[k]}));
          if !ok {
            return;
          }
        }
      }
      assert addrs[..|addrs|] == addrs;
      return true;
    }

    /** AddrDel, in a loop: an address that is not there makes it fail. */
    method RemoveAddresses(b: int, addrs: seq<Addr>, except: seq<Addr>) returns (ok: bool)
      requires toolkit.Valid() && b in toolkit.links
      modifies toolkit`links
      ensures toolkit.Valid() && OnlyChanges(old(toolkit.links), toolkit.links, b)
      ensures ok ==> toolkit.links[b] ==
                     old(toolkit.links)[b].(addrs := old(toolkit.links)[b].addrs - (SetOf(addrs) - SetOf(except)))
    {
      ghost var l := toolkit.links[b];
      for k := 0 to |addrs|
        invariant toolkit.Valid() && OnlyChanges(old(toolkit.links), toolkit.links, b)
        invariant toolkit.links[b] == l.(addrs := l.addrs - (SetOf(addrs[..k]) - SetOf(except)))
      {
        assert addrs[..k + 1] == addrs[..k] + [addrs[k]];
        if addrs[k] !in except {
          if addrs[k] !in toolkit.links[b].addrs {
            return false;
          }
          ok := toolkit.LinkSet(b, toolkit.links[b].(addrs := toolkit.links[b].addrs - {addrs[k]}));
          if !ok {
            return;
          }
        }
      }
      assert addrs[..|addrs|] == addrs;
      return true;
    }

    /** reconcileIPAddresses: add what is missing, then remove what is not wanted. */
    method ReconcileAddresses(b: int, current: seq<Addr>, desired: seq<Addr>) returns (ok: bool)
      requires toolkit.Valid() && b in toolkit.links
      modifies toolkit`links
      ensures toolkit.Valid() && OnlyChanges(old(toolkit.links), toolkit.links, b)
      ensures ok ==> toolkit.links[b] == old(toolkit.links)[b].(addrs := toolkit.links[b].addrs)
      ensures ok && old(toolkit.links)[b].addrs == SetOf(current) ==> toolkit.links[b].addrs == SetOf(desired)
    {
      ok := AddAddresses(b, desired, current);
      if ok {
        ok := RemoveAddresses(b, current, desired);
        assert SetOf(current) + (SetOf(desired) - SetOf(current)) - (SetOf(current) - SetOf(desired)) == SetOf(desired);
      }
    }

    /** createBridge/createVXLAN/createVLAN followed by setUp, for a link that is no L3VNI port. */
    method CreateUp(l: Link) returns (r: Option<int>)
      requires toolkit.Valid() && !l.up && !IsL3Port(toolkit.links, l)
      modifies toolkit
      ensures toolkit.Valid() && Calm(old(toolkit.log), toolkit.log)
      ensures r.Some? ==>
                && r.value == old(toolkit.next) && toolkit.next == old(toolkit.next) + 1
                && toolkit.links == old(toolkit.links)[r.value := l.(up := true)]
                && MayEnslave(old(toolkit.links), l)
                && (forall i :: i in old(toolkit.links) ==> old(toolkit.links)[i].name != l.name)
    {
      var log0 := toolkit.log;
      r := toolkit.LinkAdd(l);
      if r.None? {
        return;
      }
      var configured := toolkit.Untracked();
      if !configured {
        return None;
      }
      var up := toolkit.LinkSetUp(r.value);
      if !up {
        return None;
      }
    }

    /** setupBridge */
    method SetupBridge(c: Layer2Information, master: int) returns (r: Option<int>)
      requires toolkit.Valid()
      modifies toolkit
      ensures toolkit.Valid() && Calm(old(toolkit.log), toolkit.log)
      ensures r.Some? ==>
                && r.value == old(toolkit.next) && toolkit.next == old(toolkit.next) + 1
                && toolkit.links == old(toolkit.links)[r.value :=
                     Link(L2Name(c.vlanID), Bridge, master, true, c.mtu, SetOf(c.gateways))]
                && (forall i :: i in old(toolkit.links) ==> old(toolkit.links)[i].name != L2Name(c.vlanID))
                && (c.gateways != [] ==> c.vrf != "")
    {
      if c.gateways != [] && c.vrf == "" {
        return None;
      }
      NotBothPrefixes(L2Name(c.vlanID));
      r := CreateUp(Link(L2Name(c.vlanID), Bridge, master, false, c.mtu, {}));
      if r.None? {
        return;
      }
      var parsed := toolkit.Untracked();
      if !parsed {
        return None;
      }
      ghost var t := toolkit.links;
      var ok := AddAddresses(r.value, c.gateways, []);
      OnlyChangesIs(t, toolkit.links, r.value);
      assert {} + (SetOf(c.gateways) - SetOf([])) == SetOf(c.gateways);
      if !ok {
        return None;
      }
    }

    /** setupVXLAN */
    method SetupVXLAN(c: Layer2Information, b: int) returns (ok: bool)
      requires toolkit.Valid() && IsL2Bridge(toolkit.links, b)
      modifies toolkit
      ensures toolkit.Valid() && Calm(old(toolkit.log), toolkit.log)
      ensures ok ==> toolkit.links ==
                     old(toolkit.links)[old(toolkit.next) := Link(VxlanName(c.vni), Vxlan(c.vni), b, true, c.mtu, {})]
                                       [old(toolkit.next) + 1 := Link(VlanName(c.vlanID), Vlan(c.vlanID), b, true, c.mtu, {})]
    {
      NotBothPrefixes(toolkit.links[b].name);
      var vxlan := CreateUp(Link(VxlanName(c.vni), Vxlan(c.vni), b, false, c.mtu, {}));
      if vxlan.None? {
        return false;
      }
      var trunk := toolkit.LinkByName(base.trunk);
      if trunk.None? {
        return false;
      }
      var vlan := CreateUp(Link(VlanName(c.vlanID), Vlan(c.vlanID), b, false, c.mtu, {}));
      if vlan.None? {
        return false;
      }
      ok := toolkit.Untracked();
    }

    /** CreateL2: the bridge in its VRF with its addresses, then the two ports, all up. */
    method CreateL2(c: Layer2Information) returns (ok: bool, ghost master: int)
      requires toolkit.Valid()
      modifies toolkit
      ensures toolkit.Valid() && Calm(old(toolkit.log), toolkit.log)
      ensures ok ==>
                && toolkit.links == WithNet(old(toolkit.links), old(toolkit.next), c, master)
                && AttachedTo(base, old(toolkit.links), master, c.vrf)
                && (forall i :: i in old(toolkit.links) ==> old(toolkit.links)[i].name != L2Name(c.vlanID))
                && (c.gateways != [] ==> c.hasMAC && c.vrf != "")
    {
      master := 0;
      var masterIdx := 0;
      if c.vrf != "" {
        var vrf := VrfIndexByName(c.vrf);
        if vrf.None? {
          return false, 0;
        }
        masterIdx := vrf.value;
      }
      master := masterIdx;
      if c.gateways != [] && !c.hasMAC {
        return false, master;
      }
      var bridge := SetupBridge(c, masterIdx);
      if bridge.None? {
        return false, master;
      }
      ok := SetupVXLAN(c, bridge.value);
    }

    /** setMTU */
    method SetMTU(b: int, x: int, v: int, mtu: int) returns (ok: bool)
      requires toolkit.Valid() && b in toolkit.links && x in toolkit.links && v in toolkit.links
      modifies toolkit`links
      ensures toolkit.Valid() && NetUpdated(old(toolkit.links), toolkit.links, b, x, v)
      ensures ok && b != x && b != v && x != v ==>
                toolkit.links == old(toolkit.links)[b := old(toolkit.links)[b].(mtu := mtu)]
                                                   [x := old(toolkit.links)[x].(mtu := mtu)]
                                                   [v := old(toolkit.links)[v].(mtu := mtu)]
    {
      ok := toolkit.LinkSet(b, toolkit.links[b].(mtu := mtu));
      if ok {
        ok := toolkit.LinkSet(x, toolkit.links[x].(mtu := mtu));
        if ok {
          ok := toolkit.LinkSet(v, toolkit.links[v].(mtu := mtu));
        }
      }
    }

    /** The MAC change in setHardwareAddresses: the VXLAN goes down for it and up again. */
    method ChangeMAC(x: int) returns (ok: bool)
      requires toolkit.Valid() && x in toolkit.links
      modifies toolkit
      ensures toolkit.Valid() && toolkit.next == old(toolkit.next) && Calm(old(toolkit.log), toolkit.log)
      ensures ok ==> toolkit.links == old(toolkit.links)[x := old(toolkit.links)[x].(up := true)]
    {
      ok := toolkit.LinkSet(x, toolkit.links[x].(up := false));
      if !ok {
        return;
      }
      ok := toolkit.Untracked();
      if !ok {
        return;
      }
      ok := toolkit.LinkSetUp(x);
    }

    /** reattachL2VNI: down, out of the bridge, back into it, up. */
    method ReattachVxlan(x: int, b: int) returns (ok: bool)
      requires toolkit.Valid() && x in toolkit.links && toolkit.links[x].master == b
      modifies toolkit
      ensures toolkit.Valid() && toolkit.next == old(toolkit.next) && Calm(old(toolkit.log), toolkit.log)
      ensures ok ==> toolkit.links == old(toolkit.links)[x := old(toolkit.links)[x].(up := true)]
    {
      ok := toolkit.LinkSet(x, toolkit.links[x].(up := false));
      if !ok {
        return;
      }
      ok := toolkit.LinkSet(x, toolkit.links[x].(master := 0));
      if !ok {
        return;
      }
      ok := toolkit.LinkSet(x, toolkit.links[x].(master := b));
      if !ok {
        return;
      }
      ok := toolkit.Untracked();
      if !ok {
        return;
      }
      ok := toolkit.LinkSetUp(x);
    }

    /** The VRF part of isL2VNIreattachRequired: enslave the bridge to the wanted VRF, or release it. */
    method ReattachBridge(b: int, current: string, desired: string) returns (ok: bool)
      requires toolkit.Valid() && b in toolkit.links && toolkit.links[b].kind.Bridge?
      modifies toolkit`links
      ensures toolkit.Valid() && OnlyChanges(old(toolkit.links), toolkit.links, b)
      ensures ok ==> toolkit.links[b] == old(toolkit.links)[b].(master := toolkit.links[b].master)
      ensures ok && current == VrfNameOf(old(toolkit.links), b) && ReservedAreVrfs(base, old(toolkit.links)) ==>
                VrfNameOf(toolkit.links, b) == desired
    {
      if current == desired {
        return true;
      }
      if desired == "" {
        ok := toolkit.LinkSet(b, toolkit.links[b].(master := 0));
        return;
      }
      var vrf := VrfIndexByName(desired);
      if vrf.None? {
        return false;
      }
      ok := toolkit.LinkSet(b, toolkit.links[b].(master := vrf.value));
    }

    /** setMTU and setHardwareAddresses. */
    method SetAttributes(b: int, x: int, v: int, mtu: int) returns (ok: bool)
      requires toolkit.Valid() && b in toolkit.links && x in toolkit.links && v in toolkit.links
      requires b != x && b != v && x != v
      modifies toolkit
      ensures toolkit.Valid() && Calm(old(toolkit.log), toolkit.log)
      ensures ok ==>
                && toolkit.next == old(toolkit.next) && x in toolkit.links
                && toolkit.links == old(toolkit.links)[b := old(toolkit.links)[b].(mtu := mtu)]
                                                      [x := old(toolkit.links)[x].(mtu := mtu, up := toolkit.links[x].up)]
                                                      [v := old(toolkit.links)[v].(mtu := mtu)]
    {
      ok := SetMTU(b, x, v, mtu);
      if !ok {
        return;
      }
      var newMAC: bool := *;
      if newMAC {
        ok := ChangeMAC(x);
      }
    }

    /** isL2VNIreattachRequired and reattachL2VNI. */
    method ReattachNet(b: int, x: int, current: string, desired: string) returns (ok: bool)
      requires toolkit.Valid() && b in toolkit.links
      requires toolkit.links[b].kind.Bridge? && x in toolkit.links && x != b && toolkit.links[x].master == b
      requires toolkit.links[x].kind.Vxlan?
      modifies toolkit
      ensures toolkit.Valid() && Calm(old(toolkit.log), toolkit.log)
      ensures ok ==>
                && toolkit.next == old(toolkit.next) && b in toolkit.links && x in toolkit.links
                && toolkit.links == old(toolkit.links)[b := old(toolkit.links)[b].(master := toolkit.links[b].master)]
                                                      [x := old(toolkit.links)[x].(up := toolkit.links[x].up)]
      ensures ok && current == VrfNameOf(old(toolkit.links), b) && ReservedAreVrfs(base, old(toolkit.links)) ==>
                VrfNameOf(toolkit.links, b) == desired
    {
      ok := ReattachBridge(b, current, desired);
      if !ok {
        return;
      }
      OnlyChangesIs(old(toolkit.links), toolkit.links, b);
      var learning: bool := *;
      if current != desired || learning {
        ghost var t := toolkit.links;
        ok := ReattachVxlan(x, b);
        if ok {
          assert !t[x].kind.Vrf?;
          assert VrfNameOf(toolkit.links, b) == VrfNameOf(t, b);
        }
      }
    }

    /** The body of ReconcileL2 once the three links are known. */
    method UpdateNet(b: int, x: int, v: int, current: Layer2Information, desired: Layer2Information) returns (ok: bool)
      requires toolkit.Valid() && IsL2Bridge(toolkit.links, b) && IsVxlanPort(toolkit.links, x, b) && IsVlanPort(toolkit.links, v, b)
      modifies toolkit
      ensures toolkit.Valid() && Calm(old(toolkit.log), toolkit.log)
      ensures ok ==>
                && toolkit.next == old(toolkit.next) && b in toolkit.links && x in toolkit.links
                && toolkit.links == old(toolkit.links)
                     [b := old(toolkit.links)[b].(mtu := desired.mtu, master := toolkit.links[b].master, addrs := toolkit.links[b].addrs)]
                     [x := old(toolkit.links)[x].(mtu := desired.mtu, up := toolkit.links[x].up)]
                     [v := old(toolkit.links)[v].(mtu := desired.mtu)]
      ensures ok && current.vrf == VrfNameOf(old(toolkit.links), b) && ReservedAreVrfs(base, old(toolkit.links)) ==>
                VrfNameOf(toolkit.links, b) == desired.vrf
      ensures ok && old(toolkit.links)[b].addrs == SetOf(current.gateways) ==>
                toolkit.links[b].addrs == SetOf(desired.gateways)
    {
      ghost var t := toolkit.links;
      ok := SetAttributes(b, x, v, desired.mtu);
      if !ok {
        return;
      }
      AttributesKeepNames(base, t, toolkit.links, b, x, v);
      ok := ReattachNet(b, x, current.vrf, desired.vrf);
      if !ok {
        return;
      }
      ghost var u := toolkit.links;
      ok := ReconcileAddresses(b, current.gateways, desired.gateways);
      OnlyChangesIs(u, toolkit.links, b);
      if !ok {
        return;
      }
      assert VrfNameOf(toolkit.links, b) == VrfNameOf(u, b);
      ok := toolkit.Untracked();
    }

    /**
     ReconcileL2 on an entry of ListL2. A network without its VXLAN or VLAN port ends in a nil
     dereference in the source; here it is an error.
     */
    method ReconcileL2(current: Layer2Information, desired: Layer2Information) returns (ok: bool)
      requires toolkit.Valid() && NetPresent(toolkit.links, current)
      modifies toolkit
      ensures toolkit.Valid() && Calm(old(toolkit.log), toolkit.log)
      ensures ok ==> current.vxlan.Some? && current.vlanInterface.Some? && toolkit.next == old(toolkit.next)
      ensures ok ==> NetUpdated(old(toolkit.links), toolkit.links, current.bridge, current.vxlan.value, current.vlanInterface.value)
      ensures ok ==>
                && toolkit.links[current.bridge].mtu == desired.mtu
                && toolkit.links[current.vxlan.value].mtu == desired.mtu
                && toolkit.links[current.vlanInterface.value].mtu == desired.mtu
                && (desired.gateways != [] ==> desired.hasMAC)
      ensures ok && Describes(old(toolkit.links), current) ==>
                && toolkit.links[current.bridge].addrs == SetOf(desired.gateways)
                && (ReservedAreVrfs(base, old(toolkit.links)) ==> VrfNameOf(toolkit.links, current.bridge) == desired.vrf)
    {
      hide Describes;
      if current.vxlan.None? || current.vlanInterface.None? || (desired.gateways != [] && !desired.hasMAC) {
        return false;
      }
      ghost var t := toolkit.links;
      if Describes(t, current) {
        DescribedIsPresent(t, current);
      }
      ok := UpdateNet(current.bridge, current.vxlan.value, current.vlanInterface.value, current, desired);
    }

    /** One deletion by index, in terms of what is already gone from t. */
    method DeleteIndex(ghost t: Table, i: int, ghost gone: set<int>) returns (ok: bool)
      requires toolkit.Valid() && toolkit.links == RemoveAll(t, gone)
      requires i in t && i != 0 && i !in gone && !t[i].kind.Vrf?
      modifies toolkit
      ensures toolkit.Valid() && toolkit.next == old(toolkit.next) && toolkit.log == old(toolkit.log)
      ensures toolkit.links == RemoveAll(t, if ok then gone + {i} else gone)
    {
      assert i in toolkit.links && !toolkit.links[i].kind.Vrf?;
      ok := toolkit.LinkDel(i);
      RemoveTwice(t, gone, {i});
    }
  }

  lemma AttributesKeepNames(base: Base, t: Table, u: Table, b: int, x: int, v: int)
    requires NetUpdated(t, u, b, x, v) && u[b].master == t[b].master && t[b].kind.Bridge? && t[x].kind.Vxlan? && t[v].kind.Vlan?
    ensures VrfNameOf(u, b) == VrfNameOf(t, b)
    ensures ReservedAreVrfs(base, t) ==> ReservedAreVrfs(base, u)
  {
  }

  /** Only link b differs, and its name and kind do not. */
  ghost predicate OnlyChanges(t: Table, u: Table, b: int) {
    && t.Keys == u.Keys && b in t
    && (forall i :: i in t && i != b ==> u[i] == t[i])
    && u[b].name == t[b].name && u[b].kind == t[b].kind
  }

  lemma OnlyChangesIs(t: Table, u: Table, b: int)
    requires OnlyChanges(t, u, b)
    ensures u == t[b := u[b]]
  {
    var w := t[b := u[b]];
    assert w.Keys == u.Keys;
    assert forall i :: i in u ==> u[i] == w[i];
  }

  /** The log grew by events that create no L3VNI port and delete no VRF. */
  ghost predicate Calm(log: seq<Event>, log': seq<Event>) {
    log <= log' && forall k :: |log| <= k < |log'| ==> !PortCreated(log'[k]) && !log'[k].VrfDeleted?
  }

  /** master is the index the agent enslaves a bridge of this VRF to. */
  ghost predicate AttachedTo(base: Base, t: Table, master: int, vrf: string) {
    if vrf == "" then master == 0
    else master in t && t[master].name == vrf && (!base.Reserved(vrf) ==> t[master].kind.Vrf?)
  }

  ghost function PortNames(c: VRFInformation): set<string> {
    if c.localOnly then {} else {BridgeName(c.vni), VxlanName(c.vni)}
  }

  ghost function WithUp(t: Table, names: set<string>): Table {
    map i | i in t :: if t[i].name in names then t[i].(up := true) else t[i]
  }

  lemma WithNoneUp(t: Table)
    ensures WithUp(t, {}) == t
  {
  }

  lemma WithOneUp(t: Table, i: int)
    requires UniqueNames(t) && i in t
    ensures t[i := t[i].(up := true)] == WithUp(t, {t[i].name})
  {
    var u, w := t[i := t[i].(up := true)], WithUp(t, {t[i].name});
    forall j | j in t ensures u[j] == w[j] {
      assert j == i || t[j].name != t[i].name;
    }
  }

  /** Bringing links up changes no listing and takes no port down; named ports end up up. */
  lemma WithUpKeeps(t: Table, names: set<string>, v: int)
    requires IsVrf(t, v)
    ensures SameVrf(t, WithUp(t, names), v)
    ensures PortsUp(t, v) ==> PortsUp(WithUp(t, names), v)
    ensures forall c :: HasPortsOf(t, v, c) && !c.localOnly && PortNames(c) <= names ==> PortsUp(WithUp(t, names), v)
  {
    var u := WithUp(t, names);
    assert Bridges(t, v) == Bridges(u, v);
    forall b ensures Vxlans(t, b) == Vxlans(u, b) {
    }
  }

  lemma WithUpTwice(t: Table, a: set<string>, b: set<string>)
    ensures WithUp(WithUp(t, a), b) == WithUp(t, a + b)
  {
  }

  /** What a VRF owns besides its device. */
  ghost function Children(t: Table, v: int): set<int> {
    Bridges(t, v) + VxlansOf(t, Bridges(t, v))
  }

  function VxlansOf(t: Table, bridges: set<int>): set<int> {
    set x | x in t && t[x].kind.Vxlan? && VX <= t[x].name && t[x].master in bridges
  }

  /** Whatever has the name. */
  ghost function Named(t: Table, name: string): set<int> {
    set i | i in t && t[i].name == name
  }

  lemma NamedIs(t: Table, name: string, v: int)
    requires UniqueNames(t) && v in Named(t, name)
    ensures v in t && t[v].name == name && Named(t, name) == {v}
  {
    forall i | i in Named(t, name) ensures i == v {
      assert t[i].name == t[v].name;
    }
  }

  lemma NoneNamed(t: Table, name: string)
    requires Named(t, name) == {}
    ensures forall i :: i in t ==> t[i].name != name
  {
    assert forall i :: i in t && t[i].name == name ==> i in Named(t, name);
  }

  /** What hangs on a VRF index; no index, nothing. */
  ghost function Owned(t: Table, v: int): set<int> {
    if v == 0 then {} else Children(t, v)
  }

  /** Some VRF, listed or not, has the table. */
  ghost predicate Taken(t: Table, table: int) {
    exists v :: IsVrf(t, v) && t[v].kind.table == table
  }

  lemma FamilyIsOwnedAndNamed(t: Table, v: int, name: string)
    requires UniqueNames(t) && 0 !in t
    ensures IsVrf(t, v) && t[v].name == name ==>
              Owned(t, v) + Named(t, name) == Families(t, {v}) && Named(t, name) == {v} && v !in Owned(t, v)
  {
    if IsVrf(t, v) && t[v].name == name {
      ChildrenOf(t, v);
      NamedIs(t, name, v);
    }
  }

  lemma ChildrenOf(t: Table, v: int)
    requires IsVrf(t, v) && v != 0
    ensures Children(t, v) + {v} == Families(t, {v}) && v !in Children(t, v)
  {
    forall i | i in t ensures i in Children(t, v) + {v} <==> Owner(t, i) == v {
    }
  }

  lemma ChildrenLeaveL2(t: Table, v: int, gone: set<int>)
    requires IsVrf(t, v) && gone <= Children(t, v) && v !in gone && 0 !in t
    ensures EnslavedL2(RemoveAll(t, gone), v) == EnslavedL2(t, v)
  {
    forall b | b in EnslavedL2(t, v) ensures b !in gone {
      assert t[b].name[0] == L2[0];
    }
  }

  /** New links only: everything that was there is unchanged and new indices start at lo. */
  ghost predicate Grown(t: Table, u: Table, lo: int) {
    && (forall i :: i in t ==> i in u && u[i] == t[i])
    && (forall i :: i in u && i !in t ==> lo <= i)
  }

  /** The log grew by a phase that brings up none of the ports it creates and deletes no VRF. */
  ghost predicate QuietGrowth(log: seq<Event>, log': seq<Event>, lo: int, hi: int) {
    && log <= log'
    && lo <= hi
    && NoPortUp(log'[|log|..])
    && IndicesWithin(log'[|log|..], lo, hi)
    && VrfsDeletedBare(log'[|log|..])
  }

  lemma QuietGrowthStep(log0: seq<Event>, log1: seq<Event>, log2: seq<Event>, lo: int, mid: int, hi: int)
    requires QuietGrowth(log0, log1, lo, mid) && QuietGrowth(log1, log2, mid, hi)
    ensures QuietGrowth(log0, log2, lo, hi)
  {
    var a, b := log1[|log0|..], log2[|log1|..];
    NoPortUpConcat(a, b, lo, mid, hi);
    assert log2[|log0|..] == a + b;
  }
}
