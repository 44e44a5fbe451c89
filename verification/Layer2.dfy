/**
 Layer-2 networks (pkg/nl/layer2.go, list.go): an l2.<vlan> bridge with a VXLAN and a VLAN port,
 optionally enslaved to a VRF and carrying anycast gateway addresses.
 */
module Layer2 {
  import opened Text
  import opened LinkTable
  import opened Layer3

  /** One type for configured and for listed networks, as in the source. hasMAC: an anycast MAC is set. */
  datatype Layer2Information = Layer2Information(
    vlanID: int, mtu: int, vni: int, vrf: string, hasMAC: bool, gateways: seq<Addr>,
    bridge: int := 0, vxlan: Option<int> := None, vlanInterface: Option<int> := None)

  type Config2 = seq<Layer2Information>

  function L2Name(vlanID: int): string { L2 + Itoa(vlanID) }
  function VlanName(vlanID: int): string { VLAN + Itoa(vlanID) }

  function SetOf(s: seq<Addr>): set<Addr> {
    set a | a in s
  }

  function Last(s: set<int>): (r: Option<int>)
    ensures r.None? <==> s == {}
    ensures r.Some? ==> r.value in s && forall x :: x in s ==> x <= r.value
  {
    var order := Ascending(s);
    if order == [] then
      assert s == {} by { if s != {} { var x := Inhabitant(s); } }
      None
    else
      var m := order[|order| - 1];
      assert m in s;
      assert forall x :: x in s ==> exists k :: 0 <= k < |order| && order[k] == x;
      Some(m)
  }

  function VlanPorts(t: Table, b: int): set<int> {
    set x | x in t && IsVlanPort(t, x, b)
  }

  /** The VRF a bridge is enslaved to, or "". */
  function VrfNameOf(t: Table, b: int): string
    requires b in t
  {
    if IsVrf(t, t[b].master) then t[t[b].master].name else ""
  }

  /** A listed network says what the table says; among several ports of a kind the last one counts. */
  ghost predicate Describes(t: Table, info: Layer2Information) {
    && IsL2Bridge(t, info.bridge)
    && Atoi(t[info.bridge].name[3..]) == Some(info.vlanID)
    && info.mtu == t[info.bridge].mtu
    && info.vrf == VrfNameOf(t, info.bridge)
    && SetOf(info.gateways) == t[info.bridge].addrs
    && info.vxlan == Last(Vxlans(t, info.bridge))
    && info.vlanInterface == Last(VlanPorts(t, info.bridge))
    && (info.vxlan.Some? ==> info.vni == t[info.vxlan.value].kind.vni)
  }

  /** The links a listed network refers to are still there, in their places. */
  ghost predicate NetPresent(t: Table, info: Layer2Information) {
    && IsL2Bridge(t, info.bridge)
    && (info.vxlan.Some? ==> IsVxlanPort(t, info.vxlan.value, info.bridge))
    && (info.vlanInterface.Some? ==> IsVlanPort(t, info.vlanInterface.value, info.bridge))
  }

  lemma DescribedIsPresent(t: Table, info: Layer2Information)
    requires Describes(t, info)
    ensures NetPresent(t, info)
    ensures info.vrf == VrfNameOf(t, info.bridge) && SetOf(info.gateways) == t[info.bridge].addrs
  {
  }

  ghost predicate ListsL2(t: Table, infos: seq<Layer2Information>) {
    && (forall k :: 0 <= k < |infos| ==> Describes(t, infos[k]))
    && (forall b :: IsL2Bridge(t, b) ==> exists k :: 0 <= k < |infos| && infos[k].bridge == b)
    && (forall j, k :: 0 <= j < k < |infos| ==> infos[j].bridge < infos[k].bridge)
  }

  /** Bridges are named as the agent names them, so one VLAN has one bridge. */
  ghost predicate CanonicalNames(t: Table) {
    forall b, id :: IsL2Bridge(t, b) && Atoi(t[b].name[3..]) == Some(id) ==> t[b].name == L2Name(id)
  }

  /** A link called like a reserved VRF is a VRF. */
  ghost predicate ReservedAreVrfs(base: Base, t: Table) {
    forall i :: i in t && base.Reserved(t[i].name) ==> t[i].kind.Vrf?
  }

  // ---- Frames ----

  /** Everything a listing says about the network of bridge b agrees. */
  ghost predicate SameNet(t: Table, u: Table, b: int) {
    && IsL2Bridge(t, b) && IsL2Bridge(u, b) && t[b] == u[b] && VrfNameOf(t, b) == VrfNameOf(u, b)
    && (forall x :: x in Vxlans(t, b) <==> x in Vxlans(u, b))
    && (forall x :: x in Vxlans(t, b) ==> t[x].kind == u[x].kind)
    && (forall x :: x in VlanPorts(t, b) <==> x in VlanPorts(u, b))
  }

  lemma SameNetSameInfo(t: Table, u: Table, info: Layer2Information)
    requires Describes(t, info) && SameNet(t, u, info.bridge)
    ensures Describes(u, info)
  {
    assert Vxlans(t, info.bridge) == Vxlans(u, info.bridge);
    assert VlanPorts(t, info.bridge) == VlanPorts(u, info.bridge);
  }

  lemma SameNetTransitive(t: Table, u: Table, w: Table, b: int)
    requires SameNet(t, u, b) && SameNet(u, w, b)
    ensures SameNet(t, w, b)
  {
  }

  lemma NotBothPrefixes(name: string)
    requires L2 <= name
    ensures !(BR <= name)
  {
    assert name[0] == L2[0];
  }

  lemma SameL3Transitive(t: Table, u: Table, w: Table)
    requires SameL3(t, u) && SameL3(u, w)
    ensures SameL3(t, w)
  {
    forall i | L3Relevant(t, i) ensures L3Relevant(w, i) && w[i] == t[i] {
      assert L3Relevant(u, i);
    }
    forall i | L3Relevant(w, i) ensures L3Relevant(t, i) {
      assert L3Relevant(u, i);
    }
  }

  /** The links CleanupL2 deletes. */
  function NetLinks(info: Layer2Information): set<int> {
    {info.bridge}
    + (if info.vxlan.Some? then {info.vxlan.value} else {})
    + (if info.vlanInterface.Some? then {info.vlanInterface.value} else {})
  }

  /** Deleting a bridge or ports of it touches no other network and nothing of layer 3. */
  lemma CleanupFrame(t: Table, next: int, b: int, ds: set<int>)
    requires WellFormed(t, next) && IsL2Bridge(t, b)
    requires forall d :: d in ds ==> d == b || (d in t && t[d].master == b && (t[d].kind.Vxlan? || t[d].kind.Vlan?))
    ensures SameL3(t, RemoveAll(t, ds))
    ensures forall other :: IsL2Bridge(t, other) && other != b ==> SameNet(t, RemoveAll(t, ds), other)
  {
    NotBothPrefixes(t[b].name);
    CleanupKeepsL3(t, next, b, ds);
    forall other | IsL2Bridge(t, other) && other != b ensures SameNet(t, RemoveAll(t, ds), other) {
      CleanupKeepsNet(t, next, b, ds, other);
    }
  }

  lemma CleanupKeepsL3(t: Table, next: int, b: int, ds: set<int>)
    requires WellFormed(t, next) && b in t && t[b].kind.Bridge? && !IsL3Bridge(t, b)
    requires forall d :: d in ds ==> d == b || (d in t && t[d].master == b && (t[d].kind.Vxlan? || t[d].kind.Vlan?))
    ensures SameL3(t, RemoveAll(t, ds))
  {
    var u := RemoveAll(t, ds);
    forall i | L3Relevant(t, i) ensures L3Relevant(u, i) && u[i] == t[i] {
      assert i !in ds;
      assert t[i].master !in ds;
    }
    forall i | L3Relevant(u, i) ensures L3Relevant(t, i) {
    }
  }

  lemma CleanupKeepsNet(t: Table, next: int, b: int, ds: set<int>, other: int)
    requires WellFormed(t, next) && b in t && t[b].kind.Bridge?
    requires forall d :: d in ds ==> d == b || (d in t && t[d].master == b && (t[d].kind.Vxlan? || t[d].kind.Vlan?))
    requires IsL2Bridge(t, other) && other != b
    ensures SameNet(t, RemoveAll(t, ds), other)
  {
    var u := RemoveAll(t, ds);
    assert other !in ds;
    assert t[other].master !in ds;
    forall x | x in t && t[x].master == other ensures x !in ds {
    }
  }

  // ---- Creating ----

  function WithNet(t: Table, n: int, c: Layer2Information, master: int): Table {
    t[n := Link(L2Name(c.vlanID), Bridge, master, true, c.mtu, SetOf(c.gateways))]
     [n + 1 := Link(VxlanName(c.vni), Vxlan(c.vni), n, true, c.mtu, {})]
     [n + 2 := Link(VlanName(c.vlanID), Vlan(c.vlanID), n, true, c.mtu, {})]
  }

  /** The network of bridge b is what the configuration entry asks for. */
  ghost predicate Realizes(t: Table, b: int, c: Layer2Information) {
    && IsL2Bridge(t, b)
    && t[b].name == L2Name(c.vlanID)
    && t[b].mtu == c.mtu
    && VrfNameOf(t, b) == c.vrf
    && t[b].addrs == SetOf(c.gateways)
  }

  /** Old links are as they were; the new ones are the bridge n and its two ports. */
  lemma WithNetAdds(t: Table, n: int, c: Layer2Information, master: int)
    requires WellFormed(t, n)
    ensures var u := WithNet(t, n, c, master);
            && (forall i :: i in t ==> i in u && u[i] == t[i])
            && (forall i :: i in u && i !in t ==> n <= i && !u[i].kind.Vrf? && (i != n ==> u[i].master == n && !u[i].kind.Bridge?))
            && n in u && L2 <= u[n].name && !(BR <= u[n].name)
  {
    hide Itoa;
    NotBothPrefixes(L2Name(c.vlanID));
  }

  /** Listing after creating recovers what was created, and all three links are up. */
  lemma CreateThenListNet(t: Table, n: int, c: Layer2Information, master: int, info: Layer2Information)
    requires WellFormed(t, n) && (master == 0 || master in t)
    requires Describes(WithNet(t, n, c, master), info) && info.bridge == n
    ensures info.vlanID == c.vlanID && info.vni == c.vni && info.mtu == c.mtu && SetOf(info.gateways) == SetOf(c.gateways)
    ensures info.vrf == if IsVrf(t, master) then t[master].name else ""
    ensures var u := WithNet(t, n, c, master);
            && info.vxlan.Some? && info.vlanInterface.Some? && u[n].up && u[info.vxlan.value].up && u[info.vlanInterface.value].up
            && u[info.vxlan.value].kind == Vxlan(c.vni) && u[info.vlanInterface.value].kind == Vlan(c.vlanID)
            && u[info.vxlan.value].mtu == u[info.vlanInterface.value].mtu == c.mtu
  {
    AtoiItoa(c.vlanID);
    hide Itoa;
    hide Atoi;
    assert L2Name(c.vlanID)[3..] == Itoa(c.vlanID);
    PortsOfNet(t, n, c, master);
    hide Vxlans;
    hide VlanPorts;
    hide L2Name;
    hide VxlanName;
    hide VlanName;
  }

  lemma PortsOfNet(t: Table, n: int, c: Layer2Information, master: int)
    requires WellFormed(t, n)
    ensures Vxlans(WithNet(t, n, c, master), n) == {n + 1} && VlanPorts(WithNet(t, n, c, master), n) == {n + 2}
  {
    hide Itoa;
    var u := WithNet(t, n, c, master);
    assert IsVxlanPort(u, n + 1, n) && IsVlanPort(u, n + 2, n);
    assert forall i :: i in t ==> t[i].master != n;
  }

  lemma CreateNetFrame(t: Table, n: int, c: Layer2Information, master: int)
    requires WellFormed(t, n) && (master == 0 || master in t)
    ensures SameL3(t, WithNet(t, n, c, master))
    ensures forall b :: IsL2Bridge(t, b) ==> SameNet(t, WithNet(t, n, c, master), b)
    ensures forall b :: IsL2Bridge(WithNet(t, n, c, master), b) ==> b == n || IsL2Bridge(t, b)
    ensures forall other :: NetPresent(t, other) ==> NetPresent(WithNet(t, n, c, master), other)
  {
    WithNetAdds(t, n, c, master);
    hide WithNet;
    var u := WithNet(t, n, c, master);
    forall i | L3Relevant(t, i) ensures L3Relevant(u, i) && u[i] == t[i] {
    }
    forall i | L3Relevant(u, i) ensures L3Relevant(t, i) {
    }
    forall b | IsL2Bridge(t, b) ensures SameNet(t, u, b) {
      OldNetKept(t, u, n, b);
    }
  }

  lemma OldNetKept(t: Table, u: Table, n: int, b: int)
    requires WellFormed(t, n) && IsL2Bridge(t, b)
    requires forall i :: i in t ==> i in u && u[i] == t[i]
    requires forall i :: i in u && i !in t ==> n <= i
    requires forall i :: i in u && i !in t && (u[i].kind.Vxlan? || u[i].kind.Vlan?) ==> u[i].master >= n
    ensures SameNet(t, u, b)
  {
    assert t[b].master in t ==> u[t[b].master] == t[t[b].master];
    assert t[b].master == 0 || t[b].master in t;
  }

  // ---- Reconciling ----

  /** What ReconcileL2 may change: the bridge's MTU, master and addresses, its ports' MTU and state. */
  ghost predicate NetUpdated(t: Table, u: Table, b: int, x: int, v: int) {
    && t.Keys == u.Keys && b in t && x in t && v in t
    && (forall i :: i in t && i != b && i != x && i != v ==> u[i] == t[i])
    && u[b].name == t[b].name && u[b].kind == t[b].kind
    && u[x].name == t[x].name && u[x].kind == t[x].kind && u[x].master == t[x].master
    && u[v].name == t[v].name && u[v].kind == t[v].kind && u[v].master == t[v].master
  }

  lemma ReconcileFrame(t: Table, u: Table, next: int, info: Layer2Information)
    requires WellFormed(t, next) && NetPresent(t, info) && info.vxlan.Some? && info.vlanInterface.Some?
    requires NetUpdated(t, u, info.bridge, info.vxlan.value, info.vlanInterface.value)
    ensures SameL3(t, u)
    ensures forall b :: IsL2Bridge(t, b) && b != info.bridge ==> SameNet(t, u, b)
    ensures forall b :: IsL2Bridge(u, b) <==> IsL2Bridge(t, b)
    ensures forall other :: NetPresent(t, other) ==> NetPresent(u, other)
  {
    NotBothPrefixes(t[info.bridge].name);
    forall i | L3Relevant(t, i) ensures L3Relevant(u, i) && u[i] == t[i] {
    }
    forall i | L3Relevant(u, i) ensures L3Relevant(t, i) {
    }
    forall b | IsL2Bridge(t, b) && b != info.bridge ensures SameNet(t, u, b) {
    }
  }

  // ---- Layer-3 changes leave layer 2 alone ----

  ghost predicate SameL2(t: Table, u: Table) {
    && (forall b :: IsL2Bridge(t, b) ==> SameNet(t, u, b))
    && (forall b :: IsL2Bridge(u, b) ==> IsL2Bridge(t, b))
  }

  lemma SameL2Transitive(t: Table, u: Table, w: Table)
    requires SameL2(t, u) && SameL2(u, w)
    ensures SameL2(t, w)
  {
    forall b | IsL2Bridge(t, b) ensures SameNet(t, w, b) {
      SameNetTransitive(t, u, w, b);
    }
  }

  /** Deleting VRFs that no l2.* bridge is enslaved to. */
  lemma DeleteVrfsKeepsL2(t: Table, next: int, vs: set<int>)
    requires WellFormed(t, next) && 0 !in vs
    requires forall v :: v in vs ==> IsVrf(t, v)
    requires forall b :: IsL2Bridge(t, b) ==> t[b].master !in vs
    ensures SameL2(t, RemoveAll(t, Families(t, vs)))
  {
    var ds := Families(t, vs);
    var u := RemoveAll(t, ds);
    forall b | IsL2Bridge(t, b) ensures SameNet(t, u, b) {
      NotBothPrefixes(t[b].name);
      assert b !in ds;
      assert t[b].master !in ds;
      forall x | x in t && t[x].master == b && !t[x].kind.Vrf? ensures x !in ds {
      }
    }
  }

  lemma CreateVrfKeepsL2(t: Table, n: int, c: VRFInformation, table: int)
    requires WellFormed(t, n)
    ensures SameL2(t, WithVrf(t, n, c, table))
  {
    WithVrfExtends(t, n, c, table);
    WithVrfPorts(t, n, c, table);
    hide WithVrf;
    var u := WithVrf(t, n, c, table);
    forall b | IsL2Bridge(t, b) ensures SameNet(t, u, b) {
      OldNetKept(t, u, n, b);
    }
  }

  lemma WithVrfPorts(t: Table, n: int, c: VRFInformation, table: int)
    requires WellFormed(t, n)
    ensures var u := WithVrf(t, n, c, table);
            forall i :: i in u && i !in t && (u[i].kind.Vxlan? || u[i].kind.Vlan?) ==> u[i].master >= n
  {
    hide Itoa;
  }
}
