/**
 The kernel's link table as pkg/nl sees it, and the toolkit calls that change it.

 A link has an ifindex, a unique name, a kind and a master (0 for none). Indices are fresh:
 a deleted index is not handed out again. Deleting a link releases the links enslaved to it.
 Every toolkit call may fail, and a failed call changes nothing.
 */
module LinkTable {
  import opened Text

  const BR := "br."
  const VX := "vx."
  const L2 := "l2."
  const VLAN := "vlan."
  const DEFAULT_MTU := 9000

  /** An address of universe scope: family, address and prefix length. */
  datatype Addr = Addr(v6: bool, ip: nat, prefixLen: nat)

  datatype Kind =
    | Vrf(table: int)
    | Bridge
    | Vxlan(vni: int)
    | Vlan(vlanID: int)
    | Other

  datatype Link = Link(name: string, kind: Kind, master: int, up: bool, mtu: int, addrs: set<Addr>)

  type Table = map<int, Link>

  /** What the agent's base configuration says about links: the two VRFs it must not manage. */
  datatype Base = Base(clusterVRF: string, managementVRF: string, trunk: string) {
    predicate Reserved(name: string) {
      name == clusterVRF || name == managementVRF
    }
  }

  predicate UniqueNames(t: Table) {
    forall i, j :: i in t && j in t && t[i].name == t[j].name ==> i == j
  }

  /** What the kernel lets be enslaved to what: VRFs to nothing, bridges not to bridges. */
  predicate MasterFits(kind: Kind, master: Kind) {
    !kind.Vrf? && !master.Vxlan? && !master.Vlan? && !(kind.Bridge? && master.Bridge?)
  }

  predicate MayEnslave(t: Table, l: Link) {
    l.master == 0 || (l.master in t && MasterFits(l.kind, t[l.master].kind))
  }

  predicate MastersFit(t: Table) {
    forall i :: i in t ==> MayEnslave(t, t[i])
  }

  /** next is above every index in use, so a new link is enslaved to nothing stale and has no slaves. */
  predicate WellFormed(t: Table, next: int) {
    && next > 0
    && (forall i :: i in t ==> 0 < i < next)
    && UniqueNames(t)
    && MastersFit(t)
  }

  /** Deleting the links ds: their slaves lose their master. */
  function RemoveAll(t: Table, ds: set<int>): (r: Table)
    ensures r.Keys == t.Keys - ds
  {
    map i | i in t && i !in ds :: if t[i].master in ds then t[i].(master := 0) else t[i]
  }

  lemma RemoveNone(t: Table)
    ensures RemoveAll(t, {}) == t
  {
  }

  lemma RemoveTwice(t: Table, ds: set<int>, es: set<int>)
    requires 0 !in es
    ensures RemoveAll(RemoveAll(t, ds), es) == RemoveAll(t, ds + es)
  {
  }

  lemma RemoveKeepsWellFormed(t: Table, next: int, ds: set<int>)
    requires WellFormed(t, next)
    ensures WellFormed(RemoveAll(t, ds), next)
  {
  }

  // ---- Classification by kind, name prefix and master ----

  predicate IsL3Bridge(t: Table, b: int) {
    b in t && t[b].kind.Bridge? && BR <= t[b].name
  }

  predicate IsL2Bridge(t: Table, b: int) {
    b in t && t[b].kind.Bridge? && L2 <= t[b].name
  }

  predicate IsVxlanPort(t: Table, x: int, b: int) {
    x in t && t[x].kind.Vxlan? && VX <= t[x].name && t[x].master == b
  }

  predicate IsVlanPort(t: Table, x: int, b: int) {
    x in t && t[x].kind.Vlan? && VLAN <= t[x].name && t[x].master == b
  }

  /** An L3VNI port: a br.* bridge, or a vx.* VXLAN enslaved to one. */
  predicate IsL3Port(t: Table, l: Link) {
    || (l.kind.Bridge? && BR <= l.name)
    || (l.kind.Vxlan? && VX <= l.name && IsL3Bridge(t, l.master))
  }

  /** Every link that was not there before is down, VRF devices aside. */
  ghost predicate NewPortsDown(t: Table, u: Table) {
    forall i :: i in u && i !in t && !u[i].kind.Vrf? ==> !u[i].up
  }

  lemma NewPortsDownTrans(t: Table, u: Table, x: Table)
    requires NewPortsDown(t, u) && NewPortsDown(u, x) && forall i :: i in u && i in x ==> x[i] == u[i]
    ensures NewPortsDown(t, x)
  {
  }

  // ---- The order of a link dump ----

  predicate StrictlyAscending(s: seq<int>) {
    forall i, j :: 0 <= i < j < |s| ==> s[i] < s[j]
  }

  lemma {:induction false} LeastExists(s: set<int>) returns (m: int)
    requires s != {}
    ensures m in s && forall x :: x in s ==> m <= x
  {
    var pick := Inhabitant(s);
    m := pick;
    if s != {pick} {
      var least := LeastExists(s - {pick});
      assert forall x :: x in s ==> x == pick || x in s - {pick};
      m := if least < pick then least else pick;
    }
  }

  /** A link dump walks the indices in ascending order. */
  function Ascending(s: set<int>): (r: seq<int>)
    ensures forall x :: x in r <==> x in s
    ensures StrictlyAscending(r)
  {
    if s == {} then []
    else
      assert exists m :: m in s && forall x :: x in s ==> m <= x by { var m := LeastExists(s); }
      var m :| m in s && forall x :: x in s ==> m <= x;
      [m] + Ascending(s - {m})
  }

  // ---- The toolkit ----

  /** What a run did, in order: the part the ordering guarantees speak about. */
  datatype Event =
    | Created(index: int, l3Port: bool)
    | SetUp(index: int)
    | VrfDeleted(index: int, enslavedL2: set<int>)
    | FrrReloaded

  class Toolkit {
    var links: Table
    var next: int
    ghost var log: seq<Event>

    ghost predicate Valid()
      reads this
    {
      WellFormed(links, next)
    }

    constructor ()
      ensures Valid() && links == map[] && log == []
    {
      links, next, log := map[], 1, [];
    }

    /** A call that changes nothing the model tracks (sysctl writes, port flags): it can only fail. */
    method Untracked() returns (ok: bool) {
      ok := *;
    }

    method LinkList() returns (ok: bool, order: seq<int>)
      ensures ok ==> order == Ascending(links.Keys)
    {
      ok := *;
      order := Ascending(links.Keys);
    }

    method LinkByName(name: string) returns (r: Option<int>)
      ensures r.Some? ==> r.value in links && links[r.value].name == name
    {
      r := None;
      var available: bool := *;
      var order := Ascending(links.Keys);
      for k := 0 to |order|
        invariant r.Some? ==> r.value in links && links[r.value].name == name
      {
        if available && links[order[k]].name == name {
          r := Some(order[k]);
        }
      }
    }

    /** Adding a link needs an unused name and an existing master; the link gets the next index. */
    method LinkAdd(l: Link) returns (r: Option<int>)
      requires Valid()
      modifies this
      ensures Valid()
      ensures r.None? ==> unchanged(this)
      ensures r.Some? ==>
                && r.value == old(next)
                && next == old(next) + 1
                && links == old(links)[old(next) := l]
                && (forall i :: i in old(links) ==> old(links)[i].name != l.name)
                && MayEnslave(old(links), l)
                && log == old(log) + [Created(old(next), IsL3Port(old(links), l))] + (if l.up then [SetUp(old(next))] else [])
    {
      var available: bool := *;
      var unused := forall i :: i in links ==> links[i].name != l.name;
      if !available || !unused || !MayEnslave(links, l) {
        return None;
      }
      r := Some(next);
      log := log + [Created(next, IsL3Port(links, l))] + (if l.up then [SetUp(next)] else []);
      links := links[next := l];
      next := next + 1;
    }

    method LinkDel(i: int) returns (ok: bool)
      requires Valid()
      modifies this
      ensures Valid() && next == old(next)
      ensures !ok ==> unchanged(this)
      ensures ok ==>
                && i in old(links)
                && links == RemoveAll(old(links), {i})
                && log == old(log) + DeletionEvents(old(links), i)
    {
      ok := *;
      if !ok || i !in links {
        return false;
      }
      RemoveKeepsWellFormed(links, next, {i});
      log := log + DeletionEvents(links, i);
      links := RemoveAll(links, {i});
    }

    /** deleteLink: an absent name counts as deleted. */
    method DeleteLink(name: string) returns (ok: bool)
      requires Valid()
      modifies this
      ensures Valid() && next == old(next)
      ensures (forall j :: j in old(links) ==> old(links)[j].name != name) ==> unchanged(this)
      ensures !ok ==> unchanged(this)
      ensures ok ==> forall j :: j in old(links) && old(links)[j].name == name ==>
                && links == RemoveAll(old(links), {j})
                && log == old(log) + DeletionEvents(old(links), j)
    {
      ok := *;
      if !ok {
        return;
      }
      if i :| i in links && links[i].name == name {
        RemoveKeepsWellFormed(links, next, {i});
        log := log + DeletionEvents(links, i);
        links := RemoveAll(links, {i});
      }
    }

    method LinkSetUp(i: int) returns (ok: bool)
      requires Valid()
      modifies this
      ensures Valid() && next == old(next)
      ensures !ok ==> unchanged(this)
      ensures ok ==>
                && i in old(links)
                && links == old(links)[i := old(links)[i].(up := true)]
                && log == old(log) + [SetUp(i)]
    {
      ok := *;
      if !ok || i !in links {
        return false;
      }
      links := links[i := links[i].(up := true)];
      log := log + [SetUp(i)];
    }

    /** Changes of one link's attributes that leave its name and kind alone and do not bring it up. */
    method LinkSet(i: int, l: Link) returns (ok: bool)
      requires Valid()
      requires i in links ==> l.name == links[i].name && l.kind == links[i].kind && (l.up ==> links[i].up)
      modifies this`links
      ensures Valid()
      ensures !ok ==> links == old(links)
      ensures ok ==>
                && i in old(links)
                && MayEnslave(old(links), l)
                && links == old(links)[i := l]
    {
      ok := *;
      if !ok || i !in links || !MayEnslave(links, l) {
        return false;
      }
      links := links[i := l];
    }

    /** The addresses of a link, in some order. */
    method AddrList(i: int) returns (ok: bool, list: seq<Addr>)
      requires i in links
      ensures ok ==> (set a | a in list) == links[i].addrs
    {
      ok := *;
      list := [];
      var rest := links[i].addrs;
      while rest != {}
        invariant rest <= links[i].addrs && (set a | a in list) == links[i].addrs - rest
        decreases rest
      {
        assert exists a :: a in rest by { var a := Inhabitant(rest); }
        var a :| a in rest;
        assert (set b | b in list + [a]) == (set b | b in list) + {a};
        list := list + [a];
        rest := rest - {a};
      }
    }

    /** reloadFRR: a reload, or a restart when the reload fails. */
    method ReloadFrr() returns (ok: bool)
      modifies this`log
      ensures log == if ok then old(log) + [FrrReloaded] else old(log)
    {
      var reloaded: bool := *;
      var restarted: bool := *;
      ok := reloaded || restarted;
      if ok {
        log := log + [FrrReloaded];
      }
    }
  }

  ghost function DeletionEvents(t: Table, i: int): seq<Event>
    requires i in t
  {
    if t[i].kind.Vrf?
    then [VrfDeleted(i, set b | b in t && IsL2Bridge(t, b) && t[b].master == i)]
    else []
  }
}
