/**
 Links, clsact hooks and tc filters as the traffic mirror sees them (pkg/nl/mirror.go).

 Every call may fail, and a failed call changes nothing. Indices are never reused; deleting a link
 releases its slaves and takes its filters with it.
 */
module MirrorKernel {
  import opened Text
  import opened LinkTable
  import MirrorMatch

  /** Mirror filters live at priorities from here on; the forwarding filters are below. */
  const BASE := 0x8000
  const LAST := 0xffff

  datatype IP = V4(address: nat) | V6(address: nat)

  datatype DeviceKind = VrfDevice | Dummy | Gre(layer2: bool, local: IP, remote: IP, key: nat) | OtherDevice

  /** An interface address; the link-local ones belong to the kernel. */
  datatype DeviceAddr = DeviceAddr(linkLocal: bool, id: nat)

  datatype Device = Device(name: string, kind: DeviceKind, master: int, up: bool, addrs: set<DeviceAddr>)

  datatype AddResult = Added | Existed | Failed

  type Devices = map<int, Device>

  datatype Hook = Ingress | Egress

  datatype Body = Mirror(flower: MirrorMatch.Flower, target: int) | Forwarding(id: nat)

  datatype Filter = Filter(link: int, hook: Hook, prio: nat, body: Body)

  function Without(t: Devices, i: int): Devices {
    map j | j in t && j != i :: if t[j].master == i then t[j].(master := 0) else t[j]
  }

  function OnLinks(fs: set<Filter>, t: Devices): set<Filter> {
    set f | f in fs && f.link in t
  }

  class Kernel {
    var links: Devices
    var next: int
    var clsact: set<int>
    var filters: set<Filter>
    const unreadable: set<int> // the links whose filters cannot always be listed, say for want of a clsact qdisc

    ghost predicate Valid()
      reads this
    {
      && next > 0
      && (forall i :: i in links ==> 0 < i < next)
      && (forall i, j :: i in links && j in links && links[i].name == links[j].name ==> i == j)
      && (forall f :: f in filters ==> f.link in links)
    }

    constructor (unreadable: set<int>)
      ensures Valid() && links == map[] && filters == {} && this.unreadable == unreadable
    {
      links, next, clsact, filters := map[], 1, {}, {};
      this.unreadable := unreadable;
    }

    method LinkList() returns (ok: bool, order: seq<int>)
      ensures ok ==> order == Ascending(links.Keys)
    {
      ok := *;
      order := Ascending(links.Keys);
    }

    method LinkByName(name: string) returns (r: Option<int>)
      ensures r.Some? ==> r.value in links && links[r.value].name == name
    {
      var available: bool := *;
      r := None;
      if available {
        if i :| i in links && links[i].name == name {
          r := Some(i);
        }
      }
    }

    method LinkAdd(d: Device) returns (r: Option<int>)
      requires Valid()
      modifies this`links, this`next
      ensures Valid()
      ensures r.None? ==> links == old(links) && next == old(next)
      ensures r.Some? ==> r.value == old(next) && next == old(next) + 1 && links == old(links)[old(next) := d]
      ensures r.Some? ==> d.master == 0 || d.master in old(links)
    {
      var available: bool := *;
      if !available || (d.master != 0 && d.master !in links) || exists i :: i in links && links[i].name == d.name {
        return None;
      }
      r := Some(next);
      links := links[next := d];
      next := next + 1;
    }

    method LinkDel(i: int) returns (ok: bool)
      requires Valid()
      modifies this`links, this`filters
      ensures Valid()
      ensures !ok ==> links == old(links) && filters == old(filters)
      ensures ok ==> i in old(links) && links == Without(old(links), i) && filters == OnLinks(old(filters), links)
    {
      ok := *;
      if !ok || i !in links {
        return false;
      }
      links := Without(links, i);
      filters := OnLinks(filters, links);
    }

    method LinkSetUp(i: int) returns (ok: bool)
      requires Valid()
      modifies this`links
      ensures Valid()
      ensures !ok ==> links == old(links)
      ensures ok ==> i in old(links) && links == old(links)[i := old(links)[i].(up := true)]
    {
      ok := *;
      if !ok || i !in links {
        return false;
      }
      links := links[i := links[i].(up := true)];
    }

    method AddrList(i: int) returns (ok: bool, list: seq<DeviceAddr>)
      requires i in links
      ensures ok ==> forall a :: a in list <==> a in links[i].addrs
    {
      ok := *;
      list := [];
      var rest := links[i].addrs;
      while rest != {}
        invariant forall a :: a in list || a in rest <==> a in links[i].addrs
        decreases rest
      {
        assert exists a :: a in rest by { var a := Inhabitant(rest); }
        var a :| a in rest;
        list := list + [a];
        rest := rest - {a};
      }
    }

    method AddrAdd(i: int, a: DeviceAddr) returns (r: AddResult)
      requires Valid() && i in links
      modifies this`links
      ensures Valid()
      ensures r.Added? ==> links == old(links)[i := old(links)[i].(addrs := old(links)[i].addrs + {a})]
      ensures !r.Added? ==> links == old(links)
      ensures r.Existed? ==> a in links[i].addrs
    {
      var available: bool := *;
      if !available {
        return Failed;
      }
      if a in links[i].addrs {
        return Existed;
      }
      links := links[i := links[i].(addrs := links[i].addrs + {a})];
      return Added;
    }

    method AddrDel(i: int, a: DeviceAddr) returns (ok: bool)
      requires Valid() && i in links
      modifies this`links
      ensures Valid()
      ensures links == if ok then old(links)[i := old(links)[i].(addrs := old(links)[i].addrs - {a})] else old(links)
    {
      ok := *;
      if ok {
        links := links[i := links[i].(addrs := links[i].addrs - {a})];
      }
    }

    /** ensureClsactQdisc */
    method EnsureClsact(i: int) returns (ok: bool)
      modifies this`clsact
      ensures clsact == old(clsact) || clsact == old(clsact) + {i}
      ensures ok ==> i in clsact
    {
      ok := *;
      if ok && i !in clsact {
        ok := *;
        if ok {
          clsact := clsact + {i};
        }
      }
    }

    method FilterList(i: int, hook: Hook) returns (ok: bool, list: seq<Filter>)
      ensures !ok ==> i in unreadable
      ensures ok ==> forall f :: f in list <==> f in filters && f.link == i && f.hook == hook
    {
      ok := *;
      if i !in unreadable {
        ok := true;
      }
      list := [];
      var rest := set f | f in filters && f.link == i && f.hook == hook;
      while rest != {}
        invariant forall f :: f in list || f in rest <==> f in filters && f.link == i && f.hook == hook
        decreases rest
      {
        assert exists f :: f in rest by { var f := Inhabitant(rest); }
        var f :| f in rest;
        list := list + [f];
        rest := rest - {f};
      }
    }

    method FilterDel(f: Filter) returns (ok: bool)
      requires Valid()
      modifies this`filters
      ensures Valid()
      ensures !ok ==> filters == old(filters)
      ensures ok ==> filters == old(filters) - {f}
    {
      ok := *;
      if ok {
        filters := filters - {f};
      }
    }

    method FilterAdd(f: Filter) returns (ok: bool)
      requires Valid() && f.link in links
      modifies this`filters
      ensures Valid()
      ensures !ok ==> filters == old(filters)
      ensures ok ==> filters == old(filters) + {f}
    {
      ok := *;
      if ok {
        filters := filters + {f};
      }
    }
  }
}
