/**
 Entering learned neighbors into a bridge's table and announcing the ones that moved
 (pkg/neighborsync/neighborsync.go), and why relayed announcements die out.
 */
module NeighborSync {
  import opened Text
  import opened BpfNeighbor

  type Address = seq<Byte>

  datatype Key = Key(bridge: int, ip: Address)

  /** A neighbor learned on a port of a bridge; announcements have the same shape. */
  datatype Neighbor = Neighbor(bridge: int, ip: Address, mac: Address)

  type Table = map<Key, Address>

  function MacOf(t: Table, k: Key): Option<Address> {
    if k in t then Some(t[k]) else None
  }

  /** Whether entering n changes what the table says. */
  predicate Moves(t: Table, n: Neighbor) {
    MacOf(t, Key(n.bridge, n.ip)) != Some(n.mac)
  }

  /** The bridge announces, and the address is one that can be announced. */
  predicate Announces(gratuitous: set<int>, n: Neighbor) {
    n.bridge in gratuitous && |n.ip| in {4, 16}
  }

  /** The table once the neighbor is entered, and what is announced then. */
  function Entered(t: Table, n: Neighbor): Table {
    t[Key(n.bridge, n.ip) := n.mac]
  }

  function Spread(t: Table, gratuitous: set<int>, n: Neighbor): seq<Neighbor> {
    if Announces(gratuitous, n) && Moves(t, n) then [n] else []
  }

  class NeighborSync {
    var masters: map<int, int>
    var neighbors: Table
    var gratuitous: set<int>
    var received: set<int> // the interfaces whose events are taken
    var announced: seq<Neighbor>

    constructor (m: map<int, int>, g: set<int>, r: set<int>)
      ensures masters == m && gratuitous == g && received == r && neighbors == map[] && announced == []
    {
      masters, gratuitous, received, neighbors, announced := m, g, r, map[], [];
    }

    /** The entries of a bridge in the family of ip, in some order. */
    method NeighList(bridge: int, width: nat) returns (ok: bool, list: seq<Neighbor>)
      ensures !ok ==> list == []
      ensures ok ==> forall n :: n in list <==>
                n.bridge == bridge && |n.ip| == width && Key(bridge, n.ip) in neighbors && neighbors[Key(bridge, n.ip)] == n.mac
      ensures forall i, j :: 0 <= i < j < |list| ==> list[i].ip != list[j].ip
    {
      list := [];
      ok := *;
      if !ok {
        return;
      }
      var rest := set k | k in neighbors && k.bridge == bridge && |k.ip| == width;
      ghost var all := rest;
      while rest != {}
        invariant rest <= all
        invariant forall n :: n in list <==> Key(n.bridge, n.ip) in all - rest && neighbors[Key(n.bridge, n.ip)] == n.mac
        invariant forall i, j :: 0 <= i < j < |list| ==> list[i].ip != list[j].ip
        decreases rest
      {
        assert exists k :: k in rest by { var k := Inhabitant(rest); }
        var k :| k in rest;
        var n := Neighbor(bridge, k.ip, neighbors[k]);
        assert forall i :: 0 <= i < |list| ==> list[i] in list && list[i].ip != k.ip;
        list := list + [n];
        rest := rest - {k};
      }
    }

    /** listed is false when the table could not be read; then the address counts as moved. */
    method ReplaceNeighborReachable(ifindex: int, ip: Address, mac: Address) returns (ok: bool, ghost listed: bool)
      modifies this
      ensures masters == old(masters) && gratuitous == old(gratuitous) && received == old(received)
      ensures !ok ==> neighbors == old(neighbors) && announced == old(announced)
      ensures ok ==>
                && ifindex in masters && masters[ifindex] != 0 && ip != [] && |mac| == 6
                && neighbors == old(neighbors)[Key(masters[ifindex], ip) := mac]
                && var n := Neighbor(masters[ifindex], ip, mac);
                   announced == old(announced)
                                + (if Announces(gratuitous, n) && (!listed || Moves(old(neighbors), n)) then [n] else [])
    {
      listed := true;
      if ip == [] || |mac| != 6 {
        return false, listed;
      }
      ok := *; // LinkByIndex
      if !ok || ifindex !in masters || masters[ifindex] == 0 {
        return false, listed;
      }
      var bridge := masters[ifindex];
      var n := Neighbor(bridge, ip, mac);
      var macChanged := true;
      var read, existing := NeighList(bridge, |ip|);
      listed := read;
      for i := 0 to |existing|
        invariant macChanged && forall j :: 0 <= j < i ==> existing[j].ip != ip
      {
        if existing[i].ip == ip {
          if existing[i].mac == mac {
            macChanged := false;
          }
          assert existing[i] in existing;
          break;
        }
      }
      assert read ==> (macChanged <==> Moves(neighbors, n)) by {
        if read && Key(bridge, ip) in neighbors {
          var e := Neighbor(bridge, ip, neighbors[Key(bridge, ip)]);
          assert e in existing;
        }
      }
      ok := *; // NeighSet
      if !ok {
        return;
      }
      neighbors := neighbors[Key(bridge, ip) := mac];
      if macChanged && bridge in gratuitous && |ip| in {4, 16} {
        announced := announced + [n];
      }
    }

    /** One round of runBpfNeighborSync: a short record or one of another interface is skipped. */
    method TakeRecord(record: seq<Byte>) returns (ok: bool, ghost listed: bool)
      modifies this
      ensures masters == old(masters) && gratuitous == old(gratuitous) && received == old(received)
      ensures var d := Delivered(masters, received, record);
              ok && listed ==> if d == [] then unchanged(this) else
                && d[0].bridge != 0 && neighbors == Entered(old(neighbors), d[0])
                && announced == old(announced) + Spread(old(neighbors), gratuitous, d[0])
    {
      ok, listed := true, true;
      var e := DecodeEvent(record);
      if e.Some? && e.value.ifindex in received {
        ok, listed := ReplaceNeighborReachable(e.value.ifindex, AddressIn(e.value), e.value.mac);
      }
    }

    /** runBpfNeighborSync: errors are only logged. When every call succeeds, the run is that of the records as bridge neighbors. */
    method RunRecords(records: seq<seq<Byte>>) returns (ok: bool, ghost listed: bool)
      modifies this
      ensures masters == old(masters) && gratuitous == old(gratuitous) && received == old(received)
      ensures ok && listed ==>
                && (forall n :: n in OnBridges(masters, received, records) ==> n.bridge != 0)
                && neighbors == TableAfter(old(neighbors), OnBridges(masters, received, records))
                && announced == old(announced) + Announced(old(neighbors), gratuitous, OnBridges(masters, received, records))
    {
      ok, listed := true, true;
      ghost var t, past := neighbors, announced;
      hide Delivered;
      hide Entered;
      hide Spread;
      for i := 0 to |records|
        invariant masters == old(masters) && gratuitous == old(gratuitous) && received == old(received)
        invariant ok && listed ==>
                    && (forall n :: n in OnBridges(masters, received, records[..i]) ==> n.bridge != 0)
                    && neighbors == TableAfter(t, OnBridges(masters, received, records[..i]))
                    && announced == past + Announced(t, gratuitous, OnBridges(masters, received, records[..i]))
      {
        assert records[..i + 1] == records[..i] + [records[i]];
        OneMoreRecord(masters, received, records[..i], records[i]);
        OneMoreEvent(t, gratuitous, OnBridges(masters, received, records[..i]), Delivered(masters, received, records[i]));
        var done;
        ghost var read;
        done, read := TakeRecord(records[i]);
        ok, listed := ok && done, listed && read;
      }
      assert records[..|records|] == records;
    }
  }

  function MasterOf(masters: map<int, int>, ifindex: int): int {
    if ifindex in masters then masters[ifindex] else 0
  }

  /** What one record brings: nothing if it is short or not taken; an interface without a bridge is on bridge 0. */
  function Delivered(masters: map<int, int>, received: set<int>, record: seq<Byte>): (d: seq<Neighbor>)
    ensures |d| <= 1
  {
    var e := DecodeEvent(record);
    if e.None? || e.value.ifindex !in received then []
    else [Neighbor(MasterOf(masters, e.value.ifindex), AddressIn(e.value), e.value.mac)]
  }

  function OnBridges(masters: map<int, int>, received: set<int>, records: seq<seq<Byte>>): seq<Neighbor> {
    if records == [] then []
    else
      var m := |records| - 1;
      OnBridges(masters, received, records[..m]) + Delivered(masters, received, records[m])
  }

  lemma OneMoreEvent(t: Table, gratuitous: set<int>, events: seq<Neighbor>, d: seq<Neighbor>)
    requires |d| <= 1
    ensures TableAfter(t, events + d) == if d == [] then TableAfter(t, events) else Entered(TableAfter(t, events), d[0])
    ensures Announced(t, gratuitous, events + d)
            == Announced(t, gratuitous, events) + if d == [] then [] else Spread(TableAfter(t, events), gratuitous, d[0])
  {
    if d == [] {
      assert events + d == events;
    } else {
      assert (events + d)[..|events|] == events && d == [d[0]];
    }
  }

  // ---- Sequences of events ----

  function TableAfter(t: Table, events: seq<Neighbor>): Table {
    if events == [] then t
    else
      var n := events[|events| - 1];
      Entered(TableAfter(t, events[..|events| - 1]), n)
  }

  /** What is announced while the events are entered one after the other and every read succeeds. */
  function Announced(t: Table, gratuitous: set<int>, events: seq<Neighbor>): seq<Neighbor> {
    if events == [] then []
    else
      var init, n := events[..|events| - 1], events[|events| - 1];
      Announced(t, gratuitous, init) + Spread(TableAfter(t, init), gratuitous, n)
  }

  /** The address last learned for a key: by the latest event about it, or else from the table. */
  function LastLearned(t: Table, events: seq<Neighbor>, k: Key): Option<Address> {
    if events == [] then MacOf(t, k)
    else
      var n := events[|events| - 1];
      if Key(n.bridge, n.ip) == k then Some(n.mac) else LastLearned(t, events[..|events| - 1], k)
  }

  lemma {:induction false} TableIsLastLearned(t: Table, events: seq<Neighbor>, k: Key)
    ensures MacOf(TableAfter(t, events), k) == LastLearned(t, events, k)
  {
    if events != [] {
      TableIsLastLearned(t, events[..|events| - 1], k);
    }
  }

  /** Event i brings an announcing bridge another address than the last one it learned. */
  predicate IsNews(t: Table, gratuitous: set<int>, events: seq<Neighbor>, i: nat)
    requires i < |events|
  {
    && events[i].bridge in gratuitous && (|events[i].ip| == 4 || |events[i].ip| == 16)
    && LastLearned(t, events[..i], Key(events[i].bridge, events[i].ip)) != Some(events[i].mac)
  }

  /** The positions of the events with news. */
  function NewsAt(t: Table, gratuitous: set<int>, events: seq<Neighbor>): (ps: seq<nat>)
    ensures forall j :: 0 <= j < |ps| ==> ps[j] < |events|
  {
    if events == [] then []
    else
      var m := |events| - 1;
      NewsAt(t, gratuitous, events[..m]) + (if IsNews(t, gratuitous, events, m) then [m] else [])
  }

  /** They are all of them, in order. */
  lemma {:induction false} NewsAtIsNews(t: Table, gratuitous: set<int>, events: seq<Neighbor>)
    ensures var ps := NewsAt(t, gratuitous, events);
            && (forall i, j :: 0 <= i < j < |ps| ==> ps[i] < ps[j])
            && (forall i: nat :: i < |events| ==> (i in ps <==> IsNews(t, gratuitous, events, i)))
  {
    hide LastLearned;
    if events != [] {
      var m := |events| - 1;
      var ps := NewsAt(t, gratuitous, events[..m]);
      NewsAtIsNews(t, gratuitous, events[..m]);
      forall i: nat | i < m ensures IsNews(t, gratuitous, events, i) == IsNews(t, gratuitous, events[..m], i) {
        assert events[..i] == events[..m][..i];
      }
      assert m !in ps;
    }
  }

  /** The announcements are exactly the events with news, in order. */
  lemma {:induction false} AnnouncedIsNews(t: Table, gratuitous: set<int>, events: seq<Neighbor>)
    ensures var ps := NewsAt(t, gratuitous, events);
            && |Announced(t, gratuitous, events)| == |ps|
            && forall j :: 0 <= j < |ps| ==> Announced(t, gratuitous, events)[j] == events[ps[j]]
  {
    if events != [] {
      var m := |events| - 1;
      AnnouncedIsNews(t, gratuitous, events[..m]);
      TableIsLastLearned(t, events[..m], Key(events[m].bridge, events[m].ip));
      hide LastLearned;
      hide TableAfter;
    }
  }

  predicate AllAbout(events: seq<Neighbor>, ip: Address, mac: Address) {
    forall i :: 0 <= i < |events| ==> events[i].ip == ip && events[i].mac == mac
  }

  predicate DistinctBridges(ns: seq<Neighbor>) {
    forall i, j :: 0 <= i < j < |ns| ==> ns[i].bridge != ns[j].bridge
  }

  /**
   However one announced address is relayed, each bridge announces it at most once, and a bridge that
   already has it not at all.
   */
  lemma {:induction false} RelayAnnouncesOnce(t: Table, gratuitous: set<int>, events: seq<Neighbor>, ip: Address, mac: Address)
    requires AllAbout(events, ip, mac)
    ensures DistinctBridges(Announced(t, gratuitous, events))
    ensures forall i :: 0 <= i < |Announced(t, gratuitous, events)| ==>
              var n := Announced(t, gratuitous, events)[i];
              && n.ip == ip && n.mac == mac && n.bridge in gratuitous && Moves(t, n)
              && MacOf(TableAfter(t, events), Key(n.bridge, ip)) == Some(mac)
    ensures forall b :: MacOf(t, Key(b, ip)) == Some(mac) ==> MacOf(TableAfter(t, events), Key(b, ip)) == Some(mac)
  {
    if events != [] {
      var init := events[..|events| - 1];
      RelayAnnouncesOnce(t, gratuitous, init, ip, mac);
    }
  }

  /** So a relay of one address ends after at most as many announcements as there are bridges. */
  lemma RelayIsBounded(t: Table, gratuitous: set<int>, events: seq<Neighbor>, ip: Address, mac: Address)
    requires AllAbout(events, ip, mac)
    ensures |Announced(t, gratuitous, events)| <= |gratuitous|
  {
    RelayAnnouncesOnce(t, gratuitous, events, ip, mac);
    DistinctFit(Announced(t, gratuitous, events), gratuitous);
  }

  lemma {:induction false} DistinctFit(ns: seq<Neighbor>, bridges: set<int>)
    requires DistinctBridges(ns) && forall i :: 0 <= i < |ns| ==> ns[i].bridge in bridges
    ensures |ns| <= |bridges|
  {
    if ns != [] {
      DistinctFit(ns[1..], bridges - {ns[0].bridge});
    }
  }

  // ---- From packets to announcements ----

  /** A packet on an interface; room is whether the ring buffer has space for its event. */
  datatype Packet = Packet(bytes: seq<Byte>, ifindex: nat, pad: Byte, room: bool) {
    predicate Valid() {
      ifindex < 0x1_0000_0000
    }
  }

  /** What one packet teaches the bridge of its interface. */
  function Taught(masters: map<int, int>, received: set<int>, p: Packet): seq<Neighbor> {
    var l := PacketLearns(p.bytes);
    if !p.room || l.None? || p.ifindex !in received then []
    else [Neighbor(MasterOf(masters, p.ifindex), l.value.ip, l.value.mac)]
  }

  function AllTaught(masters: map<int, int>, received: set<int>, packets: seq<Packet>): seq<Neighbor> {
    if packets == [] then []
    else
      var m := |packets| - 1;
      AllTaught(masters, received, packets[..m]) + Taught(masters, received, packets[m])
  }

  lemma OneMoreRecord(masters: map<int, int>, received: set<int>, records: seq<seq<Byte>>, record: seq<Byte>)
    ensures OnBridges(masters, received, records + [record])
            == OnBridges(masters, received, records) + Delivered(masters, received, record)
  {
    assert (records + [record])[..|records|] == records;
  }

  /** The record the program writes brings what the packet taught. */
  lemma TaughtIsDelivered(masters: map<int, int>, received: set<int>, records: seq<seq<Byte>>, p: Packet)
    requires p.Valid()
    ensures OnBridges(masters, received, records + Gained(p.ifindex, PacketLearns(p.bytes), p.pad, p.room))
            == OnBridges(masters, received, records) + Taught(masters, received, p)
  {
    var l := PacketLearns(p.bytes);
    if p.room && l.Some? {
      LearnedIsDelivered(p.ifindex, l.value, p.pad);
      OneMoreRecord(masters, received, records, EventBytes(EventOf(p.ifindex, l.value), p.pad));
    } else {
      assert records + [] == records;
    }
  }

  /**
   Packets through the tc program, the ring buffer and the reader: when every call succeeds, the table is what the
   packets taught, and announced is exactly what was news among it.
   */
  method DeliverPackets(ring: Ring, sync: NeighborSync, packets: seq<Packet>) returns (ok: bool, ghost listed: bool)
    requires ring.records == [] && forall i :: 0 <= i < |packets| ==> packets[i].Valid()
    modifies ring, sync
    ensures sync.masters == old(sync.masters) && sync.gratuitous == old(sync.gratuitous) && sync.received == old(sync.received)
    ensures ok && listed ==>
              var taught := AllTaught(sync.masters, sync.received, packets);
              var news := NewsAt(old(sync.neighbors), sync.gratuitous, taught);
              && sync.neighbors == TableAfter(old(sync.neighbors), taught)
              && |sync.announced| == |old(sync.announced)| + |news|
              && sync.announced[..|old(sync.announced)|] == old(sync.announced)
              && forall j :: 0 <= j < |news| ==> sync.announced[|old(sync.announced)| + j] == taught[news[j]]
  {
    ghost var masters, received := sync.masters, sync.received;
    for i := 0 to |packets|
      invariant sync.masters == masters && sync.received == received && unchanged(sync)
      invariant OnBridges(masters, received, ring.records) == AllTaught(masters, received, packets[..i])
    {
      assert packets[..i + 1][..i] == packets[..i];
      TaughtIsDelivered(masters, received, ring.records, packets[i]);
      ring.HandleNeighborReply(packets[i].bytes, packets[i].ifindex, packets[i].pad, packets[i].room);
    }
    assert packets[..|packets|] == packets;
    AnnouncedIsNews(sync.neighbors, sync.gratuitous, AllTaught(masters, received, packets));
    ok, listed := sync.RunRecords(ring.records);
  }
}
