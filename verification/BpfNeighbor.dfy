/**
 The tc program that learns neighbors from ARP and Neighbor Advertisements (bpf/nwop-bpf.c), and the layout
 of the events it hands to user space (pkg/neighborsync/neighborsync.go).
 */
module BpfNeighbor {
  import opened Text

  type Byte = x: int | 0 <= x < 256

  const ETH_P_8021Q := 0x8100
  const ETH_P_8021AD := 0x88A8
  const ETH_P_ARP := 0x0806
  const ETH_P_IPV6 := 0x86DD
  const ICMPV6 := 58
  const NEIGHBOR_ADVERTISEMENT := 136
  const TLLA := 2
  const NA_MAX_OPTS := 6
  const MAX_UNITS := 32
  const EVENT_SIZE := 27

  function Be16(b: seq<Byte>): int
    requires |b| == 2
  {
    b[0] as int * 256 + b[1] as int
  }

  // ---- Ethernet ----

  datatype Layer = Layer(proto: int, off: nat)

  /** parse_eth_tc: at most one VLAN tag is skipped. */
  function EthOf(p: seq<Byte>): (r: Option<Layer>)
    ensures r.Some? ==> r.value.off <= |p|
  {
    if |p| < 14 then None
    else
      var proto := Be16(p[12..14]);
      if proto != ETH_P_8021Q && proto != ETH_P_8021AD then Some(Layer(proto, 14))
      else if |p| < 18 then None
      else Some(Layer(Be16(p[16..18]), 18))
  }

  /** A frame as a sender puts it together. */
  datatype Frame = Frame(addresses: seq<Byte>, tag: Option<seq<Byte>>, proto: seq<Byte>, payload: seq<Byte>) {
    predicate Valid() {
      && |addresses| == 12 && |proto| == 2
      && (tag.Some? ==> |tag.value| == 4 && Be16(tag.value[..2]) in {ETH_P_8021Q, ETH_P_8021AD})
      && (tag.None? ==> Be16(proto) !in {ETH_P_8021Q, ETH_P_8021AD})
    }
    function Bytes(): seq<Byte> {
      addresses + (if tag.Some? then tag.value else []) + proto + payload
    }
  }

  lemma EthRoundTrip(f: Frame)
    requires f.Valid()
    ensures var r := EthOf(f.Bytes());
            r.Some? && r.value.proto == Be16(f.proto) && f.Bytes()[r.value.off..] == f.payload
  {
    var b := f.Bytes();
    if f.tag.Some? {
      assert b[12..14] == f.tag.value[..2];
      assert b[16..18] == f.proto;
      assert b[18..] == f.payload;
    } else {
      assert b[12..14] == f.proto;
      assert b[14..] == f.payload;
    }
  }

  // ---- ARP ----

  datatype Arp = Arp(htype: seq<Byte>, ptype: seq<Byte>, hlen: Byte, plen: Byte, oper: seq<Byte>,
                     sha: seq<Byte>, spa: seq<Byte>, tha: seq<Byte>, tpa: seq<Byte>) {
    predicate Valid() {
      |htype| == 2 && |ptype| == 2 && |oper| == 2 && |sha| == 6 && |spa| == 4 && |tha| == 6 && |tpa| == 4
    }
    function Bytes(): seq<Byte> {
      htype + ptype + [hlen, plen] + oper + sha + spa + tha + tpa
    }
  }

  function ArpOf(d: seq<Byte>): (r: Option<Arp>)
    ensures r.Some? ==> r.value.Valid()
  {
    if |d| < 28 then None
    else Some(Arp(d[0..2], d[2..4], d[4], d[5], d[6..8], d[8..14], d[14..18], d[18..24], d[24..28]))
  }

  lemma ArpRoundTrip(a: Arp, padding: seq<Byte>)
    requires a.Valid()
    ensures ArpOf(a.Bytes() + padding) == Some(a)
  {
    var d := a.Bytes() + padding;
    assert d[0..2] == a.htype && d[2..4] == a.ptype && d[6..8] == a.oper && d[8..14] == a.sha;
    assert d[14..18] == a.spa && d[18..24] == a.tha && d[24..28] == a.tpa;
  }

  /** A learned neighbor: the address is 4 or 16 bytes. */
  datatype Learned = Learned(ip: seq<Byte>, mac: seq<Byte>)

  /** What an ARP packet announces (RFC 5944 section 4.6 for the gratuitous ones). */
  function ArpLearns(a: Arp): (r: Option<Learned>)
    requires a.Valid()
    ensures r.Some? ==> |r.value.ip| == 4 && |r.value.mac| == 6
  {
    var oper := Be16(a.oper);
    if a.hlen != 6 || a.plen != 4 || (oper != 1 && oper != 2) then None
    else if a.spa == a.tpa then Some(Learned(a.spa, if oper == 1 then a.sha else a.tha))
    else if oper == 2 then Some(Learned(a.spa, a.sha))
    else None
  }

  // ---- Neighbor Advertisements ----

  /** An ICMPv6 option (RFC 4861 section 4.6) without its two header bytes. */
  datatype Opt = Opt(kind: Byte, body: seq<Byte>) {
    predicate Valid() {
      6 <= |body| <= 8 * MAX_UNITS - 2 && (|body| + 2) % 8 == 0
    }
    function Bytes(): seq<Byte>
      requires Valid()
    {
      [kind, (|body| + 2) / 8] + body
    }
  }

  /** The options of a message, up to the first that is malformed or longer than the program accepts. */
  function ParseOptions(d: seq<Byte>): (r: seq<Opt>)
    ensures forall i :: 0 <= i < |r| ==> r[i].Valid()
    decreases |d|
  {
    if |d| < 2 || d[1] == 0 || d[1] > MAX_UNITS || 8 * d[1] as int > |d| then []
    else [Opt(d[0], d[2..8 * d[1] as int])] + ParseOptions(d[8 * d[1] as int..])
  }

  function OptionBytes(opts: seq<Opt>): seq<Byte>
    requires forall i :: 0 <= i < |opts| ==> opts[i].Valid()
  {
    if opts == [] then [] else opts[0].Bytes() + OptionBytes(opts[1..])
  }

  lemma {:induction false} OptionsRoundTrip(opts: seq<Opt>)
    requires forall i :: 0 <= i < |opts| ==> opts[i].Valid()
    ensures ParseOptions(OptionBytes(opts)) == opts
  {
    if opts != [] {
      var o, rest := opts[0], OptionBytes(opts[1..]);
      var d := OptionBytes(opts);
      assert d == o.Bytes() + rest;
      var length := 8 * (d[1] as int);
      assert d[0] == o.kind && length == |o.body| + 2;
      assert d[2..length] == o.body && d[length..] == rest;
      OptionsRoundTrip(opts[1..]);
    }
  }

  /** The address in the first Target Link-Layer Address option. */
  function FirstTlla(opts: seq<Opt>): (r: Option<seq<Byte>>)
    requires forall i :: 0 <= i < |opts| ==> opts[i].Valid()
    ensures r.Some? ==> |r.value| == 6
  {
    if opts == [] then None
    else if opts[0].kind == TLLA then assert opts[0].Valid(); Some(opts[0].body[..6])
    else FirstTlla(opts[1..])
  }

  function FirstSix(opts: seq<Opt>): seq<Opt> {
    if |opts| <= NA_MAX_OPTS then opts else opts[..NA_MAX_OPTS]
  }

  /** IPv6 header, ICMPv6 header, target address, options. */
  function AdvertisementLearns(d: seq<Byte>): (r: Option<Learned>)
    ensures r.Some? ==> |r.value.ip| == 16 && |r.value.mac| == 6
  {
    if |d| < 64 || d[6] != ICMPV6 || d[40] != NEIGHBOR_ADVERTISEMENT then None
    else
      var mac := FirstTlla(FirstSix(ParseOptions(d[64..])));
      if mac.None? then None else Some(Learned(d[48..64], mac.value))
  }

  /** What a packet teaches. */
  function PacketLearns(p: seq<Byte>): (r: Option<Learned>)
    ensures r.Some? ==> |r.value.ip| in {4, 16} && |r.value.mac| == 6
  {
    var eth := EthOf(p);
    if eth.None? then None
    else
      var d := p[eth.value.off..];
      if eth.value.proto == ETH_P_ARP then
        var arp := ArpOf(d);
        if arp.None? then None else ArpLearns(arp.value)
      else if eth.value.proto == ETH_P_IPV6 then AdvertisementLearns(d)
      else None
  }

  /**
   An Ethernet/IPv4 ARP packet in any frame: a reply teaches the sender's address, a gratuitous one (RFC 5944 section
   4.6) that of the sender in a request and of the target in a reply, and nothing else teaches anything.
   */
  lemma ArpIsLearned(f: Frame, a: Arp, padding: seq<Byte>)
    requires f.Valid() && a.Valid() && f.proto == [0x08, 0x06] && f.payload == a.Bytes() + padding
    ensures var sized := a.hlen == 6 && a.plen == 4;
            var learned := PacketLearns(f.Bytes());
            && (sized && a.oper == [0, 2] && a.spa != a.tpa ==> learned == Some(Learned(a.spa, a.sha)))
            && (sized && a.oper == [0, 2] && a.spa == a.tpa ==> learned == Some(Learned(a.spa, a.tha)))
            && (sized && a.oper == [0, 1] && a.spa == a.tpa ==> learned == Some(Learned(a.spa, a.sha)))
            && (sized && a.oper == [0, 1] && a.spa != a.tpa ==> learned.None?)
            && (!sized || a.oper !in {[0, 1], [0, 2]} ==> learned.None?)
  {
    EthRoundTrip(f);
    ArpRoundTrip(a, padding);
    assert a.oper == [a.oper[0], a.oper[1]];
    hide EthOf;
    hide ArpOf;
  }

  /** Anything else than ARP and IPv6, and ARP cut short, teaches nothing. */
  lemma OtherTrafficIsIgnored(f: Frame)
    requires f.Valid() && f.proto != [0x86, 0xdd] && (f.proto == [0x08, 0x06] ==> |f.payload| < 28)
    ensures PacketLearns(f.Bytes()).None?
  {
    EthRoundTrip(f);
    assert f.proto == [f.proto[0], f.proto[1]];
    hide EthOf;
  }

  /** A Neighbor Advertisement teaches its target with the first link-layer address among its first six options. */
  lemma AdvertisementIsLearned(f: Frame, ip6: seq<Byte>, icmp6: seq<Byte>, target: seq<Byte>, opts: seq<Opt>, mac: Opt, more: seq<Opt>)
    requires f.Valid() && f.proto == [0x86, 0xdd]
    requires |ip6| == 40 && ip6[6] == 58 && |icmp6| == 8 && icmp6[0] == 136 && |target| == 16
    requires |opts| < 6 && forall i :: 0 <= i < |opts| ==> opts[i].Valid() && opts[i].kind != 2
    requires mac.Valid() && mac.kind == 2 && forall i :: 0 <= i < |more| ==> more[i].Valid()
    requires f.payload == ip6 + icmp6 + target + OptionBytes(opts + [mac] + more)
    ensures PacketLearns(f.Bytes()) == Some(Learned(target, mac.body[..6]))
  {
    EthRoundTrip(f);
    var all := opts + [mac] + more;
    PayloadLayout(ip6, icmp6, target, OptionBytes(all));
    OptionsRoundTrip(all);
    FirstOfSix(opts, mac, more);
    hide OptionBytes;
    hide ParseOptions;
    hide FirstTlla;
    hide FirstSix;
    hide EthOf;
  }

  /** Without one among the first six it teaches nothing, and so does every other IPv6 packet. */
  lemma OtherIPv6IsIgnored(f: Frame, ip6: seq<Byte>, icmp6: seq<Byte>, target: seq<Byte>, opts: seq<Opt>)
    requires f.Valid() && f.proto == [0x86, 0xdd] && |ip6| == 40 && |icmp6| == 8 && |target| == 16
    requires forall i :: 0 <= i < |opts| ==> opts[i].Valid()
    requires ip6[6] != 58 || icmp6[0] != 136 || forall i :: 0 <= i < 6 && i < |opts| ==> opts[i].kind != 2
    requires f.payload == ip6 + icmp6 + target + OptionBytes(opts)
    ensures PacketLearns(f.Bytes()).None?
  {
    EthRoundTrip(f);
    PayloadLayout(ip6, icmp6, target, OptionBytes(opts));
    OptionsRoundTrip(opts);
    hide EthOf;
    hide OptionBytes;
    hide ParseOptions;
    hide FirstTlla;
    hide FirstSix;
    if ip6[6] == 58 && icmp6[0] == 136 {
      NoneInSix(opts);
    }
  }

  lemma NoneInSix(opts: seq<Opt>)
    requires forall i :: 0 <= i < |opts| ==> opts[i].Valid()
    requires forall i :: 0 <= i < 6 && i < |opts| ==> opts[i].kind != 2
    ensures FirstTlla(FirstSix(opts)).None?
  {
    NoneIn(FirstSix(opts));
  }

  lemma PayloadLayout(ip6: seq<Byte>, icmp6: seq<Byte>, target: seq<Byte>, tail: seq<Byte>)
    requires |ip6| == 40 && |icmp6| == 8 && |target| == 16
    ensures var d := ip6 + icmp6 + target + tail;
            |d| >= 64 && d[6] == ip6[6] && d[40] == icmp6[0] && d[48..64] == target && d[64..] == tail
  {
  }

  lemma FirstOfSix(opts: seq<Opt>, mac: Opt, more: seq<Opt>)
    requires |opts| < NA_MAX_OPTS && forall i :: 0 <= i < |opts| ==> opts[i].Valid() && opts[i].kind != TLLA
    requires mac.Valid() && mac.kind == TLLA && forall i :: 0 <= i < |more| ==> more[i].Valid()
    ensures FirstTlla(FirstSix(opts + [mac] + more)) == Some(mac.body[..6])
  {
    FirstTllaAt(FirstSix(opts + [mac] + more), |opts|);
  }

  lemma {:induction false} FirstTllaAt(opts: seq<Opt>, k: nat)
    requires k < |opts| && (forall i :: 0 <= i < |opts| ==> opts[i].Valid())
    requires opts[k].kind == TLLA && forall i :: 0 <= i < k ==> opts[i].kind != TLLA
    ensures FirstTlla(opts) == Some(opts[k].body[..6])
  {
    if k > 0 {
      FirstTllaAt(opts[1..], k - 1);
    }
  }

  // ---- Events ----

  datatype Event = Event(ifindex: nat, family: Byte, mac: seq<Byte>, ip: seq<Byte>) {
    predicate Valid() {
      ifindex < 0x1_0000_0000 && |mac| == 6 && |ip| == 16
    }
  }

  function FromLe32(b: seq<Byte>): nat
    requires |b| == 4
  {
    b[0] as int + 256 * b[1] as int + 65536 * b[2] as int + 16777216 * b[3] as int
  }

  function Le32(n: nat): seq<Byte>
    requires n < 0x1_0000_0000
  {
    [n % 256, n / 256 % 256, n / 65536 % 256, n / 16777216]
  }

  /** struct neighbor_event, with the byte that pads it to a multiple of four. */
  function EventBytes(e: Event, pad: Byte): seq<Byte>
    requires e.Valid()
  {
    Le32(e.ifindex) + [e.family] + e.mac + e.ip + [pad]
  }

  /** The reader in runBpfNeighborSync; short samples are skipped. */
  function DecodeEvent(b: seq<Byte>): (r: Option<Event>)
    ensures r.Some? <==> |b| >= EVENT_SIZE
    ensures r.Some? ==> r.value.Valid()
  {
    if |b| < EVENT_SIZE then None
    else Some(Event(FromLe32(b[0..4]), b[4], b[5..11], b[11..27]))
  }

  lemma Le32RoundTrip(n: nat)
    requires n < 0x1_0000_0000
    ensures FromLe32(Le32(n)) == n
  {
    assert n / 65536 == n / 256 / 256 && n / 16777216 == n / 65536 / 256;
  }

  /** The decoder inverts the layout. */
  lemma EventRoundTrip(e: Event, pad: Byte)
    requires e.Valid()
    ensures DecodeEvent(EventBytes(e, pad)) == Some(e)
  {
    Le32RoundTrip(e.ifindex);
    var b := EventBytes(e, pad);
    assert b[0..4] == Le32(e.ifindex);
    assert b[5..11] == e.mac && b[11..27] == e.ip;
  }

  function EventOf(ifindex: nat, l: Learned): Event
    requires |l.ip| in {4, 16} && |l.mac| == 6
  {
    if |l.ip| == 4 then Event(ifindex, 4, l.mac, l.ip + seq(12, i => 0)) else Event(ifindex, 6, l.mac, l.ip)
  }

  /** The address the reader takes from an event. */
  function AddressIn(e: Event): seq<Byte>
    requires e.Valid()
  {
    if e.family == 4 then e.ip[..4] else e.ip
  }

  /** What the program learned is what user space reads. */
  lemma LearnedIsDelivered(ifindex: nat, l: Learned, pad: Byte)
    requires ifindex < 0x1_0000_0000 && |l.ip| in {4, 16} && |l.mac| == 6
    ensures var r := DecodeEvent(EventBytes(EventOf(ifindex, l), pad));
            r.Some? && r.value.ifindex == ifindex && r.value.mac == l.mac && AddressIn(r.value) == l.ip
  {
    EventRoundTrip(EventOf(ifindex, l), pad);
  }

  // ---- The program ----

  /** What the ring buffer gains: one event for what was learned, if there is room for it. */
  function Gained(ifindex: nat, l: Option<Learned>, pad: Byte, room: bool): seq<seq<Byte>>
    requires ifindex < 0x1_0000_0000 && (l.Some? ==> |l.value.ip| in {4, 16} && |l.value.mac| == 6)
  {
    if room && l.Some? then [EventBytes(EventOf(ifindex, l.value), pad)] else []
  }

  lemma OptionsEnd(p: seq<Byte>, pos: nat)
    requires pos <= |p|
    requires pos + 2 > |p| || p[pos + 1] == 0 || p[pos + 1] > MAX_UNITS || pos + 8 * p[pos + 1] as int > |p|
    ensures ParseOptions(p[pos..]) == []
  {
  }

  lemma OptionAt(p: seq<Byte>, pos: nat)
    requires pos + 2 <= |p| && 0 < p[pos + 1] <= MAX_UNITS && pos + 8 * p[pos + 1] as int <= |p|
    ensures var after := pos + 8 * p[pos + 1] as int;
            ParseOptions(p[pos..]) == [Opt(p[pos], p[pos + 2..after])] + ParseOptions(p[after..])
  {
    var rest, length := p[pos..], 8 * p[pos + 1] as int;
    assert rest[2..length] == p[pos + 2..pos + length] && rest[length..] == p[pos + length..];
  }

  class Ring {
    var records: seq<seq<Byte>>

    constructor ()
      ensures records == []
    {
      records := [];
    }

    /** emit_event: without room in the ring buffer the event is dropped. */
    method Emit(ifindex: nat, family: Byte, mac: seq<Byte>, ip: seq<Byte>, pad: Byte, room: bool)
      requires Event(ifindex, family, mac, ip).Valid()
      modifies this
      ensures records == old(records) + (if room then [EventBytes(Event(ifindex, family, mac, ip), pad)] else [])
    {
      if room {
        records := records + [EventBytes(Event(ifindex, family, mac, ip), pad)];
      }
    }

    /** The loop that looks for a gratuitous announcement. */
    static method SameAddress(spa: seq<Byte>, tpa: seq<Byte>) returns (same: bool)
      requires |spa| == 4 && |tpa| == 4
      ensures same <==> spa == tpa
    {
      for i := 0 to 4
        invariant forall j :: 0 <= j < i ==> spa[j] == tpa[j]
      {
        if spa[i] != tpa[i] {
          return false;
        }
      }
      return true;
    }

    /** The option loop; every access is checked against the end of the packet. */
    static method ScanOptions(p: seq<Byte>, start: nat) returns (mac: Option<seq<Byte>>)
      requires start <= |p|
      ensures mac == FirstTlla(FirstSix(ParseOptions(p[start..])))
    {
      hide ParseOptions;
      hide FirstTlla;
      var pos := start;
      ghost var passed: seq<Opt> := [];
      ghost var all := ParseOptions(p[start..]);
      for i := 0 to NA_MAX_OPTS
        invariant start <= pos <= |p| && |passed| == i
        invariant all == passed + ParseOptions(p[pos..])
        invariant forall j :: 0 <= j < i ==> passed[j].Valid() && passed[j].kind != TLLA
      {
        if pos + 2 > |p| {
          OptionsEnd(p, pos);
          NoneFound(passed, all);
          return None;
        }
        var kind, units := p[pos], p[pos + 1] as int;
        if units == 0 || units > MAX_UNITS || pos + 8 * units > |p| {
          OptionsEnd(p, pos);
          NoneFound(passed, all);
          return None;
        }
        OptionAt(p, pos);
        ghost var opt := Opt(kind, p[pos + 2..pos + 8 * units]);
        if kind == TLLA {
          FoundAt(passed, opt, all);
          assert opt.body[..6] == p[pos + 2..pos + 8];
          return Some(p[pos + 2..pos + 8]);
        }
        assert all[i] == opt;
        passed := passed + [opt];
        pos := pos + 8 * units;
      }
      assert FirstSix(all) == passed;
      NoneIn(passed);
      return None;
    }

    /** handle_neighbor_reply_tc: at most one event, for what the packet teaches. The padding byte is whatever memory held. */
    method HandleNeighborReply(p: seq<Byte>, ifindex: nat, pad: Byte, room: bool)
      requires ifindex < 0x1_0000_0000
      modifies this
      ensures records == old(records) + Gained(ifindex, PacketLearns(p), pad, room)
    {
      var eth := EthOf(p);
      if eth.None? {
        return;
      }
      var off := eth.value.off;
      if eth.value.proto == ETH_P_ARP {
        HandleArp(p, off, ifindex, pad, room);
      } else if eth.value.proto == ETH_P_IPV6 {
        HandleAdvertisement(p, off, ifindex, pad, room);
      }
    }

    method HandleArp(p: seq<Byte>, off: nat, ifindex: nat, pad: Byte, room: bool)
      requires ifindex < 0x1_0000_0000 && off <= |p|
      modifies this
      ensures var arp := ArpOf(p[off..]);
              var l := if arp.None? then None else ArpLearns(arp.value);
              records == old(records) + Gained(ifindex, l, pad, room)
    {
      if off + 28 > |p| {
        return;
      }
      ghost var d := p[off..];
      assert d[6..8] == p[off + 6..off + 8] && d[8..14] == p[off + 8..off + 14] && d[14..18] == p[off + 14..off + 18];
      assert d[18..24] == p[off + 18..off + 24] && d[24..28] == p[off + 24..off + 28];
      if p[off + 4] != 6 || p[off + 5] != 4 {
        return;
      }
      var oper := Be16(p[off + 6..off + 8]);
      if oper != 1 && oper != 2 {
        return;
      }
      var sha, spa := p[off + 8..off + 14], p[off + 14..off + 18];
      var tha, tpa := p[off + 18..off + 24], p[off + 24..off + 28];
      var gratuitous := SameAddress(spa, tpa);
      if gratuitous {
        Emit(ifindex, 4, if oper == 1 then sha else tha, spa + seq(12, i => 0), pad, room);
      } else if oper == 2 {
        Emit(ifindex, 4, sha, spa + seq(12, i => 0), pad, room);
      }
    }

    method HandleAdvertisement(p: seq<Byte>, off: nat, ifindex: nat, pad: Byte, room: bool)
      requires ifindex < 0x1_0000_0000 && off <= |p|
      modifies this
      ensures var l := AdvertisementLearns(p[off..]);
              records == old(records) + Gained(ifindex, l, pad, room)
    {
      if off + 40 > |p| || p[off + 6] != ICMPV6 {
        return;
      }
      var icmp6 := off + 40;
      if icmp6 + 8 > |p| || p[icmp6] != NEIGHBOR_ADVERTISEMENT {
        return;
      }
      var pos := icmp6 + 8;
      if pos + 16 > |p| {
        return;
      }
      var ip := p[pos..pos + 16];
      assert p[off..][48..64] == ip && p[off..][64..] == p[pos + 16..];
      var mac := ScanOptions(p, pos + 16);
      if mac.Some? {
        Emit(ifindex, 6, mac.value, ip, pad, room);
      }
    }
  }

  lemma {:induction false} NoneIn(opts: seq<Opt>)
    requires forall i :: 0 <= i < |opts| ==> opts[i].Valid() && opts[i].kind != TLLA
    ensures FirstTlla(opts) == None
  {
    if opts != [] {
      NoneIn(opts[1..]);
    }
  }

  lemma NoneFound(passed: seq<Opt>, all: seq<Opt>)
    requires |passed| < NA_MAX_OPTS && all == passed + []
    requires forall i :: 0 <= i < |passed| ==> passed[i].Valid() && passed[i].kind != TLLA
    ensures FirstTlla(FirstSix(all)) == None
  {
    assert FirstSix(all) == passed;
    NoneIn(passed);
  }

  lemma FoundAt(passed: seq<Opt>, opt: Opt, all: seq<Opt>)
    requires |passed| < NA_MAX_OPTS && opt.Valid() && passed + [opt] <= all && forall i :: 0 <= i < |all| ==> all[i].Valid()
    requires opt.kind == TLLA && forall i :: 0 <= i < |passed| ==> passed[i].kind != TLLA
    ensures FirstTlla(FirstSix(all)) == Some(opt.body[..6])
  {
    assert all[|passed|] == opt;
    FirstTllaAt(FirstSix(all), |passed|);
  }
}
