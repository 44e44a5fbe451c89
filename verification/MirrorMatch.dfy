/**
 Traffic mirror rules and the flower filters they expand into (pkg/nl/mirror.go): when the filters
 together match exactly the packets the rule describes.
 */
module MirrorMatch {
  import opened Text

  datatype Family = IPv4 | IPv6

  function Width(f: Family): nat {
    if f == IPv4 then 32 else 128
  }

  type Prefix4 = s: seq<bool> | |s| <= 32 witness []
  type Prefix6 = s: seq<bool> | |s| <= 128 witness []

  /** A prefix as written in a rule: a CIDR or host is the bits it fixes; other text counts by its colons. */
  datatype Prefix = Absent | Net4(bits4: Prefix4) | Net6(bits6: Prefix6) | Unparseable(colon: bool)

  /** srcPort and dstPort are absent when 0. */
  datatype MirrorRule = MirrorRule(protocol: string, src: Prefix, dst: Prefix, srcPort: nat, dstPort: nat)

  datatype Packet = Packet(family: Family, src: seq<bool>, dst: seq<bool>, proto: nat, srcPort: nat, dstPort: nat) {
    predicate Valid() {
      |src| == Width(family) && |dst| == Width(family)
    }
  }

  const TCP := 6
  const UDP := 17
  const SCTP := 132
  const ICMP := 1
  const ICMPV6 := 58

  function LowerChar(c: char): char {
    if 'A' <= c <= 'Z' then (c as int + 32) as char else c
  }

  function Lower(s: string): string {
    seq(|s|, i requires 0 <= i < |s| => LowerChar(s[i]))
  }

  /** ipProtoNumber */
  function ProtoNumber(protocol: string): Option<nat> {
    var p := Lower(protocol);
    if p == "tcp" then Some(TCP)
    else if p == "udp" then Some(UDP)
    else if p == "sctp" then Some(SCTP)
    else if p == "icmp" then Some(ICMP)
    else if p == "icmpv6" then Some(ICMPV6)
    else None
  }

  predicate IsPortProto(proto: Option<nat>) {
    proto == Some(TCP) || proto == Some(UDP) || proto == Some(SCTP)
  }

  // ---- What a rule means ----

  predicate InPrefix(p: Prefix, family: Family, address: seq<bool>) {
    match p
    case Absent => true
    case Net4(bits) => family == IPv4 && bits <= address
    case Net6(bits) => family == IPv6 && bits <= address
    case Unparseable(_) => false
  }

  /** ICMP is a protocol of IPv4 and ICMPv6 one of IPv6; an unknown protocol names no packet. */
  predicate OfProtocol(protocol: string, p: Packet) {
    protocol == "" ||
    (ProtoNumber(protocol) == Some(p.proto) && (p.proto == ICMP ==> p.family == IPv4) && (p.proto == ICMPV6 ==> p.family == IPv6))
  }

  predicate OnPort(port: nat, proto: nat, actual: nat) {
    port > 0 ==> IsPortProto(Some(proto)) && actual == port
  }

  predicate RuleMatches(r: MirrorRule, p: Packet) {
    && InPrefix(r.src, p.family, p.src) && InPrefix(r.dst, p.family, p.dst)
    && OfProtocol(r.protocol, p)
    && OnPort(r.srcPort, p.proto, p.srcPort) && OnPort(r.dstPort, p.proto, p.dstPort)
  }

  // ---- What the code programs ----

  datatype Match = Match(family: Family, proto: Option<nat>)

  /** A flower filter; absent keys match anything, and port 0 is absent. */
  datatype Flower = Flower(family: Family, proto: Option<nat>, src: Option<seq<bool>>, dst: Option<seq<bool>>,
                           srcPort: nat, dstPort: nat)

  predicate FlowerMatches(f: Flower, p: Packet) {
    && f.family == p.family
    && (f.proto.Some? ==> f.proto.value == p.proto)
    && (f.src.Some? ==> f.src.value <= p.src) && (f.dst.Some? ==> f.dst.value <= p.dst)
    && (f.srcPort > 0 ==> f.srcPort == p.srcPort) && (f.dstPort > 0 ==> f.dstPort == p.dstPort)
  }

  /** prefixFamily: whether a colon appears, without parsing. */
  function PrefixFamily(p: Prefix): Option<Family> {
    match p
    case Absent => None
    case Net4(_) => Some(IPv4)
    case Net6(_) => Some(IPv6)
    case Unparseable(colon) => Some(if colon then IPv6 else IPv4)
  }

  function Families(r: MirrorRule): (fs: seq<Family>)
    ensures fs != [] && forall i, j :: 0 <= i < j < |fs| ==> fs[i] != fs[j]
  {
    var p := Lower(r.protocol);
    if p == "icmp" then [IPv4]
    else if p == "icmpv6" then [IPv6]
    else
      var hasV4 := PrefixFamily(r.src) == Some(IPv4) || PrefixFamily(r.dst) == Some(IPv4);
      var hasV6 := PrefixFamily(r.src) == Some(IPv6) || PrefixFamily(r.dst) == Some(IPv6);
      if hasV6 && !hasV4 then [IPv6]
      else if hasV4 && !hasV6 then [IPv4]
      else [IPv4, IPv6]
  }

  function Protos(r: MirrorRule): (ps: seq<Option<nat>>)
    ensures ps != [] && forall i, j :: 0 <= i < j < |ps| ==> ps[i] != ps[j]
    ensures |ps| == 1 || forall i :: 0 <= i < |ps| ==> ps[i].Some?
  {
    if r.protocol != "" then [ProtoNumber(r.protocol)]
    else if r.srcPort > 0 || r.dstPort > 0 then [Some(TCP), Some(UDP), Some(SCTP)]
    else [None]
  }

  function Row(f: Family, ps: seq<Option<nat>>): seq<Match> {
    seq(|ps|, i requires 0 <= i < |ps| => Match(f, ps[i]))
  }

  function Cross(fs: seq<Family>, ps: seq<Option<nat>>): seq<Match> {
    if fs == [] then [] else Cross(fs[..|fs| - 1], ps) + Row(fs[|fs| - 1], ps)
  }

  method BuildMirrorMatches(r: MirrorRule) returns (matches: seq<Match>)
    ensures matches == Cross(Families(r), Protos(r))
  {
    var families, protos := Families(r), Protos(r);
    matches := [];
    for i := 0 to |families|
      invariant matches == Cross(families[..i], protos)
    {
      for j := 0 to |protos|
        invariant matches == Cross(families[..i], protos) + Row(families[i], protos[..j])
      {
        assert protos[..j + 1] == protos[..j] + [protos[j]];
        matches := matches + [Match(families[i], protos[j])];
      }
      assert protos[..|protos|] == protos;
      assert families[..i + 1][..i] == families[..i];
    }
    assert families[..|families|] == families;
  }

  /** addMirrorFilter: a prefix is programmed on its own family only, ports on port protocols only. */
  function FilterOf(r: MirrorRule, m: Match): Flower {
    var ports := IsPortProto(m.proto);
    Flower(m.family, m.proto, Programmed(r.src, m.family), Programmed(r.dst, m.family),
           if ports then r.srcPort else 0, if ports then r.dstPort else 0)
  }

  function Programmed(p: Prefix, family: Family): Option<seq<bool>> {
    if p.Net4? && family == IPv4 then Some(p.bits4)
    else if p.Net6? && family == IPv6 then Some(p.bits6)
    else None
  }

  function Expanded(r: MirrorRule): seq<Flower> {
    var ms := Cross(Families(r), Protos(r));
    seq(|ms|, i requires 0 <= i < |ms| => FilterOf(r, ms[i]))
  }

  // ---- Exactness ----

  /** Rules the expansion is made for. */
  predicate WellFormed(r: MirrorRule) {
    && !r.src.Unparseable? && !r.dst.Unparseable?
    && !(r.src.Net4? && r.dst.Net6?) && !(r.src.Net6? && r.dst.Net4?)
    && (r.protocol != "" ==> ProtoNumber(r.protocol).Some?)
    && (ProtoNumber(r.protocol) == Some(ICMP) ==> !r.src.Net6? && !r.dst.Net6?)
    && (ProtoNumber(r.protocol) == Some(ICMPV6) ==> !r.src.Net4? && !r.dst.Net4?)
    && (r.srcPort > 0 || r.dstPort > 0 ==> r.protocol == "" || IsPortProto(ProtoNumber(r.protocol)))
  }

  /** The filters together match exactly what the rule means. */
  ghost predicate Faithful(r: MirrorRule) {
    forall p: Packet :: p.Valid() ==>
      (RuleMatches(r, p) <==> Mirrors(r, p))
  }

  lemma {:induction false} CrossMembers(fs: seq<Family>, ps: seq<Option<nat>>, m: Match)
    ensures m in Cross(fs, ps) <==> m.family in fs && m.proto in ps
  {
    if fs != [] {
      var init, last := fs[..|fs| - 1], fs[|fs| - 1];
      assert fs == init + [last];
      CrossMembers(init, ps, m);
      assert m in Row(last, ps) <==> m.family == last && m.proto in ps by {
        if m.family == last && m.proto in ps {
          var j: nat :| j < |ps| && ps[j] == m.proto;
          assert Row(last, ps)[j] == m;
        }
      }
    }
  }

  lemma {:induction false} CrossDistinct(fs: seq<Family>, ps: seq<Option<nat>>)
    requires forall i, j :: 0 <= i < j < |fs| ==> fs[i] != fs[j]
    requires forall i, j :: 0 <= i < j < |ps| ==> ps[i] != ps[j]
    ensures forall i, j :: 0 <= i < j < |Cross(fs, ps)| ==> Cross(fs, ps)[i] != Cross(fs, ps)[j]
  {
    if fs != [] {
      var init, last := fs[..|fs| - 1], fs[|fs| - 1];
      CrossDistinct(init, ps);
      var head := Cross(init, ps);
      forall i | 0 <= i < |head| ensures head[i].family != last {
        CrossMembers(init, ps, head[i]);
      }
    }
  }

  /** The expansion of a rule is its family and protocol choices, one filter each. */
  lemma ExpandedMembers(r: MirrorRule, f: Flower)
    ensures f in Expanded(r) <==>
              exists m: Match :: m.family in Families(r) && m.proto in Protos(r) && f == FilterOf(r, m)
  {
    var ms := Cross(Families(r), Protos(r));
    if f in Expanded(r) {
      var i: nat :| i < |ms| && Expanded(r)[i] == f;
      CrossMembers(Families(r), Protos(r), ms[i]);
    }
    forall m: Match | m.family in Families(r) && m.proto in Protos(r) && f == FilterOf(r, m) ensures f in Expanded(r) {
      CrossMembers(Families(r), Protos(r), m);
      var i: nat :| i < |ms| && ms[i] == m;
      assert Expanded(r)[i] == f;
    }
  }

  /** No packet is mirrored twice by one rule, whatever the rule. */
  lemma AtMostOneFilter(r: MirrorRule, p: Packet, i: nat, j: nat)
    requires i < j < |Expanded(r)|
    ensures !(FlowerMatches(Expanded(r)[i], p) && FlowerMatches(Expanded(r)[j], p))
  {
    var ms := Cross(Families(r), Protos(r));
    CrossDistinct(Families(r), Protos(r));
    CrossMembers(Families(r), Protos(r), ms[i]);
    CrossMembers(Families(r), Protos(r), ms[j]);
    assert ms[i] != ms[j];
  }

  predicate Mirrors(r: MirrorRule, p: Packet) {
    exists i :: 0 <= i < |Expanded(r)| && FlowerMatches(Expanded(r)[i], p)
  }

  lemma MirroredBy(r: MirrorRule, p: Packet, m: Match)
    requires m.family in Families(r) && m.proto in Protos(r) && FlowerMatches(FilterOf(r, m), p)
    ensures Mirrors(r, p)
  {
    hide Families;
    hide Protos;
    ExpandedMembers(r, FilterOf(r, m));
    var i: nat :| i < |Expanded(r)| && Expanded(r)[i] == FilterOf(r, m);
  }

  lemma MirroredFrom(r: MirrorRule, p: Packet) returns (m: Match)
    requires Mirrors(r, p)
    ensures m.family in Families(r) && m.proto in Protos(r) && FlowerMatches(FilterOf(r, m), p)
  {
    hide Families;
    hide Protos;
    var i: nat :| i < |Expanded(r)| && FlowerMatches(Expanded(r)[i], p);
    ExpandedMembers(r, Expanded(r)[i]);
    m :| m.family in Families(r) && m.proto in Protos(r) && Expanded(r)[i] == FilterOf(r, m);
  }

  lemma WellFormedIsExact(r: MirrorRule, p: Packet)
    requires WellFormed(r) && p.Valid()
    ensures RuleMatches(r, p) <==> Mirrors(r, p)
  {
    hide Mirrors;
    if RuleMatches(r, p) {
      var proto := if r.protocol != "" then ProtoNumber(r.protocol)
                   else if r.srcPort > 0 || r.dstPort > 0 then Some(p.proto) else None;
      MirroredBy(r, p, Match(p.family, proto));
    }
    if Mirrors(r, p) {
      var m := MirroredFrom(r, p);
    }
  }

  /** Outside the well-formed rules, no packet meets the rule. */
  lemma IllFormedMatchesNothing(r: MirrorRule, p: Packet)
    requires !WellFormed(r)
    ensures !RuleMatches(r, p)
  {
  }

  function Padded(bits: Option<seq<bool>>, width: nat): (s: seq<bool>)
    requires bits.Some? ==> |bits.value| <= width
    ensures |s| == width && (bits.Some? ==> bits.value <= s)
  {
    var head := if bits.Some? then bits.value else [];
    head + seq(width - |head|, i => false)
  }

  /** Every rule, well-formed or not, programs filters that some packet meets. */
  lemma SomethingIsMirrored(r: MirrorRule) returns (p: Packet)
    ensures p.Valid() && Mirrors(r, p)
  {
    var m := Match(Families(r)[0], Protos(r)[0]);
    var f := FilterOf(r, m);
    p := Packet(m.family, Padded(f.src, Width(m.family)), Padded(f.dst, Width(m.family)),
                if m.proto.Some? then m.proto.value else 0, f.srcPort, f.dstPort);
    MirroredBy(r, p, m);
  }

  /** The filters mean the rule exactly when the rule is well-formed; otherwise they mirror what no rule asked for. */
  lemma FaithfulIffWellFormed(r: MirrorRule)
    ensures Faithful(r) <==> WellFormed(r)
  {
    hide RuleMatches;
    hide WellFormed;
    hide Expanded;
    if WellFormed(r) {
      forall p: Packet | p.Valid() ensures RuleMatches(r, p) <==> Mirrors(r, p) {
        WellFormedIsExact(r, p);
      }
    } else {
      var p := SomethingIsMirrored(r);
      IllFormedMatchesNothing(r, p);
    }
  }
}
