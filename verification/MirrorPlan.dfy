/** What a mirror configuration asks for, and what a run of ReconcileMirror may change. */
module MirrorPlan {
  import opened Text
  import opened LinkTable
  import opened MirrorKernel
  import MirrorMatch

  const GRE_PREFIX := "gre-"
  const GRETAP_PREFIX := "gtap-"
  const MAX_NAME := 15

  /** None stands for text that does not parse as an address. */
  datatype Loopback = Loopback(name: string, vrf: string, addresses: seq<Option<DeviceAddr>>)

  /** None stands for text that does not parse as an address. */
  datatype Tunnel = Tunnel(name: string, vrf: string, source: string, layer2: bool,
                           local: Option<IP>, remote: Option<IP>, key: Option<nat>)

  datatype Rule = Rule(source: string, gre: string, direction: string, workloadFacing: bool, what: MirrorMatch.MirrorRule)

  datatype Config = Config(loopbacks: seq<Loopback>, tunnels: seq<Tunnel>, rules: seq<Rule>)

  predicate IsMirrorGre(name: string) {
    GRE_PREFIX <= name || GRETAP_PREFIX <= name
  }

  predicate IsMirrorSource(name: string) {
    VLAN <= name || VX <= name || L2 <= name
  }

  function LoopbackNames(ls: seq<Loopback>): set<string> {
    set l | l in ls :: l.name
  }

  function TunnelNames(ts: seq<Tunnel>): set<string> {
    set t | t in ts :: t.name
  }

  /** The VRFs that carry mirror configuration. */
  function MirrorVrfs(ts: seq<Tunnel>, ls: seq<Loopback>): set<string> {
    (set t | t in ts :: t.vrf) + (set l | l in ls :: l.vrf)
  }

  function Sources(rules: seq<Rule>): set<string> {
    set r | r in rules :: r.source
  }

  function RulesFor(rules: seq<Rule>, source: string): seq<Rule> {
    if rules == [] then []
    else RulesFor(rules[..|rules| - 1], source)
         + (if rules[|rules| - 1].source == source then [rules[|rules| - 1]] else [])
  }

  // ---- The filters a list of rules asks for ----

  /** mirrorParents: the hooks of a workload-facing port are inverted. */
  function Parents(direction: string, workloadFacing: bool): (hs: seq<Hook>)
    ensures forall i, j :: 0 <= i < j < |hs| ==> hs[i] != hs[j]
  {
    if direction == "ingress" then [if workloadFacing then Egress else Ingress]
    else if direction == "egress" then [if workloadFacing then Ingress else Egress]
    else if direction == "both" then [Ingress, Egress]
    else []
  }

  /**
   Facing the fabric the directions are the hooks of the same name; facing the workload they are the opposite
   ones; both sees all, and any other text none.
   */
  lemma ParentsInvert(direction: string, h: Hook)
    ensures h in Parents("ingress", false) <==> h == Ingress
    ensures direction !in {"ingress", "egress", "both"} ==> h !in Parents(direction, false)
    ensures h in Parents(direction, true) <==> (if h == Ingress then Egress else Ingress) in Parents(direction, false)
    ensures h in Parents("ingress", true) <==> h in Parents("egress", false)
    ensures h in Parents("both", true) && h in Parents("both", false)
  {
  }

  function Bodies(r: Rule, target: int): seq<Body> {
    var flowers := MirrorMatch.Expanded(r.what);
    seq(|flowers|, k requires 0 <= k < |flowers| => Mirror(flowers[k], target))
  }

  /** In rule order, the filters for one hook. */
  function Wanted(rules: seq<Rule>, tunnels: map<string, int>, h: Hook): seq<Body> {
    if rules == [] then []
    else
      var r := rules[|rules| - 1];
      Wanted(rules[..|rules| - 1], tunnels, h)
      + (if r.gre in tunnels && h in Parents(r.direction, r.workloadFacing) then Bodies(r, tunnels[r.gre]) else [])
  }

  /** The mirror filters at a hook are exactly these, at consecutive priorities from the base. */
  ghost predicate Numbered(fs: set<Filter>, i: int, h: Hook, bodies: seq<Body>) {
    && |bodies| <= LAST + 1 - BASE
    && (forall f :: f in fs && f.link == i && f.hook == h && f.prio >= BASE ==>
          f.prio - BASE < |bodies| && f.body == bodies[f.prio - BASE])
    && (forall k :: 0 <= k < |bodies| ==> Filter(i, h, BASE + k, bodies[k]) in fs)
  }

  /** Priorities of mirror filters stay in their range and no two share one. */
  lemma NumberedInRange(fs: set<Filter>, i: int, h: Hook, bodies: seq<Body>)
    requires Numbered(fs, i, h, bodies)
    ensures forall f :: f in fs && f.link == i && f.hook == h && f.prio >= BASE ==> f.prio <= LAST
    ensures forall f, g :: f in fs && g in fs && f.link == g.link == i && f.hook == g.hook == h && f.prio == g.prio >= BASE ==> f == g
  {
  }

  /** The traffic a direction asks for passes the hook: inverted on a workload-facing port. */
  predicate Selects(direction: string, workloadFacing: bool, h: Hook) {
    || direction == "both"
    || (direction == "ingress" && h == (if workloadFacing then Egress else Ingress))
    || (direction == "egress" && h == (if workloadFacing then Ingress else Egress))
  }

  /** A mirror filter on the link at the hook sends the packet to the target. */
  predicate Sends(fs: set<Filter>, i: int, h: Hook, target: int, p: MirrorMatch.Packet) {
    exists f :: f in fs && f.link == i && f.hook == h && f.prio >= BASE && f.body.Mirror? && f.body.target == target
                && MirrorMatch.FlowerMatches(f.body.flower, p)
  }

  /** One of the rules asks for the packet at the hook, to the tunnel with this index. */
  predicate AskedBy(rules: seq<Rule>, tunnels: map<string, int>, h: Hook, target: int, p: MirrorMatch.Packet) {
    exists r :: r in rules && r.gre in tunnels && tunnels[r.gre] == target
                && Selects(r.direction, r.workloadFacing, h) && MirrorMatch.Mirrors(r.what, p)
  }

  /** A rule of the source asks for the packet at the hook, to the tunnel with this index. */
  predicate Asked(rules: seq<Rule>, source: string, tunnels: map<string, int>, h: Hook, target: int, p: MirrorMatch.Packet) {
    exists r :: r in rules && r.source == source && r.gre in tunnels && tunnels[r.gre] == target
                && Selects(r.direction, r.workloadFacing, h) && MirrorMatch.Mirrors(r.what, p)
  }

  /** On every link that is a source, exactly what its rules ask for is sent. */
  ghost predicate SendsAsAsked(fs: set<Filter>, links: Devices, rules: seq<Rule>, tunnels: map<string, int>) {
    forall i, h, target, p: MirrorMatch.Packet :: i in links && (exists r :: r in rules && r.source == links[i].name) ==>
      (Sends(fs, i, h, target, p) <==> Asked(rules, links[i].name, tunnels, h, target, p))
  }

  lemma ParentsSelect(direction: string, workloadFacing: bool, h: Hook)
    ensures h in Parents(direction, workloadFacing) <==> Selects(direction, workloadFacing, h)
  {
  }

  lemma {:induction false} RulesForMembers(rules: seq<Rule>, source: string, r: Rule)
    ensures r in RulesFor(rules, source) <==> r in rules && r.source == source
  {
    if rules != [] {
      RulesForMembers(rules[..|rules| - 1], source, r);
      assert rules == rules[..|rules| - 1] + [rules[|rules| - 1]];
    }
  }

  lemma {:induction false} WantedMembers(rules: seq<Rule>, tunnels: map<string, int>, h: Hook, b: Body)
    ensures b in Wanted(rules, tunnels, h) <==>
            exists r :: r in rules && r.gre in tunnels && Selects(r.direction, r.workloadFacing, h) && b in Bodies(r, tunnels[r.gre])
  {
    hide Parents;
    hide Selects;
    hide Bodies;
    if rules != [] {
      var last := rules[|rules| - 1];
      WantedMembers(rules[..|rules| - 1], tunnels, h, b);
      ParentsSelect(last.direction, last.workloadFacing, h);
      assert rules == rules[..|rules| - 1] + [last];
    }
  }

  lemma BodiesMirror(r: Rule, target: int, to: int, p: MirrorMatch.Packet)
    ensures (exists b :: b in Bodies(r, target) && b.Mirror? && b.target == to && MirrorMatch.FlowerMatches(b.flower, p))
            <==> to == target && MirrorMatch.Mirrors(r.what, p)
  {
    var flowers, bodies := MirrorMatch.Expanded(r.what), Bodies(r, target);
    hide MirrorMatch.FlowerMatches;
    hide MirrorMatch.Expanded;
    if to == target && MirrorMatch.Mirrors(r.what, p) {
      var k: nat :| k < |flowers| && MirrorMatch.FlowerMatches(flowers[k], p);
      assert bodies[k] == Mirror(flowers[k], target) && bodies[k] in bodies;
    }
    if b :| b in bodies && b.Mirror? && b.target == to && MirrorMatch.FlowerMatches(b.flower, p) {
      var k: nat :| k < |bodies| && bodies[k] == b;
      assert MirrorMatch.FlowerMatches(flowers[k], p);
    }
  }

  /** Numbered filters send exactly what one of their bodies matches. */
  lemma NumberedSends(fs: set<Filter>, i: int, h: Hook, bodies: seq<Body>, target: int, p: MirrorMatch.Packet)
    requires Numbered(fs, i, h, bodies)
    ensures Sends(fs, i, h, target, p) <==>
            exists b :: b in bodies && b.Mirror? && b.target == target && MirrorMatch.FlowerMatches(b.flower, p)
  {
    hide MirrorMatch.FlowerMatches;
    if b :| b in bodies && b.Mirror? && b.target == target && MirrorMatch.FlowerMatches(b.flower, p) {
      var k: nat :| k < |bodies| && bodies[k] == b;
      assert Filter(i, h, BASE + k, bodies[k]) in fs;
    }
  }

  /** The filters laid for some rules send what those rules ask for. */
  lemma WantedIsAsked(fs: set<Filter>, i: int, h: Hook, rules: seq<Rule>, tunnels: map<string, int>, target: int, p: MirrorMatch.Packet)
    requires Numbered(fs, i, h, Wanted(rules, tunnels, h))
    ensures Sends(fs, i, h, target, p) <==> AskedBy(rules, tunnels, h, target, p)
  {
    var bodies := Wanted(rules, tunnels, h);
    NumberedSends(fs, i, h, bodies, target, p);
    hide Numbered;
    hide Sends;
    hide Selects;
    hide Wanted;
    hide Bodies;
    hide MirrorMatch.FlowerMatches;
    hide MirrorMatch.Mirrors;
    if b :| b in bodies && b.Mirror? && b.target == target && MirrorMatch.FlowerMatches(b.flower, p) {
      WantedMembers(rules, tunnels, h, b);
      var r :| r in rules && r.gre in tunnels && Selects(r.direction, r.workloadFacing, h) && b in Bodies(r, tunnels[r.gre]);
      BodiesMirror(r, tunnels[r.gre], target, p);
    }
    if r :| r in rules && r.gre in tunnels && tunnels[r.gre] == target
            && Selects(r.direction, r.workloadFacing, h) && MirrorMatch.Mirrors(r.what, p) {
      BodiesMirror(r, tunnels[r.gre], target, p);
      var b :| b in Bodies(r, target) && b.Mirror? && b.target == target && MirrorMatch.FlowerMatches(b.flower, p);
      WantedMembers(rules, tunnels, h, b);
    }
  }

  lemma AskedOfSource(rules: seq<Rule>, source: string, tunnels: map<string, int>, h: Hook, target: int, p: MirrorMatch.Packet)
    ensures AskedBy(RulesFor(rules, source), tunnels, h, target, p) <==> Asked(rules, source, tunnels, h, target, p)
  {
    hide RulesFor;
    hide Selects;
    hide MirrorMatch.Mirrors;
    forall r ensures r in RulesFor(rules, source) <==> r in rules && r.source == source {
      RulesForMembers(rules, source, r);
    }
  }

  /** For well-formed rules what is asked is what the rules match. */
  lemma AskedIsMatched(rules: seq<Rule>, source: string, tunnels: map<string, int>, h: Hook, target: int, p: MirrorMatch.Packet)
    requires p.Valid() && forall r :: r in rules && r.source == source ==> MirrorMatch.WellFormed(r.what)
    ensures Asked(rules, source, tunnels, h, target, p) <==>
            exists r :: r in rules && r.source == source && r.gre in tunnels && tunnels[r.gre] == target
                        && Selects(r.direction, r.workloadFacing, h) && MirrorMatch.RuleMatches(r.what, p)
  {
    hide Selects;
    hide MirrorMatch.WellFormed;
    hide MirrorMatch.RuleMatches;
    hide MirrorMatch.Mirrors;
    forall r | r in rules && r.source == source ensures MirrorMatch.RuleMatches(r.what, p) <==> MirrorMatch.Mirrors(r.what, p) {
      MirrorMatch.WellFormedIsExact(r.what, p);
    }
  }

  /** Only mirror filters of link i differ. */
  ghost predicate OnlyMirrors(was: set<Filter>, now: set<Filter>, i: int) {
    forall f: Filter :: f.link != i || f.prio < BASE ==> (f in was <==> f in now)
  }

  lemma OnlyMirrorsRefl(fs: set<Filter>, i: int)
    ensures OnlyMirrors(fs, fs, i)
  {
  }

  lemma OnlyMirrorsTrans(a: set<Filter>, b: set<Filter>, c: set<Filter>, i: int)
    requires OnlyMirrors(a, b, i) && OnlyMirrors(b, c, i)
    ensures OnlyMirrors(a, c, i)
  {
  }

  predicate MirrorsWithin(was: set<Filter>, now: set<Filter>, i: int, h: Hook) {
    forall f :: f in now && f.link == i && f.hook == h && f.prio >= BASE ==> f in was
  }

  // ---- What a run may change ----

  /** Forwarding filters are what they were, on every link that is still there. */
  ghost predicate ForwardingKept(was: set<Filter>, now: set<Filter>, links: Devices) {
    forall f: Filter :: f.prio < BASE ==> (f in now <==> f in was && f.link in links)
  }

  /** At each hook some old mirror filters are left, or new ones are numbered from the base. */
  ghost predicate Orderly(was: set<Filter>, now: set<Filter>, i: int, h: Hook) {
    MirrorsWithin(was, now, i, h) || exists bodies :: Numbered(now, i, h, bodies)
  }

  /** The links a run may delete. */
  predicate Deletable(c: Config, t: Devices, i: int)
    requires i in t
  {
    || IsMirrorGre(t[i].name)
    || t[i].name in TunnelNames(c.tunnels)
    || t[i].name in LoopbackNames(c.loopbacks)
    || (t[i].kind.Dummy? && t[i].master in t && t[t[i].master].kind.VrfDevice?
        && t[t[i].master].name in MirrorVrfs(c.tunnels, c.loopbacks))
  }

  /** Old links keep name and kind and lose at most their master; new ones are no VRFs. */
  predicate SameDevice(was: Device, now: Device) {
    was.name == now.name && was.kind == now.kind && now.master in {was.master, 0}
  }

  ghost predicate Evolves(c: Config, was: Devices, next: int, now: Devices) {
    && (forall i :: i in now ==> i in was || i >= next)
    && (forall i :: i in now && i in was ==> SameDevice(was[i], now[i]))
    && (forall i :: i in now && i !in was ==> !now[i].kind.VrfDevice?)
    && (forall i :: i in was && i !in now ==> Deletable(c, was, i))
  }

  lemma EvolvesTrans(c: Config, a: Devices, na: int, b: Devices, nb: int, d: Devices)
    requires Evolves(c, a, na, b) && Evolves(c, b, nb, d) && na <= nb && 0 !in b && forall i :: i in a ==> i < na
    ensures Evolves(c, a, na, d)
  {
    hide IsMirrorGre;
    hide TunnelNames;
    hide LoopbackNames;
    hide MirrorVrfs;
    assert forall i :: i in d && i in a ==> i in b;
    forall i | i in a && i !in d ensures Deletable(c, a, i) {
      if i in b {
        assert Deletable(c, b, i);
        assert SameDevice(a[i], b[i]);
        if b[i].master in b {
          assert b[b[i].master].kind.VrfDevice? ==> b[i].master in a && SameDevice(a[b[i].master], b[b[i].master]);
        }
      }
    }
  }

  /** A phase that adds and deletes links; filters go only with their links. */
  ghost predicate LinksOnly(c: Config, was: Devices, next: int, fs: set<Filter>, now: Devices, nextNow: int, fsNow: set<Filter>) {
    Evolves(c, was, next, now) && next <= nextNow && fsNow == OnLinks(fs, now)
  }

  predicate Bounded(t: Devices, next: int) {
    forall i :: i in t ==> 0 < i < next
  }

  predicate FiltersOn(fs: set<Filter>, t: Devices) {
    forall f :: f in fs ==> f.link in t
  }

  lemma LinksOnlyRefl(c: Config, t: Devices, next: int, fs: set<Filter>)
    requires FiltersOn(fs, t)
    ensures LinksOnly(c, t, next, fs, t, next, fs)
  {
    assert OnLinks(fs, t) == fs;
  }

  lemma LinksOnlyTrans(c: Config, a: Devices, na: int, fa: set<Filter>, b: Devices, nb: int, fb: set<Filter>,
                       d: Devices, nd: int, fd: set<Filter>)
    requires Bounded(a, na) && Bounded(b, nb) && FiltersOn(fa, a)
    requires LinksOnly(c, a, na, fa, b, nb, fb) && LinksOnly(c, b, nb, fb, d, nd, fd)
    ensures LinksOnly(c, a, na, fa, d, nd, fd)
  {
    EvolvesTrans(c, a, na, b, nb, d);
    hide Deletable;
    assert fd == OnLinks(fa, d);
  }

  lemma DeleteLinksOnly(c: Config, t: Devices, next: int, fs: set<Filter>, i: int)
    requires Bounded(t, next) && i in t && Deletable(c, t, i)
    ensures LinksOnly(c, t, next, fs, Without(t, i), next, OnLinks(fs, Without(t, i)))
  {
    hide Deletable;
  }

  lemma AddLinksOnly(c: Config, t: Devices, next: int, fs: set<Filter>, d: Device)
    requires Bounded(t, next) && FiltersOn(fs, t) && !d.kind.VrfDevice?
    ensures LinksOnly(c, t, next, fs, t[next := d], next + 1, fs)
  {
    assert OnLinks(fs, t[next := d]) == fs;
  }

  lemma SetUpLinksOnly(c: Config, t: Devices, next: int, fs: set<Filter>, i: int)
    requires Bounded(t, next) && FiltersOn(fs, t) && i in t
    ensures LinksOnly(c, t, next, fs, t[i := t[i].(up := true)], next, fs)
  {
    assert OnLinks(fs, t[i := t[i].(up := true)]) == fs;
  }

  /** Links with other names are still there, up if they were, and in the same VRF if that is spared too. */
  ghost predicate Spares(was: Devices, now: Devices, names: set<string>) {
    forall j :: j in was && was[j].name !in names ==> j in now && KeptDevice(was, now, names, j)
  }

  predicate KeptDevice(was: Devices, now: Devices, names: set<string>, j: int)
    requires j in was && j in now
  {
    && SameDevice(was[j], now[j]) && was[j].up == now[j].up && was[j].addrs == now[j].addrs
    && (was[j].master in was && was[was[j].master].name !in names ==> now[j].master == was[j].master)
  }

  /** A change of links that touches only these names. */
  ghost predicate Change(c: Config, names: set<string>, was: Devices, next: int, fs: set<Filter>,
                         now: Devices, nextNow: int, fsNow: set<Filter>) {
    LinksOnly(c, was, next, fs, now, nextNow, fsNow) && Spares(was, now, names)
    && forall i :: i in now && i !in was ==> now[i].name in names
  }

  lemma ChangeRefl(c: Config, names: set<string>, t: Devices, next: int, fs: set<Filter>)
    requires FiltersOn(fs, t)
    ensures Change(c, names, t, next, fs, t, next, fs)
  {
    LinksOnlyRefl(c, t, next, fs);
  }

  lemma AddChange(c: Config, t: Devices, next: int, fs: set<Filter>, d: Device)
    requires Bounded(t, next) && FiltersOn(fs, t) && !d.kind.VrfDevice?
    ensures Change(c, {d.name}, t, next, fs, t[next := d], next + 1, fs)
  {
    AddLinksOnly(c, t, next, fs, d);
    hide LinksOnly;
  }

  lemma DeleteChange(c: Config, t: Devices, next: int, fs: set<Filter>, i: int)
    requires Bounded(t, next) && i in t && Deletable(c, t, i)
    ensures Change(c, {t[i].name}, t, next, fs, Without(t, i), next, OnLinks(fs, Without(t, i)))
  {
    DeleteLinksOnly(c, t, next, fs, i);
    hide LinksOnly;
  }

  lemma SetUpChange(c: Config, t: Devices, next: int, fs: set<Filter>, i: int)
    requires Bounded(t, next) && FiltersOn(fs, t) && i in t
    ensures Change(c, {t[i].name}, t, next, fs, t[i := t[i].(up := true)], next, fs)
  {
    SetUpLinksOnly(c, t, next, fs, i);
    hide LinksOnly;
  }

  lemma AddrsChange(c: Config, t: Devices, next: int, fs: set<Filter>, i: int, addrs: set<DeviceAddr>)
    requires Bounded(t, next) && FiltersOn(fs, t) && i in t
    ensures Change(c, {t[i].name}, t, next, fs, t[i := t[i].(addrs := addrs)], next, fs)
  {
    var u := t[i := t[i].(addrs := addrs)];
    assert OnLinks(fs, u) == fs;
  }

  lemma ChangeTrans(c: Config, names: set<string>, a: Devices, na: int, fa: set<Filter>, b: Devices, nb: int, fb: set<Filter>,
                    d: Devices, nd: int, fd: set<Filter>)
    requires Bounded(a, na) && Bounded(b, nb) && FiltersOn(fa, a)
    requires Change(c, names, a, na, fa, b, nb, fb) && Change(c, names, b, nb, fb, d, nd, fd)
    ensures Change(c, names, a, na, fa, d, nd, fd)
  {
    LinksOnlyTrans(c, a, na, fa, b, nb, fb, d, nd, fd);
    forall i | i in d && i !in a ensures d[i].name in names {
      assert i in b ==> SameDevice(b[i], d[i]);
    }
    hide LinksOnly;
    forall j | j in a && a[j].name !in names ensures j in d && KeptDevice(a, d, names, j) {
      assert KeptDevice(a, b, names, j) && KeptDevice(b, d, names, j);
      if a[j].master in a && a[a[j].master].name !in names {
        assert KeptDevice(a, b, names, a[j].master);
      }
    }
  }

  lemma ChangeWidens(c: Config, name: string, names: set<string>, a: Devices, na: int, fa: set<Filter>, b: Devices, nb: int, fb: set<Filter>)
    requires Change(c, {name}, a, na, fa, b, nb, fb) && name in names
    ensures Change(c, names, a, na, fa, b, nb, fb)
  {
    hide LinksOnly;
    forall j | j in a && a[j].name !in names ensures j in b && KeptDevice(a, b, names, j) {
      assert KeptDevice(a, b, {name}, j);
    }
  }

  /** A dummy with this name, up, in the VRF. */
  predicate IsDummyIn(t: Devices, i: int, l: Loopback)
    requires i in t
  {
    t[i].name == l.name && t[i].kind.Dummy? && t[i].up && t[i].master in t && t[t[i].master].name == l.vrf
  }

  /** All configured addresses, and besides them only link-local ones. */
  predicate Carries(addrs: set<DeviceAddr>, l: Loopback) {
    && (forall k :: 0 <= k < |l.addresses| ==> l.addresses[k].Some? && l.addresses[k].value in addrs)
    && (forall a :: a in addrs ==> a.linkLocal || Some(a) in l.addresses)
  }

  /** The loopback as configured. */
  predicate IsLoopback(t: Devices, i: int, l: Loopback)
    requires i in t
  {
    IsDummyIn(t, i, l) && Carries(t[i].addrs, l)
  }

  lemma LoopbackKept(was: Devices, now: Devices, names: set<string>, i: int, l: Loopback)
    requires Spares(was, now, names) && i in was && IsLoopback(was, i, l) && l.name !in names && l.vrf !in names
    ensures i in now && IsLoopback(now, i, l)
  {
    assert KeptDevice(was, now, names, i);
    assert KeptDevice(was, now, names, was[i].master);
  }

  ghost predicate HasLoopback(t: Devices, l: Loopback) {
    exists i :: i in t && IsLoopback(t, i, l)
  }

  /** The first n loopbacks are in place. */
  ghost predicate HaveLoopbacks(c: Config, t: Devices, n: nat)
    requires n <= |c.loopbacks|
  {
    forall k :: 0 <= k < n ==> HasLoopback(t, c.loopbacks[k])
  }

  lemma HaveOneMore(c: Config, was: Devices, now: Devices, n: nat)
    requires Separate(c) && n < |c.loopbacks| && HaveLoopbacks(c, was, n) && Spares(was, now, {c.loopbacks[n].name})
    requires HasLoopback(now, c.loopbacks[n])
    ensures HaveLoopbacks(c, now, n + 1)
  {
    hide IsMirrorGre;
    var name := c.loopbacks[n].name;
    assert c.loopbacks[n] in c.loopbacks && name in LoopbackNames(c.loopbacks);
    forall k | 0 <= k < n + 1 ensures HasLoopback(now, c.loopbacks[k]) {
      if k < n {
        var l := c.loopbacks[k];
        assert l in c.loopbacks && l.vrf in MirrorVrfs(c.tunnels, c.loopbacks);
        var i :| i in was && IsLoopback(was, i, l);
        LoopbackKept(was, now, {name}, i, l);
      }
    }
  }

  lemma HaveStill(c: Config, was: Devices, now: Devices, n: nat)
    requires Separate(c) && n <= |c.loopbacks| && HaveLoopbacks(c, was, n) && Spares(was, now, TunnelNames(c.tunnels))
    ensures HaveLoopbacks(c, now, n)
  {
    hide IsMirrorGre;
    forall k | 0 <= k < n ensures HasLoopback(now, c.loopbacks[k]) {
      var l := c.loopbacks[k];
      assert l in c.loopbacks && l.vrf in MirrorVrfs(c.tunnels, c.loopbacks) && l.name in LoopbackNames(c.loopbacks);
      var i :| i in was && IsLoopback(was, i, l);
      LoopbackKept(was, now, TunnelNames(c.tunnels), i, l);
    }
  }

  /** The tunnel with its endpoints and key, in the VRF. */
  predicate IsTunnel(t: Devices, i: int, g: Tunnel)
    requires i in t
  {
    && g.local.Some? && g.remote.Some?
    && t[i].name == g.name && t[i].master in t && t[t[i].master].name == g.vrf
    && t[i].kind.Gre? && t[i].kind.layer2 == g.layer2 && t[i].kind.local == g.local.value && t[i].kind.remote == g.remote.value
    && t[i].kind.key == (if g.key.Some? then g.key.value else 0)
  }

  lemma TunnelKept(was: Devices, now: Devices, names: set<string>, i: int, g: Tunnel)
    requires Spares(was, now, names) && i in was && IsTunnel(was, i, g) && g.name !in names && g.vrf !in names
    ensures i in now && IsTunnel(now, i, g)
  {
    assert KeptDevice(was, now, names, i);
    assert KeptDevice(was, now, names, was[i].master);
  }

  /** The first n tunnels are in place, at the indices recorded for their names. */
  ghost predicate HaveTunnels(c: Config, t: Devices, index: map<string, int>, n: nat)
    requires n <= |c.tunnels|
  {
    forall k :: 0 <= k < n ==>
      c.tunnels[k].name in index && index[c.tunnels[k].name] in t && IsTunnel(t, index[c.tunnels[k].name], c.tunnels[k])
  }

  lemma HaveOneMoreTunnel(c: Config, was: Devices, now: Devices, index: map<string, int>, n: nat, i: int)
    requires Separate(c) && n < |c.tunnels| && HaveTunnels(c, was, index, n) && Spares(was, now, {c.tunnels[n].name})
    requires i in now && IsTunnel(now, i, c.tunnels[n])
    ensures HaveTunnels(c, now, index[c.tunnels[n].name := i], n + 1)
  {
    hide IsMirrorGre;
    var name := c.tunnels[n].name;
    assert c.tunnels[n] in c.tunnels && name in TunnelNames(c.tunnels);
    forall k | 0 <= k < n ensures index[c.tunnels[k].name] in now && IsTunnel(now, index[c.tunnels[k].name], c.tunnels[k]) {
      var g := c.tunnels[k];
      assert g in c.tunnels && g.vrf in MirrorVrfs(c.tunnels, c.loopbacks);
      TunnelKept(was, now, {name}, index[g.name], g);
    }
  }

  /** The tunnel is there as configured, but down, as a run that failed in between leaves it. */
  ghost predicate LeftDown(t: Devices, g: Tunnel) {
    exists i :: i in t && IsTunnel(t, i, g) && !t[i].up
  }

  /** The first n tunnels are up, except those that were left down before. */
  ghost predicate UpUnlessLeft(c: Config, was: Devices, t: Devices, index: map<string, int>, n: nat)
    requires n <= |c.tunnels|
  {
    forall k :: 0 <= k < n ==>
      c.tunnels[k].name in index && index[c.tunnels[k].name] in t
      && (t[index[c.tunnels[k].name]].up <==> !LeftDown(was, c.tunnels[k]))
  }

  /** From the n-th on, the same tunnels are left down. */
  ghost predicate SameLeft(c: Config, was: Devices, now: Devices, n: nat) {
    forall k :: n <= k < |c.tunnels| ==> (LeftDown(was, c.tunnels[k]) <==> LeftDown(now, c.tunnels[k]))
  }

  /** A tunnel that was added in a VRF but never set up. */
  lemma DownTunnelIsLeft(g: Tunnel)
    requires g.local.Some? && g.remote.Some?
    ensures LeftDown(map[1 := Device(g.vrf, VrfDevice, 0, true, {}), 2 := Device(g.name, GreKind(g), 1, false, {})], g)
  {
    var t: Devices := map[1 := Device(g.vrf, VrfDevice, 0, true, {}), 2 := Device(g.name, GreKind(g), 1, false, {})];
    assert IsTunnel(t, 2, g);
  }

  lemma LeftStays(c: Config, names: set<string>, was: Devices, next: int, fs: set<Filter>, now: Devices, nextNow: int, fsNow: set<Filter>, g: Tunnel)
    requires Change(c, names, was, next, fs, now, nextNow, fsNow) && Bounded(now, nextNow) && g.name !in names && g.vrf !in names
    ensures LeftDown(was, g) <==> LeftDown(now, g)
  {
    if LeftDown(was, g) {
      var i :| i in was && IsTunnel(was, i, g) && !was[i].up;
      TunnelKept(was, now, names, i, g);
      assert KeptDevice(was, now, names, i);
    }
    if LeftDown(now, g) {
      var i :| i in now && IsTunnel(now, i, g) && !now[i].up;
      assert SameDevice(was[i], now[i]) && KeptDevice(was, now, names, i);
      assert SameDevice(was[now[i].master], now[now[i].master]);
    }
  }

  lemma LeftStaysOver(c: Config, names: set<string>, was: Devices, next: int, fs: set<Filter>, now: Devices, nextNow: int, fsNow: set<Filter>, n: nat)
    requires Separate(c) && Change(c, names, was, next, fs, now, nextNow, fsNow) && Bounded(now, nextNow)
    requires names == LoopbackNames(c.loopbacks) || (0 < n <= |c.tunnels| && names == {c.tunnels[n - 1].name})
    ensures SameLeft(c, was, now, n)
  {
    hide Change;
    hide IsMirrorGre;
    hide LeftDown;
    forall k | n <= k < |c.tunnels| ensures LeftDown(was, c.tunnels[k]) <==> LeftDown(now, c.tunnels[k]) {
      var g := c.tunnels[k];
      assert g in c.tunnels && g.vrf in MirrorVrfs(c.tunnels, c.loopbacks) && g.name in TunnelNames(c.tunnels);
      if names != LoopbackNames(c.loopbacks) {
        assert c.tunnels[n - 1] in c.tunnels && c.tunnels[n - 1].name in TunnelNames(c.tunnels);
      }
      LeftStays(c, names, was, next, fs, now, nextNow, fsNow, g);
    }
  }

  lemma OneMoreUp(c: Config, first: Devices, was: Devices, now: Devices, index: map<string, int>, n: nat, i: int)
    requires Separate(c) && n < |c.tunnels| && HaveTunnels(c, was, index, n) && UpUnlessLeft(c, first, was, index, n)
    requires Spares(was, now, {c.tunnels[n].name}) && SameLeft(c, first, was, n)
    requires i in now && (now[i].up <==> !LeftDown(was, c.tunnels[n]))
    ensures UpUnlessLeft(c, first, now, index[c.tunnels[n].name := i], n + 1)
  {
    hide LeftDown;
    hide IsMirrorGre;
    var name := c.tunnels[n].name;
    forall k | 0 <= k < n ensures index[c.tunnels[k].name] in now && (now[index[c.tunnels[k].name]].up <==> !LeftDown(first, c.tunnels[k])) {
      var j := index[c.tunnels[k].name];
      assert IsTunnel(was, j, c.tunnels[k]) && was[j].name != name;
      assert KeptDevice(was, now, {name}, j);
    }
  }

  /** What one round of ReconcileGRETunnels adds to the rounds before it. */
  ghost predicate TunnelsBuilt(c: Config, first: Devices, t: Devices, index: map<string, int>, n: nat)
    requires n <= |c.tunnels|
  {
    Separate(c) ==> HaveTunnels(c, t, index, n) && UpUnlessLeft(c, first, t, index, n) && SameLeft(c, first, t, n)
  }

  lemma BuiltOneMore(c: Config, first: Devices, was: Devices, next: int, fs: set<Filter>, now: Devices, nextNow: int,
                     fsNow: set<Filter>, index: map<string, int>, n: nat, i: int)
    requires n < |c.tunnels| && TunnelsBuilt(c, first, was, index, n) && Bounded(now, nextNow)
    requires Change(c, {c.tunnels[n].name}, was, next, fs, now, nextNow, fsNow)
    requires i in now && IsTunnel(now, i, c.tunnels[n]) && (now[i].up <==> !LeftDown(was, c.tunnels[n]))
    ensures TunnelsBuilt(c, first, now, index[c.tunnels[n].name := i], n + 1)
  {
    if Separate(c) {
      assert Spares(was, now, {c.tunnels[n].name});
      hide *;
      HaveOneMoreTunnel(c, was, now, index, n, i);
      OneMoreUp(c, first, was, now, index, n, i);
      LeftStaysOver(c, {c.tunnels[n].name}, was, next, fs, now, nextNow, fsNow, n + 1);
      SameLeftTrans(c, first, was, now, n);
    }
  }

  lemma Built(c: Config, first: Devices, t: Devices, index: map<string, int>)
    requires TunnelsBuilt(c, first, t, index, |c.tunnels|)
    ensures Separate(c) ==> HaveTunnels(c, t, index, |c.tunnels|) && UpUnlessLeft(c, first, t, index, |c.tunnels|)
  {
  }

  lemma SameLeftTrans(c: Config, a: Devices, b: Devices, d: Devices, n: nat)
    requires SameLeft(c, a, b, n) && SameLeft(c, b, d, n + 1)
    ensures SameLeft(c, a, d, n + 1)
  {
    hide LeftDown;
  }

  /** Cleanup takes no tunnel, and what stays keeps its state. */
  lemma UpAfterCleanup(c: Config, first: Devices, t: Devices, order: seq<int>, index: map<string, int>, n: nat)
    requires VrfsAreVrfs(c, t) && n <= |c.tunnels| && HaveTunnels(c, t, index, n) && forall i :: i in t ==> i in order
    requires UpUnlessLeft(c, first, t, index, n)
    ensures UpUnlessLeft(c, first, Pruned(t, StaleAmong(c, t, order)), index, n)
  {
    hide LeftDown;
    hide VrfsAreVrfs;
    hide IsTunnel;
    forall k | 0 <= k < n ensures index[c.tunnels[k].name] in Pruned(t, StaleAmong(c, t, order)) {
      CleanupTunnelIff(c, t, order, c.tunnels[k], index[c.tunnels[k].name]);
    }
  }

  /** Names that do not get in each other's way: one device per name. */
  predicate Separate(c: Config) {
    && (forall i, j :: 0 <= i < j < |c.loopbacks| ==> c.loopbacks[i].name != c.loopbacks[j].name)
    && (forall i, j :: 0 <= i < j < |c.tunnels| ==> c.tunnels[i].name != c.tunnels[j].name)
    && LoopbackNames(c.loopbacks) !! TunnelNames(c.tunnels)
    && MirrorVrfs(c.tunnels, c.loopbacks) !! LoopbackNames(c.loopbacks) + TunnelNames(c.tunnels)
  }

  function GreKind(t: Tunnel): DeviceKind
    requires t.local.Some? && t.remote.Some?
  {
    Gre(t.layer2, t.local.value, t.remote.value, if t.key.Some? then t.key.value else 0)
  }

  // ---- Cleanup ----

  /** Which listed links cleanupMirrorLink deletes. */
  predicate Stale(c: Config, t: Devices, i: int)
    requires i in t
  {
    if IsMirrorGre(t[i].name) then t[i].name !in TunnelNames(c.tunnels)
    else
      && !IsMirrorSource(t[i].name)
      && t[i].kind.Dummy? && t[i].master in VrfIndices(t, MirrorVrfs(c.tunnels, c.loopbacks))
      && t[i].name !in LoopbackNames(c.loopbacks)
  }

  function VrfIndices(t: Devices, names: set<string>): set<int> {
    set i | i in t && t[i].kind.VrfDevice? && t[i].name in names
  }

  /** Filters only go: forwarding ones with their link, and none at all from a desired source that stays. */
  ghost predicate Swept(c: Config, links: Devices, was: set<Filter>, now: set<Filter>, left: Devices) {
    && now <= was
    && FiltersOn(now, left)
    && (forall f: Filter :: f in was && f.link in left && f.link in links && SweepSpares(c, links, f) ==> f in now)
  }

  predicate SweepSpares(c: Config, links: Devices, f: Filter)
    requires f.link in links
  {
    f.prio < BASE || links[f.link].name in Sources(c.rules)
  }

  /** A link of source shape that no rule names any more. */
  predicate NeedsSweep(c: Config, t: Devices, i: int)
    requires i in t
  {
    !IsMirrorGre(t[i].name) && IsMirrorSource(t[i].name) && t[i].name !in Sources(c.rules)
  }

  predicate NoMirrors(fs: set<Filter>, i: int) {
    forall f :: f in fs && f.link == i ==> f.prio < BASE
  }

  /** Former sources carry no mirror filter, unless their filters cannot be listed. */
  predicate FormerSourcesClean(c: Config, t: Devices, fs: set<Filter>, unreadable: set<int>) {
    forall i :: i in t && i !in unreadable && NeedsSweep(c, t, i) ==> NoMirrors(fs, i)
  }

  /** The former sources among the first k of the dump have no mirror filter left. */
  predicate CleanSoFar(c: Config, t: Devices, order: seq<int>, k: nat, fs: set<Filter>, unreadable: set<int>)
    requires k <= |order|
  {
    forall j :: 0 <= j < k && order[j] in t && order[j] !in unreadable && NeedsSweep(c, t, order[j]) ==> NoMirrors(fs, order[j])
  }

  lemma CleanOneMore(c: Config, t: Devices, order: seq<int>, k: nat, was: set<Filter>, now: set<Filter>, unreadable: set<int>)
    requires k < |order| && CleanSoFar(c, t, order, k, was, unreadable) && now <= was
    requires order[k] in t && order[k] !in unreadable && NeedsSweep(c, t, order[k]) ==> NoMirrors(now, order[k])
    ensures CleanSoFar(c, t, order, k + 1, now, unreadable)
  {
  }

  lemma CleanAtLast(c: Config, t: Devices, order: seq<int>, fs: set<Filter>, unreadable: set<int>)
    requires CleanSoFar(c, t, order, |order|, fs, unreadable) && forall i :: i in t ==> i in order
    ensures FormerSourcesClean(c, t, fs, unreadable)
  {
    hide NeedsSweep;
    hide NoMirrors;
    forall i | i in t && i !in unreadable && NeedsSweep(c, t, i) ensures NoMirrors(fs, i) {
      var j :| 0 <= j < |order| && order[j] == i;
    }
  }

  lemma CleanAfterPruning(c: Config, t: Devices, gone: set<int>, fs: set<Filter>, unreadable: set<int>)
    requires FormerSourcesClean(c, t, fs, unreadable)
    ensures FormerSourcesClean(c, Pruned(t, gone), fs, unreadable)
  {
    hide NoMirrors;
    hide IsMirrorGre;
    hide IsMirrorSource;
    hide Sources;
    forall i | i in Pruned(t, gone) && i !in unreadable && NeedsSweep(c, Pruned(t, gone), i) ensures NoMirrors(fs, i) {
      assert NeedsSweep(c, t, i);
    }
  }

  lemma SweptRefl(c: Config, t: Devices, fs: set<Filter>)
    requires FiltersOn(fs, t)
    ensures Swept(c, t, fs, fs, t)
  {
  }

  lemma SweptDelete(c: Config, listed: Devices, was: set<Filter>, now: set<Filter>, left: Devices, i: int)
    requires Swept(c, listed, was, now, left)
    ensures Swept(c, listed, was, OnLinks(now, Without(left, i)), Without(left, i))
  {
  }

  lemma SweptClear(c: Config, listed: Devices, was: set<Filter>, mid: set<Filter>, now: set<Filter>, left: Devices, i: int)
    requires Swept(c, listed, was, mid, left) && now <= mid && OnlyMirrors(mid, now, i)
    requires i in listed ==> listed[i].name !in Sources(c.rules)
    ensures Swept(c, listed, was, now, left)
  {
  }

  function StaleAmong(c: Config, t: Devices, order: seq<int>): set<int> {
    set i | i in order && i in t && Stale(c, t, i)
  }

  /** The links without the given ones. */
  function Pruned(t: Devices, gone: set<int>): Devices {
    map j | j in t && j !in gone :: if t[j].master in gone then t[j].(master := 0) else t[j]
  }

  /** The links left once the first k of the dump have been looked at. */
  function LeftAfter(c: Config, t: Devices, order: seq<int>, k: nat): Devices
    requires k <= |order|
  {
    Pruned(t, StaleAmong(c, t, order[..k]))
  }

  lemma CleanupStarts(c: Config, t: Devices, order: seq<int>)
    ensures LeftAfter(c, t, order, 0) == t
  {
    hide Stale;
  }

  lemma CleanupStep(c: Config, t: Devices, order: seq<int>, k: nat)
    requires k < |order| && order[k] in t && order[k] != 0 && order[k] !in order[..k]
    ensures order[k] in LeftAfter(c, t, order, k)
    ensures LeftAfter(c, t, order, k + 1)
            == if Stale(c, t, order[k]) then Without(LeftAfter(c, t, order, k), order[k]) else LeftAfter(c, t, order, k)
  {
    hide Stale;
    var gone := StaleAmong(c, t, order[..k]);
    assert order[..k + 1] == order[..k] + [order[k]];
    if Stale(c, t, order[k]) {
      assert StaleAmong(c, t, order[..k + 1]) == gone + {order[k]};
      assert Without(Pruned(t, gone), order[k]) == Pruned(t, gone + {order[k]});
    } else {
      assert StaleAmong(c, t, order[..k + 1]) == gone;
    }
  }

  lemma CleanupEvolves(c: Config, t: Devices, next: int, order: seq<int>)
    requires Bounded(t, next)
    ensures Evolves(c, t, next, Pruned(t, StaleAmong(c, t, order)))
  {
    hide IsMirrorGre;
    hide IsMirrorSource;
    hide TunnelNames;
    hide LoopbackNames;
    hide MirrorVrfs;
    forall i | i in t && i !in Pruned(t, StaleAmong(c, t, order)) ensures Deletable(c, t, i) {
      assert Stale(c, t, i);
    }
  }

  /** The links that carry mirror VRF names are VRFs. */
  predicate VrfsAreVrfs(c: Config, t: Devices) {
    forall i :: i in t && t[i].name in MirrorVrfs(c.tunnels, c.loopbacks) ==> t[i].kind.VrfDevice?
  }

  predicate UniqueDevices(links: Devices) {
    forall i, j :: i in links && j in links && links[i].name == links[j].name ==> i == j
  }

  /** Cleanup takes a link of this name for a stale tunnel, whatever it is. */
  predicate Swallowed(c: Config, name: string) {
    IsMirrorGre(name) && name !in TunnelNames(c.tunnels)
  }

  predicate LoopbacksSpared(c: Config, n: nat)
    requires n <= |c.loopbacks|
  {
    forall k :: 0 <= k < n ==> !Swallowed(c, c.loopbacks[k].name) && !Swallowed(c, c.loopbacks[k].vrf)
  }

  predicate TunnelsSpared(c: Config, n: nat)
    requires n <= |c.tunnels|
  {
    forall k :: 0 <= k < n ==> !Swallowed(c, c.tunnels[k].vrf)
  }

  /** No link of a swallowed name is left. */
  lemma SwallowedIsGone(c: Config, t: Devices, order: seq<int>, name: string, i: int)
    requires Swallowed(c, name) && (forall j :: j in t ==> j in order)
    requires i in Pruned(t, StaleAmong(c, t, order))
    ensures Pruned(t, StaleAmong(c, t, order))[i].name != name
  {
    hide IsMirrorGre;
    assert i in t && !Stale(c, t, i);
  }

  /** A loopback in place survives a cleanup exactly when neither its name nor its VRF's is swallowed. */
  lemma CleanupLoopbackIff(c: Config, t: Devices, order: seq<int>, l: Loopback)
    requires VrfsAreVrfs(c, t) && l in c.loopbacks && HasLoopback(t, l) && forall i :: i in t ==> i in order
    ensures HasLoopback(Pruned(t, StaleAmong(c, t, order)), l) <==> !Swallowed(c, l.name) && !Swallowed(c, l.vrf)
  {
    hide IsMirrorGre;
    hide IsMirrorSource;
    hide Carries;
    var now := Pruned(t, StaleAmong(c, t, order));
    assert l.vrf in MirrorVrfs(c.tunnels, c.loopbacks) && l.name in LoopbackNames(c.loopbacks);
    if !Swallowed(c, l.name) && !Swallowed(c, l.vrf) {
      var i :| i in t && IsLoopback(t, i, l);
      assert !Stale(c, t, i) && !Stale(c, t, t[i].master);
      assert i in now && IsLoopback(now, i, l);
    }
    if HasLoopback(now, l) {
      var i :| i in now && IsLoopback(now, i, l);
      if Swallowed(c, l.name) {
        SwallowedIsGone(c, t, order, l.name, i);
        assert false;
      }
      if Swallowed(c, l.vrf) {
        SwallowedIsGone(c, t, order, l.vrf, now[i].master);
        assert false;
      }
    }
  }

  /** Every gre- or gtap- link is a tunnel, and every dummy in a mirror VRF a loopback, a tunnel or named as a source. */
  ghost predicate NoLeftovers(c: Config, t: Devices) {
    && (forall i :: i in t && (GRE_PREFIX <= t[i].name || GRETAP_PREFIX <= t[i].name) ==>
          exists g :: g in c.tunnels && g.name == t[i].name)
    && (forall i :: i in t && t[i].kind.Dummy? && t[i].master in t && InMirrorVrf(c, t[t[i].master]) ==>
          || (exists l :: l in c.loopbacks && l.name == t[i].name)
          || (exists g :: g in c.tunnels && g.name == t[i].name)
          || VLAN <= t[i].name || VX <= t[i].name || L2 <= t[i].name)
  }

  predicate InMirrorVrf(c: Config, vrf: Device) {
    && vrf.kind.VrfDevice?
    && ((exists g :: g in c.tunnels && g.vrf == vrf.name) || (exists l :: l in c.loopbacks && l.vrf == vrf.name))
  }

  lemma NothingStaleIsLeft(c: Config, t: Devices, order: seq<int>)
    requires 0 !in t && forall j :: j in t ==> j in order
    ensures NoLeftovers(c, Pruned(t, StaleAmong(c, t, order)))
  {
    var now := Pruned(t, StaleAmong(c, t, order));
    assert forall i :: i in now ==> i in t && !Stale(c, t, i) && now[i].name == t[i].name && now[i].kind == t[i].kind;
    forall i | i in now && now[i].kind.Dummy? && now[i].master in now && InMirrorVrf(c, now[now[i].master])
      ensures t[i].master in VrfIndices(t, MirrorVrfs(c.tunnels, c.loopbacks))
    {
      assert t[i].master == now[i].master;
    }
  }

  /** So cleanup keeps the loopbacks exactly when no name among them and their VRFs is swallowed. */
  lemma CleanupKeepsLoopbacks(c: Config, t: Devices, order: seq<int>, n: nat)
    requires VrfsAreVrfs(c, t) && n <= |c.loopbacks| && HaveLoopbacks(c, t, n) && forall i :: i in t ==> i in order
    ensures HaveLoopbacks(c, Pruned(t, StaleAmong(c, t, order)), n) <==> LoopbacksSpared(c, n)
  {
    hide HasLoopback;
    hide Swallowed;
    hide VrfsAreVrfs;
    forall k | 0 <= k < n
      ensures HasLoopback(Pruned(t, StaleAmong(c, t, order)), c.loopbacks[k])
              <==> !Swallowed(c, c.loopbacks[k].name) && !Swallowed(c, c.loopbacks[k].vrf)
    {
      CleanupLoopbackIff(c, t, order, c.loopbacks[k]);
    }
  }

  /** A tunnel is never swallowed itself; it keeps its VRF exactly when the VRF's name is not swallowed. */
  lemma CleanupTunnelIff(c: Config, t: Devices, order: seq<int>, g: Tunnel, i: int)
    requires VrfsAreVrfs(c, t) && g in c.tunnels && i in t && IsTunnel(t, i, g) && forall j :: j in t ==> j in order
    ensures i in Pruned(t, StaleAmong(c, t, order))
    ensures IsTunnel(Pruned(t, StaleAmong(c, t, order)), i, g) <==> !Swallowed(c, g.vrf)
  {
    hide IsMirrorGre;
    hide IsMirrorSource;
    var now := Pruned(t, StaleAmong(c, t, order));
    assert g.vrf in MirrorVrfs(c.tunnels, c.loopbacks) && g.name in TunnelNames(c.tunnels);
    assert !Stale(c, t, i);
    if !Swallowed(c, g.vrf) {
      assert !Stale(c, t, t[i].master);
    } else if IsTunnel(now, i, g) {
      SwallowedIsGone(c, t, order, g.vrf, now[i].master);
      assert false;
    }
  }

  lemma CleanupKeepsTunnels(c: Config, t: Devices, order: seq<int>, index: map<string, int>, n: nat)
    requires VrfsAreVrfs(c, t) && n <= |c.tunnels| && HaveTunnels(c, t, index, n) && forall i :: i in t ==> i in order
    ensures HaveTunnels(c, Pruned(t, StaleAmong(c, t, order)), index, n) <==> TunnelsSpared(c, n)
  {
    hide IsTunnel;
    hide Swallowed;
    hide VrfsAreVrfs;
    var now := Pruned(t, StaleAmong(c, t, order));
    forall k | 0 <= k < n
      ensures index[c.tunnels[k].name] in now
              && (IsTunnel(now, index[c.tunnels[k].name], c.tunnels[k]) <==> !Swallowed(c, c.tunnels[k].vrf))
    {
      CleanupTunnelIff(c, t, order, c.tunnels[k], index[c.tunnels[k].name]);
    }
  }

  /** A loopback called gre-x is in place before a cleanup and gone after it. */
  lemma GreLoopbackIsDeleted()
    ensures var c := Config([Loopback("gre-x", "v", [])], [], []);
            var t := map[1 := Device("v", VrfDevice, 0, true, {}), 2 := Device("gre-x", Dummy, 1, true, {})];
            && Separate(c) && VrfsAreVrfs(c, t) && UniqueDevices(t)
            && HaveLoopbacks(c, t, 1) && !HaveLoopbacks(c, Pruned(t, StaleAmong(c, t, [1, 2])), 1)
  {
    hide Pruned;
    hide StaleAmong;
    var l := Loopback("gre-x", "v", []);
    var c := Config([l], [], []);
    var t: Devices := map[1 := Device("v", VrfDevice, 0, true, {}), 2 := Device("gre-x", Dummy, 1, true, {})];
    assert c.loopbacks[0] == l && GRE_PREFIX <= l.name;
    assert IsLoopback(t, 2, l) && HasLoopback(t, l);
    CleanupKeepsLoopbacks(c, t, [1, 2], 1);
    assert Swallowed(c, c.loopbacks[0].name);
  }

  /** A VRF called gre-v is deleted under the loopback it holds. */
  lemma GreVrfIsDeleted()
    ensures var c := Config([Loopback("lo", "gre-v", [])], [], []);
            var t := map[1 := Device("gre-v", VrfDevice, 0, true, {}), 2 := Device("lo", Dummy, 1, true, {})];
            && Separate(c) && VrfsAreVrfs(c, t) && UniqueDevices(t)
            && HaveLoopbacks(c, t, 1) && 1 !in Pruned(t, StaleAmong(c, t, [1, 2]))
            && !HaveLoopbacks(c, Pruned(t, StaleAmong(c, t, [1, 2])), 1)
  {
    var l := Loopback("lo", "gre-v", []);
    var c := Config([l], [], []);
    var t: Devices := map[1 := Device("gre-v", VrfDevice, 0, true, {}), 2 := Device("lo", Dummy, 1, true, {})];
    assert c.loopbacks[0] == l && GRE_PREFIX <= l.vrf;
    assert IsLoopback(t, 2, l) && HasLoopback(t, l);
    CleanupKeepsLoopbacks(c, t, [1, 2], 1);
    assert Swallowed(c, c.loopbacks[0].vrf);
    assert Stale(c, t, 1);
  }

  lemma VrfsStay(c: Config, was: Devices, next: int, fs: set<Filter>, now: Devices, nextNow: int, fsNow: set<Filter>, names: set<string>)
    requires VrfsAreVrfs(c, was) && Change(c, names, was, next, fs, now, nextNow, fsNow)
    requires names !! MirrorVrfs(c.tunnels, c.loopbacks)
    ensures VrfsAreVrfs(c, now)
  {
  }
}
