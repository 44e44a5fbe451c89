/** ReconcileMirror and its parts (pkg/nl/mirror.go), as they change links and tc filters. */
module MirrorManager {
  import opened Text
  import opened LinkTable
  import opened MirrorKernel
  import opened MirrorPlan
  import MirrorMatch

  /** Mirror filters laid so far, per hook. */
  datatype Laid = Laid(ingress: seq<Body>, egress: seq<Body>) {
    function At(h: Hook): seq<Body> {
      if h == Ingress then ingress else egress
    }
    function Add(h: Hook, more: seq<Body>): Laid {
      if h == Ingress then Laid(ingress + more, egress) else Laid(ingress, egress + more)
    }
  }

  ghost predicate LaidOut(fs: set<Filter>, i: int, l: Laid) {
    Numbered(fs, i, Ingress, l.ingress) && Numbered(fs, i, Egress, l.egress)
  }

  /** prioByParent: the next priority offset per hook. */
  datatype Counters = Counters(ingress: nat, egress: nat) {
    function At(h: Hook): nat {
      if h == Ingress then ingress else egress
    }
    function Bump(h: Hook): Counters {
      if h == Ingress then Counters(ingress + 1, egress) else Counters(ingress, egress + 1)
    }
  }

  predicate Counts(c: Counters, l: Laid) {
    c.ingress == |l.ingress| && c.egress == |l.egress|
  }

  /** nextMirrorPriority: a full range is reported, never wrapped. */
  function NextPriority(c: Counters, h: Hook): (r: Option<nat>)
    ensures r.Some? <==> c.At(h) <= LAST - BASE
    ensures r.Some? ==> BASE <= r.value <= LAST
  {
    var p := BASE + c.At(h);
    if p > LAST then None else Some(p)
  }

  function Spread(l: Laid, hooks: seq<Hook>, bodies: seq<Body>): Laid {
    Laid(l.ingress + (if Ingress in hooks then bodies else []), l.egress + (if Egress in hooks then bodies else []))
  }

  /** What is laid once a rule has been added at all its hooks. */
  function AfterRule(l: Laid, r: Rule, tunnels: map<string, int>): Laid {
    if r.gre in tunnels then Spread(l, Parents(r.direction, r.workloadFacing), Bodies(r, tunnels[r.gre])) else l
  }

  predicate Within(part: Laid, whole: Laid) {
    part.ingress <= whole.ingress && part.egress <= whole.egress
  }

  /** Adding at the next hook; stopping there leaves a part of the whole. */
  lemma SpreadStep(l: Laid, hooks: seq<Hook>, k: nat, bodies: seq<Body>)
    requires k < |hooks| && forall i, j :: 0 <= i < j < |hooks| ==> hooks[i] != hooks[j]
    ensures Spread(l, hooks[..k], bodies).Add(hooks[k], bodies) == Spread(l, hooks[..k + 1], bodies)
    ensures forall n :: 0 <= n <= |bodies| ==> Within(Spread(l, hooks[..k], bodies).Add(hooks[k], bodies[..n]), Spread(l, hooks, bodies))
  {
    assert hooks[..k + 1] == hooks[..k] + [hooks[k]];
    assert hooks[k] !in hooks[..k];
    assert hooks[k] in hooks;
    assert forall h :: h in hooks[..k] ==> h in hooks;
  }

  function AllWanted(rules: seq<Rule>, tunnels: map<string, int>): Laid {
    Laid(Wanted(rules, tunnels, Ingress), Wanted(rules, tunnels, Egress))
  }

  lemma AllWantedNone(rules: seq<Rule>, tunnels: map<string, int>)
    ensures AllWanted(rules[..0], tunnels) == Laid([], [])
  {
  }

  lemma AllWantedStep(rules: seq<Rule>, k: nat, tunnels: map<string, int>)
    requires k < |rules|
    ensures AfterRule(AllWanted(rules[..k], tunnels), rules[k], tunnels) == AllWanted(rules[..k + 1], tunnels)
  {
    assert rules[..k + 1][..k] == rules[..k];
  }

  lemma {:induction false} AllWantedPrefix(rules: seq<Rule>, k: nat, tunnels: map<string, int>)
    requires k <= |rules|
    ensures Within(AllWanted(rules[..k], tunnels), AllWanted(rules, tunnels))
    decreases |rules| - k
  {
    if k == |rules| {
      assert rules[..k] == rules;
    } else {
      AllWantedStep(rules, k, tunnels);
      AllWantedPrefix(rules, k + 1, tunnels);
    }
  }

  lemma AddTakes(l: Laid, h: Hook, bodies: seq<Body>, j: nat)
    requires j < |bodies|
    ensures l.Add(h, bodies[..j]).Add(h, [bodies[j]]) == l.Add(h, bodies[..j + 1])
  {
    assert bodies[..j + 1] == bodies[..j] + [bodies[j]];
  }

  lemma OneMoreLaid(fs: set<Filter>, i: int, l: Laid, c: Counters, h: Hook, b: Body)
    requires LaidOut(fs, i, l) && Counts(c, l) && NextPriority(c, h).Some?
    ensures var f := Filter(i, h, NextPriority(c, h).value, b);
            && LaidOut(fs + {f}, i, l.Add(h, [b])) && OnlyMirrors(fs, fs + {f}, i)
  {
  }

  // ---- Several interfaces ----

  /** Forwarding filters are untouched and every hook is orderly. */
  ghost predicate Settled(was: set<Filter>, now: set<Filter>, links: Devices) {
    && (forall f: Filter :: f.prio < BASE ==> (f in was <==> f in now))
    && (forall i, h :: i in links ==> Orderly(was, now, i, h))
  }

  /** The links with these names carry exactly the filters their rules ask for. */
  ghost predicate Installed(fs: set<Filter>, links: Devices, rules: seq<Rule>, tunnels: map<string, int>, names: set<string>) {
    forall i :: i in links && links[i].name in names ==>
      LaidOut(fs, i, AllWanted(RulesFor(rules, links[i].name), tunnels))
  }

  /** The other links are as they were. */
  ghost predicate Untouched(was: set<Filter>, now: set<Filter>, links: Devices, names: set<string>) {
    forall f: Filter :: f.link in links && links[f.link].name !in names ==> (f in was <==> f in now)
  }

  lemma LaidSends(fs: set<Filter>, i: int, rules: seq<Rule>, tunnels: map<string, int>)
    requires LaidOut(fs, i, AllWanted(rules, tunnels))
    ensures forall h, target, p :: Sends(fs, i, h, target, p) <==> AskedBy(rules, tunnels, h, target, p)
  {
    hide Sends;
    hide AskedBy;
    hide Numbered;
    hide Wanted;
    forall h: Hook, target, p ensures Sends(fs, i, h, target, p) <==> AskedBy(rules, tunnels, h, target, p) {
      assert h == Ingress || h == Egress;
      WantedIsAsked(fs, i, h, rules, tunnels, target, p);
    }
  }

  lemma InstalledSends(fs: set<Filter>, links: Devices, rules: seq<Rule>, tunnels: map<string, int>)
    requires Installed(fs, links, rules, tunnels, Sources(rules))
    ensures SendsAsAsked(fs, links, rules, tunnels)
  {
    hide Sends;
    hide Asked;
    hide AskedBy;
    hide LaidOut;
    hide AllWanted;
    hide RulesFor;
    forall i, h, target, p: MirrorMatch.Packet | i in links && (exists r :: r in rules && r.source == links[i].name)
      ensures Sends(fs, i, h, target, p) <==> Asked(rules, links[i].name, tunnels, h, target, p)
    {
      assert links[i].name in Sources(rules);
      LaidSends(fs, i, RulesFor(rules, links[i].name), tunnels);
      AskedOfSource(rules, links[i].name, tunnels, h, target, p);
    }
  }

  lemma NothingDone(fs: set<Filter>, links: Devices, rules: seq<Rule>, tunnels: map<string, int>)
    ensures Installed(fs, links, rules, tunnels, {}) && Untouched(fs, fs, links, {}) && Settled(fs, fs, links)
  {
    forall i, h | i in links ensures Orderly(fs, fs, i, h) {
      assert MirrorsWithin(fs, fs, i, h);
    }
  }

  lemma SetupSettles(was: set<Filter>, mid: set<Filter>, now: set<Filter>, links: Devices, i: int, iface: string,
                     laid: Option<Laid>, done: set<string>)
    requires Settled(was, mid, links) && Untouched(was, mid, links, done) && OnlyMirrors(mid, now, i) && iface !in done
    requires now == mid || (i in links && links[i].name == iface)
    requires laid.None? ==> now <= mid
    requires laid.Some? ==> LaidOut(now, i, laid.value)
    ensures Settled(was, now, links)
  {
    forall j, h | j in links ensures Orderly(was, now, j, h) {
      assert Orderly(was, mid, j, h);
      if now == mid {
      } else if j != i {
        OrderlyElsewhere(was, mid, now, i, j, h);
      } else if laid.Some? {
        assert Numbered(now, i, h, laid.value.At(h));
      } else {
        assert MirrorsWithin(was, now, i, h);
      }
    }
  }

  lemma UntouchedElsewhere(was: set<Filter>, mid: set<Filter>, now: set<Filter>, links: Devices, i: int, iface: string,
                           done: set<string>, all: set<string>)
    requires Untouched(was, mid, links, done) && OnlyMirrors(mid, now, i) && iface in all && done <= all
    requires now == mid || (i in links && links[i].name == iface)
    ensures Untouched(was, now, links, all)
  {
  }

  lemma OrderlyElsewhere(was: set<Filter>, mid: set<Filter>, now: set<Filter>, i: int, j: int, h: Hook)
    requires Orderly(was, mid, j, h) && OnlyMirrors(mid, now, i) && i != j
    ensures Orderly(was, now, j, h)
  {
    if !MirrorsWithin(was, mid, j, h) {
      var bodies :| Numbered(mid, j, h, bodies);
      assert Numbered(now, j, h, bodies);
    } else {
      assert MirrorsWithin(was, now, j, h);
    }
  }

  lemma LaidElsewhere(mid: set<Filter>, now: set<Filter>, i: int, j: int, l: Laid)
    requires LaidOut(mid, j, l) && OnlyMirrors(mid, now, i) && i != j
    ensures LaidOut(now, j, l)
  {
  }

  lemma SetupInstalls(was: set<Filter>, mid: set<Filter>, now: set<Filter>, links: Devices, i: int,
                      rules: seq<Rule>, tunnels: map<string, int>, done: set<string>)
    requires UniqueDevices(links) && i in links && OnlyMirrors(mid, now, i)
    requires Installed(mid, links, rules, tunnels, done) && Untouched(was, mid, links, done) && links[i].name !in done
    requires LaidOut(now, i, AllWanted(RulesFor(rules, links[i].name), tunnels))
    ensures Installed(now, links, rules, tunnels, done + {links[i].name})
    ensures Untouched(was, now, links, done + {links[i].name})
  {
    hide LaidOut;
    hide RulesFor;
    hide AllWanted;
    forall j | j in links && links[j].name in done + {links[i].name}
      ensures LaidOut(now, j, AllWanted(RulesFor(rules, links[j].name), tunnels))
    {
      if j != i {
        LaidElsewhere(mid, now, i, j, AllWanted(RulesFor(rules, links[j].name), tunnels));
      }
    }
  }

  lemma NothingLaid(fs: set<Filter>, i: int)
    requires LaidOut(fs, i, Laid([], []))
    ensures NoMirrors(fs, i)
  {
    forall f | f in fs && f.link == i ensures f.prio < BASE {
      assert f.hook == Ingress || f.hook == Egress;
    }
  }

  // ---- Loopback addresses ----

  /** Only the addresses of link i differ. */
  ghost predicate OnlyAddrs(was: Devices, now: Devices, i: int) {
    i in was && i in now && now == was[i := was[i].(addrs := now[i].addrs)]
  }

  lemma AddressesInPlace(was: set<DeviceAddr>, now: set<DeviceAddr>, current: seq<DeviceAddr>, desired: seq<DeviceAddr>, l: Loopback)
    requires |desired| == |l.addresses| && forall k :: 0 <= k < |desired| ==> l.addresses[k] == Some(desired[k])
    requires forall a :: a in current <==> a in was && !a.linkLocal
    requires forall a :: a in desired ==> a in now
    requires forall a :: a in now ==> a in was || a in desired
    requires forall a :: a in current && a !in desired ==> a !in now
    ensures Carries(now, l)
  {
    forall a | a in now ensures a.linkLocal || Some(a) in l.addresses {
      if !a.linkLocal {
        assert a in desired;
        var k: nat :| k < |desired| && desired[k] == a;
        assert l.addresses[k] == Some(a);
      }
    }
    assert forall k :: 0 <= k < |desired| ==> desired[k] in desired;
  }

  // ---- The phases together ----

  /** What holds on every exit of ReconcileMirror. */
  ghost predicate Safe(c: Config, was: Devices, next: int, fs: set<Filter>, now: Devices, fsNow: set<Filter>) {
    && Evolves(c, was, next, now)
    && ForwardingKept(fs, fsNow, now)
    && (forall i, h :: i in now ==> Orderly(fs, fsNow, i, h))
  }

  lemma DevicesSafe(c: Config, a: Devices, na: int, fa: set<Filter>, b: Devices, nb: int, fb: set<Filter>)
    requires LinksOnly(c, a, na, fa, b, nb, fb)
    ensures Safe(c, a, na, fa, b, fb)
  {
    hide Evolves;
    forall i, h | i in b ensures Orderly(fa, fb, i, h) {
      assert MirrorsWithin(fa, fb, i, h);
    }
  }

  lemma OrderlyFrom(fa: set<Filter>, fb: set<Filter>, fc: set<Filter>, i: int, h: Hook)
    requires fb <= fa && Orderly(fb, fc, i, h)
    ensures Orderly(fa, fc, i, h)
  {
    if MirrorsWithin(fb, fc, i, h) {
      assert MirrorsWithin(fa, fc, i, h);
    }
  }

  lemma MirrorsSafe(c: Config, a: Devices, na: int, fa: set<Filter>, b: Devices, nb: int, fb: set<Filter>, fc: set<Filter>)
    requires LinksOnly(c, a, na, fa, b, nb, fb) && Settled(fb, fc, b)
    ensures Safe(c, a, na, fa, b, fc)
  {
    hide Evolves;
    hide Orderly;
    forall i, h | i in b ensures Orderly(fa, fc, i, h) {
      OrderlyFrom(fa, fb, fc, i, h);
    }
  }

  lemma OrderlySwept(fb: set<Filter>, fc: set<Filter>, fd: set<Filter>, i: int, h: Hook)
    requires fd <= fc && Orderly(fb, fc, i, h)
    requires (forall f :: f in fc && f.link == i ==> f in fb) || (forall f :: f in fc && f.link == i ==> f in fd)
    ensures Orderly(fb, fd, i, h)
  {
    if forall f :: f in fc && f.link == i ==> f in fb {
      assert MirrorsWithin(fb, fd, i, h);
    } else if MirrorsWithin(fb, fc, i, h) {
      assert MirrorsWithin(fb, fd, i, h);
    } else {
      var bodies :| Numbered(fc, i, h, bodies);
      assert Numbered(fd, i, h, bodies);
    }
  }

  lemma CleanupSafe(c: Config, a: Devices, na: int, fa: set<Filter>, b: Devices, nb: int, fb: set<Filter>, fc: set<Filter>,
                    d: Devices, fd: set<Filter>, order: seq<int>)
    requires Bounded(a, na) && Bounded(b, nb) && LinksOnly(c, a, na, fa, b, nb, fb) && FiltersOn(fa, a)
    requires Settled(fb, fc, b) && Untouched(fb, fc, b, Sources(c.rules)) && FiltersOn(fc, b)
    requires Swept(c, b, fc, fd, d) && d == Pruned(b, StaleAmong(c, b, order))
    ensures Safe(c, a, na, fa, d, fd)
  {
    CleanupEvolves(c, b, nb, order);
    EvolvesTrans(c, a, na, b, nb, d);
    hide Evolves;
    hide StaleAmong;
    hide Orderly;
    forall i, h | i in d ensures Orderly(fa, fd, i, h) {
      assert i in b;
      OrderlySwept(fb, fc, fd, i, h);
      OrderlyFrom(fa, fb, fd, i, h);
    }
    assert ForwardingKept(fa, fd, d);
  }

  lemma InstalledSwept(c: Config, b: Devices, fc: set<Filter>, d: Devices, fd: set<Filter>, tunnels: map<string, int>, order: seq<int>)
    requires Installed(fc, b, c.rules, tunnels, Sources(c.rules))
    requires Swept(c, b, fc, fd, d) && d == Pruned(b, StaleAmong(c, b, order))
    ensures Installed(fd, d, c.rules, tunnels, Sources(c.rules))
  {
    hide StaleAmong;
    hide RulesFor;
    hide AllWanted;
    forall i | i in d && d[i].name in Sources(c.rules) ensures LaidOut(fd, i, AllWanted(RulesFor(c.rules, d[i].name), tunnels)) {
      assert LaidOut(fc, i, AllWanted(RulesFor(c.rules, b[i].name), tunnels));
      assert forall f :: f in fc && f.link == i ==> f in fd;
    }
  }

  lemma NoGroups(rules: seq<Rule>)
    ensures Sources(rules[..0]) == {}
  {
  }

  lemma GroupStep(rules: seq<Rule>, k: nat)
    requires k < |rules|
    ensures Sources(rules[..k + 1]) == Sources(rules[..k]) + {rules[k].source}
    ensures forall s :: RulesFor(rules[..k + 1], s) == RulesFor(rules[..k], s) + (if rules[k].source == s then [rules[k]] else [])
    ensures rules[k].source !in Sources(rules[..k]) ==> RulesFor(rules[..k], rules[k].source) == []
  {
    assert rules[..k + 1][..k] == rules[..k];
    assert rules[..k + 1] == rules[..k] + [rules[k]];
    if rules[k].source !in Sources(rules[..k]) {
      NoRules(rules[..k], rules[k].source);
    }
  }

  lemma {:induction false} NoRules(rules: seq<Rule>, source: string)
    requires source !in Sources(rules)
    ensures RulesFor(rules, source) == []
  {
    if rules != [] {
      var init, last := rules[..|rules| - 1], rules[|rules| - 1];
      assert last in rules && forall r :: r in init ==> r in rules;
      NoRules(init, source);
    }
  }

  class Manager {
    const kernel: Kernel

    constructor (k: Kernel)
      ensures kernel == k
    {
      kernel := k;
    }

    // ---- Filters of one interface ----

    /** One hook of clearMirrorFilters. */
    method ClearHook(i: int, h: Hook, tolerateListErr: bool) returns (ok: bool)
      requires kernel.Valid()
      modifies kernel`filters
      ensures kernel.Valid() && kernel.filters <= old(kernel.filters)
      ensures forall f :: f in old(kernel.filters) && (f.link != i || f.hook != h || f.prio < BASE) ==> f in kernel.filters
      ensures ok && (!tolerateListErr || i !in kernel.unreadable) ==> Numbered(kernel.filters, i, h, [])
    {
      var listed, list := kernel.FilterList(i, h);
      if !listed {
        return tolerateListErr;
      }
      for k := 0 to |list|
        invariant kernel.Valid() && kernel.filters <= old(kernel.filters)
        invariant forall f :: f in old(kernel.filters) && (f.link != i || f.hook != h || f.prio < BASE) ==> f in kernel.filters
        invariant forall f :: f in kernel.filters && f.prio >= BASE ==> f !in list[..k]
      {
        if list[k].prio >= BASE {
          var deleted := kernel.FilterDel(list[k]);
          if !deleted {
            return false;
          }
        }
      }
      assert list[..|list|] == list;
      return true;
    }

    method ClearMirrorFilters(i: int, tolerateListErr: bool) returns (ok: bool)
      requires kernel.Valid()
      modifies kernel`filters
      ensures kernel.Valid() && kernel.filters <= old(kernel.filters) && OnlyMirrors(old(kernel.filters), kernel.filters, i)
      ensures ok && (!tolerateListErr || i !in kernel.unreadable) ==> LaidOut(kernel.filters, i, Laid([], []))
    {
      ok := ClearHook(i, Ingress, tolerateListErr);
      if ok {
        ok := ClearHook(i, Egress, tolerateListErr);
      }
    }

    /** The body of the innermost loop of setupMirrorFilters: one filter at the next priority. */
    method AddFilter(i: int, h: Hook, b: Body, counters: Counters, ghost laid: Laid)
      returns (ok: bool, after: Counters, ghost now: Laid)
      requires kernel.Valid() && i in kernel.links && LaidOut(kernel.filters, i, laid) && Counts(counters, laid)
      modifies kernel`filters
      ensures kernel.Valid() && OnlyMirrors(old(kernel.filters), kernel.filters, i)
      ensures LaidOut(kernel.filters, i, now)
      ensures now == if ok then laid.Add(h, [b]) else laid
      ensures ok ==> Counts(after, now)
    {
      hide LaidOut;
      var prio := NextPriority(counters, h);
      after, now := counters, laid;
      if prio.None? {
        return false, after, now;
      }
      OneMoreLaid(kernel.filters, i, laid, counters, h, b);
      after := counters.Bump(h);
      ok := kernel.FilterAdd(Filter(i, h, prio.value, b));
      if ok {
        now := laid.Add(h, [b]);
      }
    }

    /** The inner loop of setupMirrorFilters: one rule on one hook. */
    method AddMatches(i: int, h: Hook, r: Rule, target: int, counters: Counters, ghost laid: Laid)
      returns (ok: bool, after: Counters, ghost now: Laid)
      requires kernel.Valid() && i in kernel.links && LaidOut(kernel.filters, i, laid) && Counts(counters, laid)
      modifies kernel`filters
      ensures kernel.Valid() && OnlyMirrors(old(kernel.filters), kernel.filters, i)
      ensures LaidOut(kernel.filters, i, now)
      ensures exists n :: 0 <= n <= |Bodies(r, target)| && now == laid.Add(h, Bodies(r, target)[..n])
      ensures ok ==> now == laid.Add(h, Bodies(r, target)) && Counts(after, now)
    {
      hide LaidOut;
      hide OnlyMirrors;
      hide Counts;
      var matches := MirrorMatch.BuildMirrorMatches(r.what);
      ghost var bodies := Bodies(r, target);
      after, now := counters, laid;
      assert laid.Add(h, bodies[..0]) == laid;
      OnlyMirrorsRefl(kernel.filters, i);
      for j := 0 to |matches|
        invariant kernel.Valid() && OnlyMirrors(old(kernel.filters), kernel.filters, i)
        invariant LaidOut(kernel.filters, i, now) && Counts(after, now)
        invariant now == laid.Add(h, bodies[..j])
      {
        ghost var before := kernel.filters;
        var b := Mirror(MirrorMatch.FilterOf(r.what, matches[j]), target);
        assert bodies[j] == b;
        AddTakes(laid, h, bodies, j);
        ok, after, now := AddFilter(i, h, b, after, now);
        OnlyMirrorsTrans(old(kernel.filters), before, kernel.filters, i);
        if !ok {
          return;
        }
      }
      assert bodies[..|matches|] == bodies;
      return true, after, now;
    }

    /** One rule on all its hooks. */
    method AddRule(i: int, r: Rule, tunnels: map<string, int>, counters: Counters, ghost laid: Laid)
      returns (ok: bool, after: Counters, ghost now: Laid)
      requires kernel.Valid() && i in kernel.links && LaidOut(kernel.filters, i, laid) && Counts(counters, laid)
      modifies kernel`filters
      ensures kernel.Valid() && OnlyMirrors(old(kernel.filters), kernel.filters, i)
      ensures LaidOut(kernel.filters, i, now)
      ensures Within(now, AfterRule(laid, r, tunnels))
      ensures ok ==> r.gre in tunnels && Counts(after, now) && now == AfterRule(laid, r, tunnels)
    {
      hide LaidOut;
      hide OnlyMirrors;
      hide Counts;
      hide Bodies;
      hide Parents;
      after, now := counters, laid;
      OnlyMirrorsRefl(kernel.filters, i);
      if r.gre !in tunnels {
        return false, after, now;
      }
      var parents := Parents(r.direction, r.workloadFacing);
      ghost var bodies := Bodies(r, tunnels[r.gre]);
      assert Spread(laid, parents[..0], bodies) == laid;
      for k := 0 to |parents|
        invariant kernel.Valid() && OnlyMirrors(old(kernel.filters), kernel.filters, i)
        invariant LaidOut(kernel.filters, i, now) && Counts(after, now)
        invariant now == Spread(laid, parents[..k], bodies)
      {
        ghost var before := kernel.filters;
        SpreadStep(laid, parents, k, bodies);
        ok, after, now := AddMatches(i, parents[k], r, tunnels[r.gre], after, now);
        OnlyMirrorsTrans(old(kernel.filters), before, kernel.filters, i);
        if !ok {
          return;
        }
      }
      assert parents[..|parents|] == parents;
      return true, after, now;
    }

    method SetupMirrorFilters(iface: string, rules: seq<Rule>, tunnels: map<string, int>)
      returns (ok: bool, ghost i: int, ghost laid: Option<Laid>)
      requires kernel.Valid()
      modifies kernel`filters, kernel`clsact
      ensures kernel.Valid() && OnlyMirrors(old(kernel.filters), kernel.filters, i)
      ensures kernel.filters == old(kernel.filters) || (i in kernel.links && kernel.links[i].name == iface)
      ensures old(kernel.clsact) <= kernel.clsact
      ensures laid.None? ==> !ok && kernel.filters <= old(kernel.filters)
      ensures laid.Some? ==> LaidOut(kernel.filters, i, laid.value) && Within(laid.value, AllWanted(rules, tunnels))
      ensures ok ==> laid == Some(AllWanted(rules, tunnels)) && i in kernel.links && kernel.links[i].name == iface
      ensures ok ==> forall h, target, p :: Sends(kernel.filters, i, h, target, p) <==> AskedBy(rules, tunnels, h, target, p)
      ensures ok ==> forall r :: r in rules ==> r.gre in tunnels
    {
      hide LaidOut;
      hide OnlyMirrors;
      hide Counts;
      hide Sends;
      hide AskedBy;
      i, laid := 0, None;
      OnlyMirrorsRefl(kernel.filters, i);
      var link := kernel.LinkByName(iface);
      if link.None? {
        return false, i, laid;
      }
      i := link.value;
      OnlyMirrorsRefl(kernel.filters, i);
      ok := kernel.EnsureClsact(link.value);
      if !ok {
        return;
      }
      ok := ClearMirrorFilters(link.value, false);
      if !ok {
        return;
      }
      ghost var cleared := kernel.filters;
      ok, laid := AddRules(link.value, rules, tunnels);
      if ok {
        LaidSends(kernel.filters, i, rules, tunnels);
      }
      OnlyMirrorsTrans(old(kernel.filters), cleared, kernel.filters, i);
    }

    method AddRules(i: int, rules: seq<Rule>, tunnels: map<string, int>) returns (ok: bool, ghost laid: Option<Laid>)
      requires kernel.Valid() && i in kernel.links && LaidOut(kernel.filters, i, Laid([], []))
      modifies kernel`filters
      ensures kernel.Valid() && OnlyMirrors(old(kernel.filters), kernel.filters, i)
      ensures laid.Some? && LaidOut(kernel.filters, i, laid.value) && Within(laid.value, AllWanted(rules, tunnels))
      ensures ok ==> laid.value == AllWanted(rules, tunnels) && forall r :: r in rules ==> r.gre in tunnels
    {
      hide LaidOut;
      hide OnlyMirrors;
      hide AfterRule;
      hide AllWanted;
      var counters := Counters(0, 0);
      ghost var now := Laid([], []);
      OnlyMirrorsRefl(kernel.filters, i);
      AllWantedNone(rules, tunnels);
      for k := 0 to |rules|
        invariant kernel.Valid() && OnlyMirrors(old(kernel.filters), kernel.filters, i)
        invariant LaidOut(kernel.filters, i, now) && Counts(counters, now) && now == AllWanted(rules[..k], tunnels)
        invariant forall j :: 0 <= j < k ==> rules[j].gre in tunnels
      {
        ghost var before := kernel.filters;
        AllWantedStep(rules, k, tunnels);
        ok, counters, now := AddRule(i, rules[k], tunnels, counters, now);
        OnlyMirrorsTrans(old(kernel.filters), before, kernel.filters, i);
        if !ok {
          AllWantedPrefix(rules, k + 1, tunnels);
          return false, Some(now);
        }
      }
      assert rules[..|rules|] == rules;
      return true, Some(now);
    }

    /** The grouping loop of ReconcileTcMirrors. */
    method GroupBySource(rules: seq<Rule>) returns (grouped: map<string, seq<Rule>>)
      ensures grouped.Keys == Sources(rules)
      ensures forall s :: s in grouped ==> grouped[s] == RulesFor(rules, s)
    {
      hide RulesFor;
      hide Sources;
      grouped := map[];
      NoGroups(rules);
      for k := 0 to |rules|
        invariant grouped.Keys == Sources(rules[..k])
        invariant forall s :: s in Sources(rules[..k]) ==> grouped[s] == RulesFor(rules[..k], s)
      {
        GroupStep(rules, k);
        var source := rules[k].source;
        grouped := grouped[source := (if source in grouped then grouped[source] else []) + [rules[k]]];
      }
      assert rules[..|rules|] == rules;
    }

    /** On every exit the filters are settled; on success each source carries exactly the wanted filters. */
    method ReconcileTcMirrors(rules: seq<Rule>, tunnels: map<string, int>) returns (ok: bool)
      requires kernel.Valid()
      modifies kernel`filters, kernel`clsact
      ensures kernel.Valid() && Settled(old(kernel.filters), kernel.filters, kernel.links)
      ensures Untouched(old(kernel.filters), kernel.filters, kernel.links, Sources(rules)) && old(kernel.clsact) <= kernel.clsact
      ensures ok ==> Installed(kernel.filters, kernel.links, rules, tunnels, Sources(rules))
      ensures ok ==> SendsAsAsked(kernel.filters, kernel.links, rules, tunnels)
      ensures ok ==> forall s :: s in Sources(rules) ==> exists i :: i in kernel.links && kernel.links[i].name == s
    {
      hide Settled;
      hide Installed;
      hide SendsAsAsked;
      hide OnlyMirrors;
      hide LaidOut;
      hide Untouched;
      var grouped := GroupBySource(rules);
      var rest := grouped.Keys;
      ghost var done: set<string> := {};
      NothingDone(kernel.filters, kernel.links, rules, tunnels);
      while rest != {}
        invariant kernel.Valid() && rest !! done && rest + done == Sources(rules) && old(kernel.clsact) <= kernel.clsact
        invariant Installed(kernel.filters, kernel.links, rules, tunnels, done)
        invariant Untouched(old(kernel.filters), kernel.filters, kernel.links, done)
        invariant Settled(old(kernel.filters), kernel.filters, kernel.links)
        invariant forall s :: s in done ==> exists i :: i in kernel.links && kernel.links[i].name == s
        decreases rest
      {
        assert exists s :: s in rest by { var s := Inhabitant(rest); }
        var iface :| iface in rest;
        ghost var i, laid;
        ghost var before := kernel.filters;
        ok, i, laid := SetupMirrorFilters(iface, grouped[iface], tunnels);
        SetupSettles(old(kernel.filters), before, kernel.filters, kernel.links, i, iface, laid, done);
        UntouchedElsewhere(old(kernel.filters), before, kernel.filters, kernel.links, i, iface, done, Sources(rules));
        if !ok {
          return;
        }
        SetupInstalls(old(kernel.filters), before, kernel.filters, kernel.links, i, rules, tunnels, done);
        rest, done := rest - {iface}, done + {iface};
      }
      assert done == Sources(rules);
      InstalledSends(kernel.filters, kernel.links, rules, tunnels);
      return true;
    }

    // ---- Loopbacks and tunnels ----

    method RemoveLink(ghost c: Config, i: int) returns (ok: bool)
      requires kernel.Valid() && i in kernel.links && Deletable(c, kernel.links, i)
      modifies kernel`links, kernel`filters
      ensures kernel.Valid()
      ensures Change(c, {old(kernel.links)[i].name}, old(kernel.links), kernel.next, old(kernel.filters),
                     kernel.links, kernel.next, kernel.filters)
      ensures ok ==> kernel.links == Without(old(kernel.links), i)
    {
      ChangeRefl(c, {kernel.links[i].name}, kernel.links, kernel.next, kernel.filters);
      DeleteChange(c, kernel.links, kernel.next, kernel.filters, i);
      hide Change;
      hide Deletable;
      ok := kernel.LinkDel(i);
    }

    /** LinkAdd, and the lookup and LinkSetUp that follow it. */
    method CreateUp(ghost c: Config, d: Device) returns (r: Option<int>)
      requires kernel.Valid() && !d.kind.VrfDevice? && d.master != 0
      modifies kernel`links, kernel`next
      ensures kernel.Valid()
      ensures Change(c, {d.name}, old(kernel.links), old(kernel.next), kernel.filters, kernel.links, kernel.next, kernel.filters)
      ensures r.Some? ==> d.master in old(kernel.links) && r.value == old(kernel.next)
                          && kernel.links == old(kernel.links)[r.value := d.(up := true)]
    {
      ChangeRefl(c, {d.name}, kernel.links, kernel.next, kernel.filters);
      AddChange(c, kernel.links, kernel.next, kernel.filters, d);
      AddChange(c, kernel.links, kernel.next, kernel.filters, d.(up := true));
      hide Change;
      var added := kernel.LinkAdd(d);
      if added.None? {
        return None;
      }
      ghost var links := kernel.links;
      var link := kernel.LinkByName(d.name);
      if link.None? {
        return None;
      }
      assert links[added.value].name == d.name && link.value == added.value;
      var ok := kernel.LinkSetUp(link.value);
      assert links[link.value := d.(up := true)] == old(kernel.links)[link.value := d.(up := true)];
      return if ok then link else None;
    }

    method EnsureLoopback(ghost c: Config, l: Loopback) returns (ok: bool)
      requires kernel.Valid() && l in c.loopbacks
      modifies kernel`links, kernel`next, kernel`filters
      ensures kernel.Valid()
      ensures Change(c, {l.name}, old(kernel.links), old(kernel.next), old(kernel.filters),
                     kernel.links, kernel.next, kernel.filters)
      ensures ok ==> HasLoopback(kernel.links, l)
    {
      ChangeRefl(c, {l.name}, kernel.links, kernel.next, kernel.filters);
      hide Change;
      if |l.name| > MAX_NAME {
        return false;
      }
      var vrf := kernel.LinkByName(l.vrf);
      if vrf.None? {
        return false;
      }
      var link := kernel.LinkByName(l.name);
      if link.Some? && kernel.links[link.value].kind.Dummy? && kernel.links[link.value].master == vrf.value {
        ok := SetUpLink(c, link.value);
      } else {
        link := ReplaceLoopback(c, l, vrf.value, link);
        ok := link.Some?;
      }
      if ok {
        ghost var links, next, filters := kernel.links, kernel.next, kernel.filters;
        ok := ReconcileLoopbackAddresses(link.value, l);
        AddrsChange(c, links, next, filters, link.value, kernel.links[link.value].addrs);
        ChangeTrans(c, {l.name}, old(kernel.links), old(kernel.next), old(kernel.filters), links, next, filters,
                    kernel.links, kernel.next, kernel.filters);
        assert ok ==> IsLoopback(kernel.links, link.value, l);
      }
    }

    /** The first loop of reconcileLoopbackAddresses: every address has to parse. */
    static method ParseAddresses(addresses: seq<Option<DeviceAddr>>) returns (r: Option<seq<DeviceAddr>>)
      ensures r.None? <==> None in addresses
      ensures r.Some? ==> |r.value| == |addresses| && forall k :: 0 <= k < |addresses| ==> addresses[k] == Some(r.value[k])
    {
      var parsed: seq<DeviceAddr> := [];
      for k := 0 to |addresses|
        invariant |parsed| == k && forall j :: 0 <= j < k ==> addresses[j] == Some(parsed[j])
      {
        if addresses[k].None? {
          return None;
        }
        parsed := parsed + [addresses[k].value];
      }
      return Some(parsed);
    }

    /** Missing addresses are added; one that turns out to exist is fine. */
    method AddMissing(i: int, desired: seq<DeviceAddr>, current: seq<DeviceAddr>) returns (ok: bool)
      requires kernel.Valid() && i in kernel.links
      modifies kernel`links
      ensures kernel.Valid() && OnlyAddrs(old(kernel.links), kernel.links, i)
      ensures forall a :: a in old(kernel.links)[i].addrs ==> a in kernel.links[i].addrs
      ensures forall a :: a in kernel.links[i].addrs ==> a in old(kernel.links)[i].addrs || a in desired
      ensures ok ==> forall a :: a in desired ==> a in current || a in kernel.links[i].addrs
    {
      for k := 0 to |desired|
        invariant kernel.Valid() && OnlyAddrs(old(kernel.links), kernel.links, i)
        invariant forall a :: a in old(kernel.links)[i].addrs ==> a in kernel.links[i].addrs
        invariant forall a :: a in kernel.links[i].addrs ==> a in old(kernel.links)[i].addrs || a in desired
        invariant forall j :: 0 <= j < k ==> desired[j] in current || desired[j] in kernel.links[i].addrs
      {
        if desired[k] !in current {
          var r := kernel.AddrAdd(i, desired[k]);
          if r.Failed? {
            return false;
          }
        }
      }
      return true;
    }

    /** Stale addresses are removed. */
    method DropStale(i: int, current: seq<DeviceAddr>, desired: seq<DeviceAddr>) returns (ok: bool)
      requires kernel.Valid() && i in kernel.links
      modifies kernel`links
      ensures kernel.Valid() && OnlyAddrs(old(kernel.links), kernel.links, i)
      ensures kernel.links[i].addrs <= old(kernel.links)[i].addrs
      ensures forall a :: a in old(kernel.links)[i].addrs && (a !in current || a in desired) ==> a in kernel.links[i].addrs
      ensures ok ==> forall a :: a in current && a !in desired ==> a !in kernel.links[i].addrs
    {
      for k := 0 to |current|
        invariant kernel.Valid() && OnlyAddrs(old(kernel.links), kernel.links, i)
        invariant kernel.links[i].addrs <= old(kernel.links)[i].addrs
        invariant forall a :: a in old(kernel.links)[i].addrs && (a !in current || a in desired) ==> a in kernel.links[i].addrs
        invariant forall j :: 0 <= j < k && current[j] !in desired ==> current[j] !in kernel.links[i].addrs
      {
        if current[k] !in desired {
          var deleted := kernel.AddrDel(i, current[k]);
          if !deleted {
            return false;
          }
        }
      }
      return true;
    }

    /** On success the loopback carries exactly the configured addresses, apart from link-local ones. */
    method ReconcileLoopbackAddresses(i: int, l: Loopback) returns (ok: bool)
      requires kernel.Valid() && i in kernel.links
      modifies kernel`links
      ensures kernel.Valid() && OnlyAddrs(old(kernel.links), kernel.links, i)
      ensures ok ==> Carries(kernel.links[i].addrs, l)
    {
      var desired := ParseAddresses(l.addresses);
      if desired.None? {
        return false;
      }
      var listed, all := kernel.AddrList(i);
      if !listed {
        return false;
      }
      var current := SkipLinkLocal(all);
      ok := AddMissing(i, desired.value, current);
      if !ok {
        return;
      }
      ok := DropStale(i, current, desired.value);
      if ok {
        AddressesInPlace(old(kernel.links)[i].addrs, kernel.links[i].addrs, current, desired.value, l);
      }
    }

    static method SkipLinkLocal(all: seq<DeviceAddr>) returns (current: seq<DeviceAddr>)
      ensures forall a :: a in current <==> a in all && !a.linkLocal
    {
      current := [];
      for k := 0 to |all|
        invariant forall a :: a in current <==> a in all[..k] && !a.linkLocal
      {
        assert all[..k + 1] == all[..k] + [all[k]];
        if !all[k].linkLocal {
          current := current + [all[k]];
        }
      }
      assert all[..|all|] == all;
    }

    method SetUpLink(ghost c: Config, i: int) returns (ok: bool)
      requires kernel.Valid() && i in kernel.links
      modifies kernel`links
      ensures kernel.Valid()
      ensures Change(c, {old(kernel.links)[i].name}, old(kernel.links), kernel.next, kernel.filters,
                     kernel.links, kernel.next, kernel.filters)
      ensures ok ==> kernel.links == old(kernel.links)[i := old(kernel.links)[i].(up := true)]
    {
      ChangeRefl(c, {kernel.links[i].name}, kernel.links, kernel.next, kernel.filters);
      SetUpChange(c, kernel.links, kernel.next, kernel.filters, i);
      hide Change;
      ok := kernel.LinkSetUp(i);
    }

    /** A link of that name which is no such dummy makes way for a new one. */
    method ReplaceLoopback(ghost c: Config, l: Loopback, vrf: int, link: Option<int>) returns (r: Option<int>)
      requires kernel.Valid() && l in c.loopbacks && vrf in kernel.links && kernel.links[vrf].name == l.vrf
      requires link.Some? ==> link.value in kernel.links && kernel.links[link.value].name == l.name
      modifies kernel`links, kernel`next, kernel`filters
      ensures kernel.Valid()
      ensures Change(c, {l.name}, old(kernel.links), old(kernel.next), old(kernel.filters),
                     kernel.links, kernel.next, kernel.filters)
      ensures r.Some? ==> r.value in kernel.links && IsDummyIn(kernel.links, r.value, l)
    {
      ChangeRefl(c, {l.name}, kernel.links, kernel.next, kernel.filters);
      hide Change;
      if link.Some? {
        var ok := RemoveLink(c, link.value);
        if !ok {
          return None;
        }
      }
      ghost var links, next, filters := kernel.links, kernel.next, kernel.filters;
      r := CreateUp(c, Device(l.name, Dummy, vrf, false, {}));
      ChangeTrans(c, {l.name}, old(kernel.links), old(kernel.next), old(kernel.filters), links, next, filters,
                  kernel.links, kernel.next, kernel.filters);
    }

    method ReconcileLoopbacks(c: Config) returns (ok: bool)
      requires kernel.Valid()
      modifies kernel`links, kernel`next, kernel`filters
      ensures kernel.Valid()
      ensures Change(c, LoopbackNames(c.loopbacks), old(kernel.links), old(kernel.next), old(kernel.filters),
                     kernel.links, kernel.next, kernel.filters)
      ensures ok && Separate(c) ==> HaveLoopbacks(c, kernel.links, |c.loopbacks|)
    {
      var names := LoopbackNames(c.loopbacks);
      ChangeRefl(c, names, kernel.links, kernel.next, kernel.filters);
      hide LinksOnly;
      hide Separate;
      hide IsLoopback;
      for k := 0 to |c.loopbacks|
        invariant kernel.Valid()
        invariant Change(c, names, old(kernel.links), old(kernel.next), old(kernel.filters), kernel.links, kernel.next, kernel.filters)
        invariant Separate(c) ==> HaveLoopbacks(c, kernel.links, k)
      {
        ghost var links, next, filters := kernel.links, kernel.next, kernel.filters;
        assert c.loopbacks[k].name in names;
        ok := EnsureLoopback(c, c.loopbacks[k]);
        ChangeWidens(c, c.loopbacks[k].name, names, links, next, filters, kernel.links, kernel.next, kernel.filters);
        ChangeTrans(c, names, old(kernel.links), old(kernel.next), old(kernel.filters), links, next, filters,
                    kernel.links, kernel.next, kernel.filters);
        if !ok {
          return;
        }
        if Separate(c) {
          HaveOneMore(c, links, kernel.links, k);
        }
      }
      return true;
    }

    method EnsureGRETunnel(ghost c: Config, g: Tunnel) returns (r: Option<int>)
      requires kernel.Valid() && g in c.tunnels
      modifies kernel`links, kernel`next, kernel`filters
      ensures kernel.Valid()
      ensures Change(c, {g.name}, old(kernel.links), old(kernel.next), old(kernel.filters),
                     kernel.links, kernel.next, kernel.filters)
      ensures r.Some? ==> r.value in kernel.links && IsTunnel(kernel.links, r.value, g)
      ensures r.Some? ==> (kernel.links[r.value].up <==> !LeftDown(old(kernel.links), g))
    {
      ChangeRefl(c, {g.name}, kernel.links, kernel.next, kernel.filters);
      hide Change;
      if |g.name| > MAX_NAME || g.local.None? || g.remote.None? || g.local.value.V4? != g.remote.value.V4? {
        return None;
      }
      var vrf := kernel.LinkByName(g.vrf);
      if vrf.None? {
        return None;
      }
      if g.source != "" {
        var source := kernel.LinkByName(g.source);
        if source.None? {
          return None;
        }
      }
      var existing := kernel.LinkByName(g.name);
      if existing.Some? {
        var e := kernel.links[existing.value];
        if e.master == vrf.value && e.kind == GreKind(g) {
          assert IsTunnel(kernel.links, existing.value, g);
          return existing;
        }
      }
      r := ReplaceTunnel(c, g, vrf.value, existing);
    }

    /** A link of that name which is not that tunnel makes way for a new one. */
    method ReplaceTunnel(ghost c: Config, g: Tunnel, vrf: int, existing: Option<int>) returns (r: Option<int>)
      requires kernel.Valid() && g in c.tunnels && vrf in kernel.links && kernel.links[vrf].name == g.vrf
      requires g.local.Some? && g.remote.Some?
      requires existing.Some? ==> existing.value in kernel.links && kernel.links[existing.value].name == g.name
      modifies kernel`links, kernel`next, kernel`filters
      ensures kernel.Valid()
      ensures Change(c, {g.name}, old(kernel.links), old(kernel.next), old(kernel.filters),
                     kernel.links, kernel.next, kernel.filters)
      ensures r.Some? ==> r.value in kernel.links && IsTunnel(kernel.links, r.value, g) && kernel.links[r.value].up
      ensures r.Some? ==> forall i :: i in old(kernel.links) && old(kernel.links)[i].name == g.name ==> existing == Some(i)
    {
      ChangeRefl(c, {g.name}, kernel.links, kernel.next, kernel.filters);
      hide Change;
      if existing.Some? {
        var ok := RemoveLink(c, existing.value);
        if !ok {
          return None;
        }
      }
      ghost var links, next, filters := kernel.links, kernel.next, kernel.filters;
      r := CreateUp(c, Device(g.name, GreKind(g), vrf, false, {}));
      ChangeTrans(c, {g.name}, old(kernel.links), old(kernel.next), old(kernel.filters), links, next, filters,
                  kernel.links, kernel.next, kernel.filters);
    }

    method ReconcileGRETunnels(c: Config) returns (ok: bool, tunnelIndex: map<string, int>)
      requires kernel.Valid()
      modifies kernel`links, kernel`next, kernel`filters
      ensures kernel.Valid()
      ensures Change(c, TunnelNames(c.tunnels), old(kernel.links), old(kernel.next), old(kernel.filters),
                     kernel.links, kernel.next, kernel.filters)
      ensures ok ==> tunnelIndex.Keys == TunnelNames(c.tunnels)
      ensures ok && Separate(c) ==> HaveTunnels(c, kernel.links, tunnelIndex, |c.tunnels|)
                                    && UpUnlessLeft(c, old(kernel.links), kernel.links, tunnelIndex, |c.tunnels|)
    {
      var names := TunnelNames(c.tunnels);
      ghost var links0, next0, filters0 := kernel.links, kernel.next, kernel.filters;
      ChangeRefl(c, names, kernel.links, kernel.next, kernel.filters);
      tunnelIndex := map[];
      assert TunnelsBuilt(c, links0, links0, tunnelIndex, 0);
      hide Change;
      hide IsTunnel;
      hide LeftDown;
      hide TunnelsBuilt;
      for k := 0 to |c.tunnels|
        invariant kernel.Valid()
        invariant Change(c, names, links0, next0, filters0, kernel.links, kernel.next, kernel.filters)
        invariant tunnelIndex.Keys == TunnelNames(c.tunnels[..k])
        invariant TunnelsBuilt(c, links0, kernel.links, tunnelIndex, k)
      {
        ghost var links, next, filters := kernel.links, kernel.next, kernel.filters;
        assert c.tunnels[k].name in names;
        assert c.tunnels[..k + 1] == c.tunnels[..k] + [c.tunnels[k]];
        var r := EnsureGRETunnel(c, c.tunnels[k]);
        ChangeWidens(c, c.tunnels[k].name, names, links, next, filters, kernel.links, kernel.next, kernel.filters);
        ChangeTrans(c, names, links0, next0, filters0, links, next, filters, kernel.links, kernel.next, kernel.filters);
        if r.None? {
          return false, map[];
        }
        BuiltOneMore(c, links0, links, next, filters, kernel.links, kernel.next, kernel.filters, tunnelIndex, k, r.value);
        tunnelIndex := tunnelIndex[c.tunnels[k].name := r.value];
      }
      assert c.tunnels[..|c.tunnels|] == c.tunnels;
      Built(c, links0, kernel.links, tunnelIndex);
      ok := true;
    }

    // ---- Cleanup ----

    method CollectVrfIndices(order: seq<int>, names: set<string>) returns (indices: set<int>)
      requires forall k :: 0 <= k < |order| ==> order[k] in kernel.links
      requires forall i :: i in kernel.links ==> i in order
      ensures indices == VrfIndices(kernel.links, names)
    {
      indices := {};
      for k := 0 to |order|
        invariant indices == set i | i in order[..k] && i in kernel.links && kernel.links[i].kind.VrfDevice? && kernel.links[i].name in names
      {
        assert order[..k + 1] == order[..k] + [order[k]];
        if kernel.links[order[k]].kind.VrfDevice? && kernel.links[order[k]].name in names {
          indices := indices + {order[k]};
        }
      }
      assert order[..|order|] == order;
      assert forall i :: i in VrfIndices(kernel.links, names) ==> i in kernel.links && i in order;
    }

    /** listed is the table as LinkList reported it; d is how it described link i. */
    method CleanupMirrorLink(ghost c: Config, ghost listed: Devices, ghost was: set<Filter>, i: int, d: Device,
                             desiredGRE: set<string>, desiredSources: set<string>, desiredLoopbacks: set<string>, indices: set<int>)
      returns (ok: bool)
      requires kernel.Valid() && i in kernel.links && i in listed && listed[i] == d
      requires desiredGRE == TunnelNames(c.tunnels) && desiredSources == Sources(c.rules)
      requires desiredLoopbacks == LoopbackNames(c.loopbacks)
      requires indices == VrfIndices(listed, MirrorVrfs(c.tunnels, c.loopbacks))
      requires Swept(c, listed, was, kernel.filters, kernel.links)
      modifies kernel`links, kernel`filters
      ensures kernel.Valid() && Swept(c, listed, was, kernel.filters, kernel.links)
      ensures kernel.links == old(kernel.links) || (Stale(c, listed, i) && kernel.links == Without(old(kernel.links), i))
      ensures ok && Stale(c, listed, i) ==> kernel.links == Without(old(kernel.links), i)
      ensures kernel.filters <= old(kernel.filters)
      ensures ok && i !in kernel.unreadable && NeedsSweep(c, listed, i) ==> NoMirrors(kernel.filters, i)
    {
      SweptDelete(c, listed, was, kernel.filters, kernel.links, i);
      hide Swept;
      hide IsMirrorGre;
      hide IsMirrorSource;
      if IsMirrorGre(d.name) {
        if d.name !in desiredGRE {
          ok := kernel.LinkDel(i);
          return;
        }
      } else if IsMirrorSource(d.name) {
        if d.name !in desiredSources {
          ghost var before := kernel.filters;
          ok := ClearMirrorFilters(i, true);
          SweptClear(c, listed, was, before, kernel.filters, kernel.links, i);
          if ok && i !in kernel.unreadable {
            NothingLaid(kernel.filters, i);
          }
          return;
        }
      } else if d.kind.Dummy? && d.master in indices {
        if d.name !in desiredLoopbacks {
          ok := kernel.LinkDel(i);
          return;
        }
      }
      return true;
    }

    method CleanupMirrors(c: Config) returns (ok: bool, ghost order: seq<int>)
      requires kernel.Valid()
      modifies kernel`links, kernel`filters
      ensures kernel.Valid() && Swept(c, old(kernel.links), old(kernel.filters), kernel.filters, kernel.links)
      ensures kernel.links == Pruned(old(kernel.links), StaleAmong(c, old(kernel.links), order))
      ensures ok ==> order == Ascending(old(kernel.links).Keys) && NoLeftovers(c, kernel.links)
      ensures ok ==> FormerSourcesClean(c, old(kernel.links), kernel.filters, kernel.unreadable)
    {
      SweptRefl(c, kernel.links, kernel.filters);
      ghost var listed := kernel.links;
      hide Swept;
      hide Stale;
      hide StaleAmong;
      hide Pruned;
      hide Ascending;
      hide VrfIndices;
      hide MirrorVrfs;
      hide TunnelNames;
      hide LoopbackNames;
      hide Sources;
      hide NeedsSweep;
      hide NoMirrors;
      var devices := kernel.links;
      var listOk, list := kernel.LinkList();
      CleanupStarts(c, listed, list);
      if !listOk {
        return false, list[..0];
      }
      ok, order := SweepLinks(c, devices, list);
      if ok {
        NothingStaleIsLeft(c, devices, list);
      }
    }

    /** The loop over the dump. */
    method SweepLinks(c: Config, listed: Devices, list: seq<int>) returns (ok: bool, ghost order: seq<int>)
      requires kernel.Valid() && kernel.links == listed && list == Ascending(listed.Keys)
      requires Swept(c, listed, kernel.filters, kernel.filters, listed) && listed == LeftAfter(c, listed, list, 0)
      modifies kernel`links, kernel`filters
      ensures kernel.Valid() && Swept(c, listed, old(kernel.filters), kernel.filters, kernel.links)
      ensures kernel.links == Pruned(listed, StaleAmong(c, listed, order))
      ensures ok ==> order == list && FormerSourcesClean(c, listed, kernel.filters, kernel.unreadable)
    {
      hide Swept;
      hide Stale;
      hide StaleAmong;
      hide Pruned;
      hide VrfIndices;
      hide MirrorVrfs;
      hide TunnelNames;
      hide LoopbackNames;
      hide Sources;
      hide NeedsSweep;
      hide NoMirrors;
      hide OnLinks;
      hide Ascending;
      assert CleanSoFar(c, listed, list, 0, kernel.filters, kernel.unreadable);
      hide CleanSoFar;
      hide FormerSourcesClean;
      assert forall k :: 0 <= k < |list| ==> list[k] in list && list[k] in listed;
      var gre, sources, loopbacks := TunnelNames(c.tunnels), Sources(c.rules), LoopbackNames(c.loopbacks);
      var indices := CollectVrfIndices(list, MirrorVrfs(c.tunnels, c.loopbacks));
      for k := 0 to |list|
        invariant kernel.Valid() && Swept(c, listed, old(kernel.filters), kernel.filters, kernel.links)
        invariant kernel.links == LeftAfter(c, listed, list, k)
        invariant CleanSoFar(c, listed, list, k, kernel.filters, kernel.unreadable)
      {
        assert list[k] in list;
        assert list[k] !in list[..k];
        CleanupStep(c, listed, list, k);
        ghost var before := kernel.filters;
        ok := CleanupMirrorLink(c, listed, old(kernel.filters), list[k], listed[list[k]], gre, sources, loopbacks, indices);
        if !ok {
          order := if kernel.links == LeftAfter(c, listed, list, k) then list[..k] else list[..k + 1];
          return;
        }
        CleanOneMore(c, listed, list, k, before, kernel.filters, kernel.unreadable);
      }
      assert list[..|list|] == list;
      assert forall i :: i in listed ==> i in list;
      CleanAtLast(c, listed, list, kernel.filters, kernel.unreadable);
      return true, list;
    }

    // ---- The whole run ----

    /** Loopbacks, then tunnels. */
    method ReconcileDevices(c: Config) returns (ok: bool, tunnelIndex: map<string, int>)
      requires kernel.Valid()
      modifies kernel`links, kernel`next, kernel`filters
      ensures kernel.Valid()
      ensures LinksOnly(c, old(kernel.links), old(kernel.next), old(kernel.filters), kernel.links, kernel.next, kernel.filters)
      ensures ok && Separate(c) && VrfsAreVrfs(c, old(kernel.links)) ==>
                && HaveLoopbacks(c, kernel.links, |c.loopbacks|) && HaveTunnels(c, kernel.links, tunnelIndex, |c.tunnels|)
                && VrfsAreVrfs(c, kernel.links)
                && UpUnlessLeft(c, old(kernel.links), kernel.links, tunnelIndex, |c.tunnels|)
    {
      tunnelIndex := map[];
      ok := ReconcileLoopbacks(c);
      if !ok {
        return;
      }
      ghost var links, next, filters := kernel.links, kernel.next, kernel.filters;
      ok, tunnelIndex := ReconcileGRETunnels(c);
      LinksOnlyTrans(c, old(kernel.links), old(kernel.next), old(kernel.filters), links, next, filters,
                     kernel.links, kernel.next, kernel.filters);
      if ok && Separate(c) && VrfsAreVrfs(c, old(kernel.links)) {
        hide LinksOnly;
        hide LeftDown;
        LeftStaysOver(c, LoopbackNames(c.loopbacks), old(kernel.links), old(kernel.next), old(kernel.filters), links, next, filters, 0);
        VrfsStay(c, old(kernel.links), old(kernel.next), old(kernel.filters), links, next, filters, LoopbackNames(c.loopbacks));
        VrfsStay(c, links, next, filters, kernel.links, kernel.next, kernel.filters, TunnelNames(c.tunnels));
        HaveStill(c, links, kernel.links, |c.loopbacks|);
      }
    }

    /**
     On every exit forwarding filters are intact, new mirror priorities are consecutive from the base, and only
     deletable links are gone. On success every source carries exactly its filters and no former source any; with names
     that stay apart, the loopbacks and tunnels are in place exactly when cleanup does not take them for stale tunnels.
     */
    method ReconcileMirror(c: Config) returns (ok: bool, ghost tunnels: map<string, int>)
      requires kernel.Valid()
      modifies kernel
      ensures kernel.Valid()
      ensures Safe(c, old(kernel.links), old(kernel.next), old(kernel.filters), kernel.links, kernel.filters)
      ensures old(kernel.clsact) <= kernel.clsact
      ensures ok ==> Installed(kernel.filters, kernel.links, c.rules, tunnels, Sources(c.rules))
      ensures ok ==> SendsAsAsked(kernel.filters, kernel.links, c.rules, tunnels)
      ensures ok ==> FormerSourcesClean(c, kernel.links, kernel.filters, kernel.unreadable) && NoLeftovers(c, kernel.links)
      ensures ok && Separate(c) && VrfsAreVrfs(c, old(kernel.links)) ==>
                && (HaveLoopbacks(c, kernel.links, |c.loopbacks|) <==> LoopbacksSpared(c, |c.loopbacks|))
                && (HaveTunnels(c, kernel.links, tunnels, |c.tunnels|) <==> TunnelsSpared(c, |c.tunnels|))
                && UpUnlessLeft(c, old(kernel.links), kernel.links, tunnels, |c.tunnels|)
    {
      hide Safe;
      hide LinksOnly;
      hide Settled;
      hide Untouched;
      hide Installed;
      hide SendsAsAsked;
      hide Swept;
      hide HaveLoopbacks;
      hide HaveTunnels;
      hide UpUnlessLeft;
      hide Separate;
      hide VrfsAreVrfs;
      hide FormerSourcesClean;
      hide NoLeftovers;
      hide LoopbacksSpared;
      hide TunnelsSpared;
      hide Ascending;
      ghost var links, next, filters := kernel.links, kernel.next, kernel.filters;
      var tunnelIndex;
      ok, tunnelIndex := ReconcileDevices(c);
      tunnels := tunnelIndex;
      DevicesSafe(c, links, next, filters, kernel.links, kernel.next, kernel.filters);
      if !ok {
        return;
      }
      ghost var devices, kept := kernel.links, kernel.filters;
      ok := ReconcileTcMirrors(c.rules, tunnelIndex);
      MirrorsSafe(c, links, next, filters, devices, kernel.next, kept, kernel.filters);
      if !ok {
        return;
      }
      ghost var mirrored := kernel.filters;
      ghost var order;
      ok, order := CleanupMirrors(c);
      CleanupSafe(c, links, next, filters, devices, kernel.next, kept, mirrored, kernel.links, kernel.filters, order);
      InstalledSwept(c, devices, mirrored, kernel.links, kernel.filters, tunnels, order);
      if ok {
        InstalledSends(kernel.filters, kernel.links, c.rules, tunnels);
        CleanAfterPruning(c, devices, StaleAmong(c, devices, order), kernel.filters, kernel.unreadable);
      }
      if ok && Separate(c) && VrfsAreVrfs(c, links) {
        CleanupKeepsLoopbacks(c, devices, order, |c.loopbacks|);
        CleanupKeepsTunnels(c, devices, order, tunnels, |c.tunnels|);
        UpAfterCleanup(c, links, devices, order, tunnels, |c.tunnels|);
      }
    }
  }
}
