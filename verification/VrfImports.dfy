/**
 Imports between VRFs (setupVRFImport in pkg/cra-vsr/layerbgp.go): each adds a selector to a map of its VRF and a
 filter to a map of its own, and all of them share one list of route-maps. When a route that a VRF imports is
 decided by the filter of that very import.
 */
module VrfImports {
  import opened Text
  import opened RouteMap

  // ---- Names ----

  /** The longer VRF name contains the shorter one with an import separator, and the sources make up for it. */
  predicate Runs(v: string, f: string, w: string, g: string) {
    || (w == v + "_import" && f == "import_" + g)
    || (|v| + |IMPORT| <= |w| && v + IMPORT <= w && f == w[|v| + |IMPORT|..] + IMPORT + g)
  }

  /** Different imports get the same map name exactly when one pair runs into the other. */
  lemma ImportNamesCollideIff(v: string, f: string, w: string, g: string)
    ensures ImportName(v, f) == ImportName(w, g) <==> (v == w && f == g) || Runs(v, f, w, g) || Runs(w, g, v, f)
  {
    if |v| < |w| {
      ShorterRuns(v, f, w, g);
    } else if |w| < |v| {
      ShorterRuns(w, g, v, f);
    } else if ImportName(v, f) == ImportName(w, g) {
      var s := ImportName(v, f);
      assert v == s[..|v|] && w == ImportName(w, g)[..|w|];
      assert f == s[|v| + 8..] && g == ImportName(w, g)[|w| + 8..];
    }
  }

  lemma ShorterRuns(v: string, f: string, w: string, g: string)
    requires |v| < |w|
    ensures ImportName(v, f) == ImportName(w, g) <==> Runs(v, f, w, g)
    ensures !Runs(w, g, v, f)
  {
    if ImportName(v, f) == ImportName(w, g) {
      EqualNames(v, f, w, g);
      if |w| - |v| < |IMPORT| {
        OverlapRuns(v, f, w, g);
      } else {
        assert w == v + IMPORT + w[|v| + |IMPORT|..];
      }
    }
    if Runs(v, f, w, g) {
      RunsCollide(v, f, w, g);
    }
  }

  /** Where the longer VRF name starts to differ, the shorter one has its separator and source. */
  lemma EqualNames(v: string, f: string, w: string, g: string)
    requires |v| < |w| && ImportName(v, f) == ImportName(w, g)
    ensures v <= w && w[|v|..] + IMPORT + g == IMPORT + f
    ensures |w| - |v| >= |IMPORT| ==> v + IMPORT <= w && f == w[|v| + |IMPORT|..] + IMPORT + g
  {
    var s, d := ImportName(v, f), |w| - |v|;
    var rest := w[|v|..] + IMPORT + g;
    assert v == s[..|v|] && w == ImportName(w, g)[..|w|];
    assert rest == s[|v|..] == IMPORT + f;
    if d >= |IMPORT| {
      assert rest[..|IMPORT|] == w[|v|..][..|IMPORT|] == IMPORT;
      assert w[|v|..][|IMPORT|..] == w[|v| + |IMPORT|..];
      assert rest[|IMPORT|..] == w[|v| + |IMPORT|..] + IMPORT + g == f;
    }
  }

  /** Two separators can overlap in their underscore only. */
  lemma OverlapRuns(v: string, f: string, w: string, g: string)
    requires |v| < |w| < |v| + |IMPORT| && v <= w && w[|v|..] + IMPORT + g == IMPORT + f
    ensures w == v + "_import" && f == "import_" + g
  {
    var mid := w[|v|..];
    var d := |mid|;
    var s := mid + IMPORT + g;
    assert s[d] == IMPORT[0] == '_' && s[d] == IMPORT[d];
    assert d == 7;
    assert mid == s[..7] == IMPORT[..7] == "_import";
    assert f == s[8..] == IMPORT[1..] + g && IMPORT[1..] == "import_";
    assert w == v + mid;
  }

  lemma RunsCollide(v: string, f: string, w: string, g: string)
    requires Runs(v, f, w, g)
    ensures ImportName(v, f) == ImportName(w, g)
  {
    if w == v + "_import" && f == "import_" + g {
      assert IMPORT + "import_" == "_import" + IMPORT;
      assert ImportName(v, f) == v + (IMPORT + "import_") + g;
      assert ImportName(w, g) == v + ("_import" + IMPORT) + g;
    } else {
      assert w == v + IMPORT + w[|v| + |IMPORT|..];
    }
  }

  /** A name of v with this suffix runs into the name of w's import from g. */
  predicate Ends(v: string, suffix: string, w: string, g: string) {
    || (v == w + "_import" && suffix == "_" + g)
    || (|w| + |IMPORT| <= |v| && w + IMPORT <= v && g == v[|w| + |IMPORT|..] + suffix)
  }

  /** The suffixes of the maps a VRF has beside those of its imports. */
  const SUFFIXES := {"_import", "_export", "_redist_connected", "_redist_static"}

  /** No suffix holds a separator. */
  lemma NoSeparator(suffix: string, d: nat)
    requires suffix in SUFFIXES && d + |IMPORT| <= |suffix|
    ensures !(suffix[d] == '_' && suffix[d + 1] == 'i' && suffix[d + 2] == 'm')
  {
  }

  lemma LongerVrf(v: string, suffix: string, w: string, g: string)
    requires v + suffix == ImportName(w, g) && suffix in SUFFIXES
    ensures |w| < |v|
  {
    if |v| <= |w| {
      var d := |w| - |v|;
      var s := v + suffix;
      assert |suffix| == d + |IMPORT| + |g|;
      assert suffix[d] == s[|w|] == IMPORT[0] && suffix[d + 1] == s[|w| + 1] == IMPORT[1] && suffix[d + 2] == s[|w| + 2] == IMPORT[2];
      NoSeparator(suffix, d);
    }
  }

  /** A VRF's own map is the one an import of another VRF calls exactly when its name runs into it. */
  lemma OwnNameCollidesIff(v: string, suffix: string, w: string, g: string)
    requires suffix in SUFFIXES
    ensures v + suffix == ImportName(w, g) <==> Ends(v, suffix, w, g)
    ensures Ends(v, suffix, w, g) ==> |w| < |v|
  {
    if v + suffix == ImportName(w, g) {
      LongerVrf(v, suffix, w, g);
      if |v| >= |w| + |IMPORT| {
        LongEnd(v, suffix, w, g);
      } else {
        ShortEnd(v, suffix, w, g);
      }
    }
    if v == w + "_import" && suffix == "_" + g {
      assert "_import" + "_" == IMPORT;
      assert v + suffix == w + ("_import" + "_") + g;
    } else if Ends(v, suffix, w, g) {
      assert v == w + IMPORT + v[|w| + |IMPORT|..];
    }
  }

  lemma LongEnd(v: string, suffix: string, w: string, g: string)
    requires v + suffix == ImportName(w, g) && |v| >= |w| + |IMPORT|
    ensures w + IMPORT <= v && g == v[|w| + |IMPORT|..] + suffix
  {
    var s, h := v + suffix, v[|w| + |IMPORT|..];
    assert s[..|w| + |IMPORT|] == v[..|w| + |IMPORT|] == w + IMPORT;
    assert g == ImportName(w, g)[|w| + |IMPORT|..] == s[|w| + |IMPORT|..] == h + suffix;
  }

  /** The separator and the suffix can overlap in an underscore only. */
  lemma ShortEnd(v: string, suffix: string, w: string, g: string)
    requires v + suffix == ImportName(w, g) && |w| < |v| < |w| + |IMPORT| && suffix in SUFFIXES
    ensures v == w + "_import" && suffix == "_" + g
  {
    var s := v + suffix;
    assert s[|v|] == suffix[0] == '_' && s[|v|] == IMPORT[|v| - |w|];
    assert |v| == |w| + 7;
    assert v == s[..|v|] == ImportName(w, g)[..|w| + 7] == w + IMPORT[..7] && IMPORT[..7] == "_import";
    assert suffix == s[|v|..] == ImportName(w, g)[|w| + 7..] == "_" + g;
  }

  /** The selector of v stands in the map that w's import from g calls. */
  predicate Shadows(v: string, w: string, g: string) {
    Ends(v, "_import", w, g)
  }

  lemma ShadowsIff(v: string, w: string, g: string)
    ensures SelectorName(v) == ImportName(w, g) <==> Shadows(v, w, g)
    ensures Shadows(v, w, g) ==> |w| < |v|
  {
    OwnNameCollidesIff(v, "_import", w, g);
  }

  /** A VRF's own maps are told apart by VRF and suffix. */
  lemma OwnNamesInjective(v: string, a: string, w: string, b: string)
    requires a in SUFFIXES && b in SUFFIXES && v + a == w + b
    ensures v == w && a == b
  {
    var s := v + a;
    assert |a| >= 7 && |b| >= 7;
    assert a[|a| - 1] == s[|s| - 1] == b[|b| - 1];
    assert a[|a| - 4] == s[|s| - 4] == b[|b| - 4];
    assert a[|a| - 6] == s[|s| - 6] == b[|b| - 6];
    assert a == b;
    assert v == s[..|v|] && w == (w + b)[..|w|];
  }

  // ---- What the steps leave behind ----

  function Setups(steps: seq<Step>): seq<Setup> {
    seq(|steps|, i requires 0 <= i < |steps| => Setup(steps[i].Name(), steps[i].Filter()))
  }

  predicate EqualLists(a: Routing, b: Routing) {
    a.prefix4 == b.prefix4 && a.prefix6 == b.prefix6 && a.communities == b.communities
  }

  lemma {:induction false} ItemsKeepEqual(a: Routing, b: Routing, name: string, items: seq<Item>)
    requires EqualLists(a, b)
    ensures EqualLists(WithItems(a, name, items), WithItems(b, name, items))
  {
    if items != [] {
      ItemsKeepEqual(a, b, name, items[..|items| - 1]);
    }
  }

  /** The lists come from the filters alone. */
  lemma StepLists(a: Routing, s: Step, b: Routing)
    requires EqualLists(a, b)
    ensures EqualLists(WithStep(a, s), WithFilter(b, s.Name(), s.Filter()))
  {
    var selected := if s.OneImport? then WithMapSeq(a, s.m.Selects(), s.m.Selector()) else a;
    ItemsKeepEqual(selected, b, s.Name(), s.Filter().items);
    hide WithItems;
  }

  lemma {:induction false} StepsLists(cfg: Routing, steps: seq<Step>)
    ensures EqualLists(WithSteps(cfg, steps), WithFilters(cfg, Setups(steps)))
  {
    assert EqualLists(cfg, cfg);
    hide WithStep;
    hide WithFilter;
    hide EqualLists;
    if steps != [] {
      var n := |steps| - 1;
      assert Setups(steps)[..n] == Setups(steps[..n]);
      StepsLists(cfg, steps[..n]);
      StepLists(WithSteps(cfg, steps[..n]), steps[n], WithFilters(cfg, Setups(steps[..n])));
    }
  }

  lemma HeldAppended(cfg: Routing, name: string, s: MapSeq, q: string)
    ensures Held(WithMapSeq(cfg, name, s), q) == Held(cfg, q) + if q == name then [s] else []
  {
    LookupAppended(cfg.maps, name, [s], q);
  }

  lemma HeldFilter(cfg: Routing, name: string, f: Filter, q: string)
    ensures Held(WithFilter(cfg, name, f), q) == Held(cfg, q) + if q == MapName(name) then Entries(name, f) else []
  {
    FilterMap(cfg, name, f, q);
    hide Lookup;
    hide WithFilter;
    hide Entries;
  }

  /** An import adds its selector to one map and its filter's entries to another. */
  lemma ImportMap(cfg: Routing, m: Import, q: string)
    ensures Held(WithImport(cfg, m), q) ==
            Held(cfg, q) + (if q == m.Selects() then [m.Selector()] else [])
            + (if q == MapName(m.Calls()) then Entries(m.Calls(), m.filter) else [])
  {
    HeldAppended(cfg, m.Selects(), m.Selector(), q);
    HeldFilter(WithMapSeq(cfg, m.Selects(), m.Selector()), m.Calls(), m.filter, q);
    hide Held;
    hide WithFilter;
    hide WithMapSeq;
    hide Entries;
  }

  lemma HeldVerdict(cfg: Routing, q: string, depth: nat, r: Route)
    ensures NamedVerdict(cfg, q, r) == Eval(cfg, CALL_DEPTH, Held(cfg, q), r)
    ensures Held(cfg, q) != [] && depth > 0 ==> Called(cfg, depth, Some(q), r) == Eval(cfg, depth - 1, Held(cfg, q), r)
  {
    hide Lookup;
  }

  /** Entries that do not match are passed over, and the first selector that does decides. */
  lemma {:induction false} Picks(cfg: Routing, depth: nat, a: seq<MapSeq>, m: Import, b: seq<MapSeq>, r: Route)
    requires r.source == m.from && forall s :: s in a ==> !SeqMatches(cfg, s, r)
    ensures Eval(cfg, depth, a + [m.Selector()] + b, r) == Called(cfg, depth, Some(MapName(m.Calls())), r)
  {
    var seqs := a + [m.Selector()] + b;
    if a == [] {
      assert seqs[0] == m.Selector();
    } else {
      assert seqs[0] == a[0] && seqs[1..] == a[1..] + [m.Selector()] + b;
      Picks(cfg, depth, a[1..], m, b, r);
    }
  }

  lemma {:induction false} Skips(cfg: Routing, depth: nat, a: seq<MapSeq>, b: seq<MapSeq>, r: Route)
    requires forall s :: s in a ==> !SeqMatches(cfg, s, r)
    ensures Eval(cfg, depth, a + b, r) == Eval(cfg, depth, b, r)
  {
    if a == [] {
      assert a + b == b;
    } else {
      assert (a + b)[0] == a[0] && (a + b)[1..] == a[1..] + b;
      Skips(cfg, depth, a[1..], b, r);
    }
  }

  lemma StepMap(cfg: Routing, s: Step, q: string)
    ensures Held(WithStep(cfg, s), q) ==
            Held(cfg, q) + (if s.OneImport? && q == s.m.Selects() then [s.m.Selector()] else [])
            + (if q == MapName(s.Name()) then Entries(s.Name(), s.Filter()) else [])
  {
    hide Held;
    hide WithImport;
    hide WithFilter;
    hide Entries;
    match s {
      case OneFilter(own, f) => HeldFilter(cfg, own, f, q);
      case OneImport(m) => ImportMap(cfg, m, q);
    }
  }

  // ---- Any number of filters and imports ----

  /** Routes that the import brings in get the verdict of its filter. */
  ghost predicate Decides(cfg: Routing, m: Import) {
    forall r: Route :: r.source == m.from ==>
      NamedVerdict(cfg, m.Selects(), r) == FilterVerdict(m.filter.items, m.filter.default, r)
  }

  /** No two filters get in each other's way, and no VRF selects in a map that a filter is set up in. */
  predicate NoClash(steps: seq<Step>) {
    && (forall i, j :: 0 <= i < j < |steps| ==> steps[i].Name() != steps[j].Name() && Apart(steps[i].Name(), steps[j].Name()))
    && (forall i, j :: 0 <= i < |steps| && 0 <= j < |steps| && steps[i].OneImport? ==>
          SelectorName(steps[i].m.vrf) != steps[j].Name())
  }

  lemma {:induction false} FilterMaps(cfg: Routing, steps: seq<Step>, q: string)
    requires forall i :: 0 <= i < |steps| && steps[i].OneImport? ==> q != steps[i].m.Selects()
    ensures Held(WithSteps(cfg, steps), q) == Held(WithFilters(cfg, Setups(steps)), q)
  {
    hide Held;
    hide WithFilter;
    hide WithStep;
    hide Entries;
    hide MapName;
    if steps != [] {
      var n := |steps| - 1;
      assert Setups(steps)[..n] == Setups(steps[..n]);
      FilterMaps(cfg, steps[..n], q);
      StepMap(WithSteps(cfg, steps[..n]), steps[n], q);
      HeldFilter(WithFilters(cfg, Setups(steps[..n])), steps[n].Name(), steps[n].Filter(), q);
    }
  }

  lemma StepIsReady(cfg: Routing, steps: seq<Step>, k: nat)
    requires NoClash(steps) && k < |steps|
    requires forall i :: 0 <= i < |steps| ==> FreshFor(cfg, steps[i].Name())
    ensures Held(WithSteps(cfg, steps), MapName(steps[k].Name())) == Entries(steps[k].Name(), steps[k].Filter())
    ensures ListsReady(WithSteps(cfg, steps), steps[k].Name(), steps[k].Filter())
  {
    var setups := Setups(steps);
    hide FreshFor;
    hide Apart;
    AllReady(cfg, setups, k);
    forall i | 0 <= i < |steps| && steps[i].OneImport? ensures MapName(steps[k].Name()) != steps[i].m.Selects() {
      NamesInjective(SelectorName(steps[i].m.vrf), 0, steps[k].Name(), 0);
    }
    FilterMaps(cfg, steps, MapName(steps[k].Name()));
    StepsLists(cfg, steps);
    ListsCarryOver(WithFilters(cfg, setups), WithSteps(cfg, steps), steps[k].Name(), steps[k].Filter());
  }

  lemma ListsCarryOver(a: Routing, b: Routing, name: string, f: Filter)
    requires EqualLists(a, b) && ListsReady(a, name, f)
    ensures ListsReady(b, name, f)
  {
    forall k: nat | k < |f.items| ensures Resolves(b, name, k, f.items[k]) {
      assert Resolves(a, name, k, f.items[k]);
    }
  }

  lemma MeansFilter(cfg: Routing, depth: nat, name: string, f: Filter, r: Route)
    requires ListsReady(cfg, name, f) && FaithfulFilter(f)
    ensures Eval(cfg, depth, Entries(name, f), r) == FilterVerdict(f.items, f.default, r)
  {
    EntriesAgree(cfg, depth, name, f, 0, r);
    assert Seqs(name, f.items)[0..] == Seqs(name, f.items) && f.items[0..] == f.items;
  }

  /** Then every filter's map means it, among them the maps that imports call. */
  lemma MapsMeanTheirFilters(cfg: Routing, steps: seq<Step>, k: nat, r: Route)
    requires NoClash(steps) && k < |steps| && FaithfulFilter(steps[k].Filter())
    requires forall i :: 0 <= i < |steps| ==> FreshFor(cfg, steps[i].Name())
    ensures NamedVerdict(WithSteps(cfg, steps), MapName(steps[k].Name()), r)
            == FilterVerdict(steps[k].Filter().items, steps[k].Filter().default, r)
  {
    StepIsReady(cfg, steps, k);
    hide *;
    HeldVerdict(WithSteps(cfg, steps), MapName(steps[k].Name()), 0, r);
    MeansFilter(WithSteps(cfg, steps), CALL_DEPTH, steps[k].Name(), steps[k].Filter(), r);
  }

  predicate Imports(s: Step, v: string) {
    s.OneImport? && s.m.vrf == v
  }

  /** The selectors of one VRF, in order. */
  function Selectors(steps: seq<Step>, v: string): (r: seq<MapSeq>)
    ensures forall s :: s in r ==> exists i :: 0 <= i < |steps| && Imports(steps[i], v) && s == steps[i].m.Selector()
  {
    if steps == [] then []
    else
      var n := |steps| - 1;
      Selectors(steps[..n], v) + if Imports(steps[n], v) then [steps[n].m.Selector()] else []
  }

  lemma {:induction false} SelectorMap(cfg: Routing, steps: seq<Step>, v: string)
    requires forall i :: 0 <= i < |steps| ==> SelectorName(v) != steps[i].Name()
    ensures Held(WithSteps(cfg, steps), MapName(SelectorName(v)))
            == Held(cfg, MapName(SelectorName(v))) + Selectors(steps, v)
  {
    hide Held;
    hide WithStep;
    hide Entries;
    hide MapName;
    hide SelectorName;
    if steps != [] {
      var n, q := |steps| - 1, MapName(SelectorName(v));
      SelectorMap(cfg, steps[..n], v);
      StepMap(WithSteps(cfg, steps[..n]), steps[n], q);
      NamesInjective(SelectorName(v), 0, steps[n].Name(), 0);
      if steps[n].OneImport? {
        NamesInjective(SelectorName(v), 0, SelectorName(steps[n].m.vrf), 0);
        SelectorsInjective(v, steps[n].m.vrf);
      }
    }
  }

  lemma {:induction false} SelectorsSplit(steps: seq<Step>, k: nat) returns (rest: seq<MapSeq>)
    requires k < |steps| && steps[k].OneImport?
    ensures Selectors(steps, steps[k].m.vrf) == Selectors(steps[..k], steps[k].m.vrf) + [steps[k].m.Selector()] + rest
  {
    var n := |steps| - 1;
    if k == n {
      rest := [];
    } else {
      rest := SelectorsSplit(steps[..n], k);
      assert steps[..n][..k] == steps[..k];
      rest := rest + if Imports(steps[n], steps[k].m.vrf) then [steps[n].m.Selector()] else [];
    }
  }

  lemma EarlierDoNotMatch(steps: seq<Step>, k: nat, cfg: Routing, r: Route)
    requires NoClash(steps) && k < |steps| && steps[k].OneImport? && r.source == steps[k].m.from
    ensures forall s :: s in Selectors(steps[..k], steps[k].m.vrf) ==> !SeqMatches(cfg, s, r)
  {
    forall s | s in Selectors(steps[..k], steps[k].m.vrf) ensures !SeqMatches(cfg, s, r) {
      var i :| 0 <= i < k && Imports(steps[..k][i], steps[k].m.vrf) && s == steps[..k][i].m.Selector();
      assert steps[i].Name() != steps[k].Name();
    }
  }

  /** So a route that a VRF imports gets the verdict of the filter of that very import. */
  lemma ImportsDecide(cfg: Routing, steps: seq<Step>, k: nat)
    requires NoClash(steps) && k < |steps| && steps[k].OneImport? && FaithfulFilter(steps[k].m.filter)
    requires Lookup(cfg.maps, steps[k].m.Selects()).None?
    requires forall i :: 0 <= i < |steps| ==> FreshFor(cfg, steps[i].Name())
    ensures Decides(WithSteps(cfg, steps), steps[k].m)
  {
    var m, after := steps[k].m, WithSteps(cfg, steps);
    var before := Selectors(steps[..k], m.vrf);
    assert Held(cfg, m.Selects()) == [];
    hide Held;
    hide FreshFor;
    hide WithSteps;
    StepIsReady(cfg, steps, k);
    SelectorMap(cfg, steps, m.vrf);
    var rest := SelectorsSplit(steps, k);
    assert Held(after, m.Selects()) == before + [m.Selector()] + rest;
    hide NamedVerdict;
    hide FilterVerdict;
    forall r: Route | r.source == m.from
      ensures NamedVerdict(after, m.Selects(), r) == FilterVerdict(m.filter.items, m.filter.default, r)
    {
      EarlierDoNotMatch(steps, k, after, r);
      hide *;
      Picks(after, CALL_DEPTH, before, m, rest, r);
      HeldVerdict(after, m.Selects(), 0, r);
      CalledMeansFilter(after, CALL_DEPTH, m, r);
    }
  }

  lemma CalledMeansFilter(cfg: Routing, depth: nat, m: Import, r: Route)
    requires depth > 0 && FaithfulFilter(m.filter) && ListsReady(cfg, m.Calls(), m.filter)
    requires Held(cfg, MapName(m.Calls())) == Entries(m.Calls(), m.filter)
    ensures Called(cfg, depth, Some(MapName(m.Calls())), r) == FilterVerdict(m.filter.items, m.filter.default, r)
  {
    assert Entries(m.Calls(), m.filter) != [];
    hide *;
    HeldVerdict(cfg, MapName(m.Calls()), depth, r);
    MeansFilter(cfg, depth - 1, m.Calls(), m.filter, r);
  }

  /** And a route from a VRF that is not imported is rejected. */
  lemma OthersAreRejected(cfg: Routing, steps: seq<Step>, v: string, r: Route)
    requires forall i :: 0 <= i < |steps| ==> SelectorName(v) != steps[i].Name()
    requires forall i :: 0 <= i < |steps| && Imports(steps[i], v) ==> steps[i].m.from != r.source
    requires Lookup(cfg.maps, MapName(SelectorName(v))).None?
    ensures NamedVerdict(WithSteps(cfg, steps), MapName(SelectorName(v)), r) == Rejected
  {
    var after := WithSteps(cfg, steps);
    SelectorMap(cfg, steps, v);
    assert forall s :: s in Selectors(steps, v) ==> !SeqMatches(after, s, r);
    Skips(after, CALL_DEPTH, Selectors(steps, v), [], r);
    assert Selectors(steps, v) + [] == Selectors(steps, v) == [] + Selectors(steps, v);
    HeldVerdict(after, MapName(SelectorName(v)), 0, r);
    assert Eval(after, CALL_DEPTH, [], r) == Rejected;
    hide *;
  }

  // ---- Two imports, exactly ----

  /** Two imports that are not the same, do not run into each other and are not the other behind remove_. */
  predicate Distinct(p: Import, q: Import) {
    && !(p.vrf == q.vrf && p.from == q.from) && !Runs(p.vrf, p.from, q.vrf, q.from) && !Runs(q.vrf, q.from, p.vrf, p.from)
    && Apart(p.Calls(), q.Calls())
  }

  /** Set up in this order, the second VRF's selector stands behind a default, or the second import's call is taken over. */
  predicate Intercepts(p: Import, q: Import) {
    Shadows(q.vrf, p.vrf, p.from) || (Shadows(p.vrf, q.vrf, q.from) && p.from == q.from)
  }

  ghost predicate Untouched(cfg: Routing, m: Import) {
    FreshFor(cfg, m.Calls()) && Lookup(cfg.maps, m.Selects()).None?
  }

  function Both(cfg: Routing, p: Import, q: Import): Routing {
    WithImport(WithImport(cfg, p), q)
  }

  lemma BothMaps(cfg: Routing, p: Import, q: Import, name: string)
    ensures Held(Both(cfg, p, q), name) ==
            Held(cfg, name) + (if name == p.Selects() then [p.Selector()] else [])
            + (if name == MapName(p.Calls()) then Entries(p.Calls(), p.filter) else [])
            + (if name == q.Selects() then [q.Selector()] else [])
            + (if name == MapName(q.Calls()) then Entries(q.Calls(), q.filter) else [])
  {
    hide Held;
    hide WithImport;
    ImportMap(cfg, p, name);
    ImportMap(WithImport(cfg, p), q, name);
  }

  lemma BothLists(cfg: Routing, p: Import, q: Import)
    ensures EqualLists(Both(cfg, p, q), WithFilter(WithFilter(cfg, p.Calls(), p.filter), q.Calls(), q.filter))
  {
    StepLists(cfg, OneImport(p), cfg);
    StepLists(WithImport(cfg, p), OneImport(q), WithFilter(cfg, p.Calls(), p.filter));
    hide WithFilter;
    hide WithImport;
  }

  /** Which of the four names of two imports can coincide. */
  lemma FourNames(p: Import, q: Import)
    ensures p.Selects() != MapName(p.Calls()) && q.Selects() != MapName(q.Calls())
    ensures p.Selects() == q.Selects() <==> p.vrf == q.vrf
    ensures MapName(p.Calls()) == MapName(q.Calls()) <==> p.Calls() == q.Calls()
    ensures p.Selects() == MapName(q.Calls()) <==> Shadows(p.vrf, q.vrf, q.from)
    ensures q.Selects() == MapName(p.Calls()) <==> Shadows(q.vrf, p.vrf, p.from)
    ensures Shadows(p.vrf, q.vrf, q.from) ==> |q.vrf| < |p.vrf|
    ensures Shadows(q.vrf, p.vrf, p.from) ==> |p.vrf| < |q.vrf|
    ensures p.Calls() == q.Calls() ==> !Shadows(p.vrf, q.vrf, q.from) && !Shadows(q.vrf, p.vrf, p.from)
  {
    ShadowsIff(p.vrf, p.vrf, p.from);
    ShadowsIff(q.vrf, q.vrf, q.from);
    ShadowsIff(p.vrf, q.vrf, q.from);
    ShadowsIff(q.vrf, p.vrf, p.from);
    SelectorsInjective(p.vrf, q.vrf);
    NamesInjective(SelectorName(p.vrf), 0, SelectorName(q.vrf), 0);
    NamesInjective(SelectorName(p.vrf), 0, p.Calls(), 0);
    NamesInjective(SelectorName(q.vrf), 0, q.Calls(), 0);
    NamesInjective(SelectorName(p.vrf), 0, q.Calls(), 0);
    NamesInjective(SelectorName(q.vrf), 0, p.Calls(), 0);
    NamesInjective(p.Calls(), 0, q.Calls(), 0);
    hide Shadows;
    hide SelectorName;
    hide ImportName;
    hide MapName;
  }

  lemma SelectorsInjective(v: string, w: string)
    ensures SelectorName(v) == SelectorName(w) ==> v == w
  {
    assert v == SelectorName(v)[..|v|] && w == SelectorName(w)[..|w|];
  }

  /** The maps a route goes through when neither import intercepts the other. */
  lemma FirstMaps(cfg: Routing, p: Import, q: Import)
    requires Untouched(cfg, p) && p.Calls() != q.Calls() && !Shadows(q.vrf, p.vrf, p.from)
    ensures Held(Both(cfg, p, q), p.Selects()) != [] && Held(Both(cfg, p, q), p.Selects())[0] == p.Selector()
    ensures Held(Both(cfg, p, q), MapName(p.Calls())) == Entries(p.Calls(), p.filter)
  {
    hide *;
    FourNames(p, q);
    UntouchedIsEmpty(cfg, p);
    BothMaps(cfg, p, q, p.Selects());
    BothMaps(cfg, p, q, MapName(p.Calls()));
  }

  lemma SecondSelects(cfg: Routing, p: Import, q: Import)
    requires Untouched(cfg, q) && !Shadows(q.vrf, p.vrf, p.from)
    ensures Held(Both(cfg, p, q), q.Selects()) == (if p.vrf == q.vrf then [p.Selector()] else []) + [q.Selector()]
  {
    hide *;
    FourNames(p, q);
    UntouchedIsEmpty(cfg, q);
    BothMaps(cfg, p, q, q.Selects());
  }

  lemma SecondCalls(cfg: Routing, p: Import, q: Import)
    requires Untouched(cfg, q) && p.Calls() != q.Calls()
    ensures Held(Both(cfg, p, q), MapName(q.Calls()))
            == (if Shadows(p.vrf, q.vrf, q.from) then [p.Selector()] else []) + Entries(q.Calls(), q.filter)
  {
    hide *;
    FourNames(p, q);
    UntouchedIsEmpty(cfg, q);
    BothMaps(cfg, p, q, MapName(q.Calls()));
  }

  lemma UntouchedIsEmpty(cfg: Routing, m: Import)
    requires Untouched(cfg, m)
    ensures Held(cfg, m.Selects()) == Held(cfg, MapName(m.Calls())) == []
  {
  }

  /** Unless one intercepts the other, a route reaches the entries of the import that brings it in. */
  lemma FirstReaches(cfg: Routing, p: Import, q: Import, r: Route)
    requires Untouched(cfg, p) && Untouched(cfg, q) && p.Calls() != q.Calls() && !Intercepts(p, q) && r.source == p.from
    ensures NamedVerdict(Both(cfg, p, q), p.Selects(), r)
            == Eval(Both(cfg, p, q), CALL_DEPTH - 1, Entries(p.Calls(), p.filter), r)
  {
    assert Entries(p.Calls(), p.filter) != [] && !Shadows(q.vrf, p.vrf, p.from) && CALL_DEPTH > 0;
    hide *;
    FirstMaps(cfg, p, q);
    FrontReaches(Both(cfg, p, q), CALL_DEPTH, p, r);
    HeldVerdict(Both(cfg, p, q), p.Selects(), 0, r);
  }

  lemma FrontReaches(cfg: Routing, depth: nat, m: Import, r: Route)
    requires depth > 0 && r.source == m.from && Held(cfg, m.Selects()) != [] && Held(cfg, m.Selects())[0] == m.Selector()
    requires Held(cfg, MapName(m.Calls())) != []
    ensures Eval(cfg, depth, Held(cfg, m.Selects()), r) == Eval(cfg, depth - 1, Held(cfg, MapName(m.Calls())), r)
  {
    hide *;
    var seqs := Held(cfg, m.Selects());
    assert seqs == [] + [m.Selector()] + seqs[1..];
    Picks(cfg, depth, [], m, seqs[1..], r);
    HeldVerdict(cfg, MapName(m.Calls()), depth, r);
  }

  lemma SecondReaches(cfg: Routing, p: Import, q: Import, r: Route)
    requires Untouched(cfg, p) && Untouched(cfg, q) && p.Calls() != q.Calls() && !Intercepts(p, q) && r.source == q.from
    ensures NamedVerdict(Both(cfg, p, q), q.Selects(), r)
            == Eval(Both(cfg, p, q), CALL_DEPTH - 1, Entries(q.Calls(), q.filter), r)
  {
    var after := Both(cfg, p, q);
    var first := if p.vrf == q.vrf then [p.Selector()] else [];
    var inner := if Shadows(p.vrf, q.vrf, q.from) then [p.Selector()] else [];
    assert p.vrf == q.vrf ==> p.from != q.from;
    assert forall s :: s in first + inner ==> !SeqMatches(after, s, r);
    assert Entries(q.Calls(), q.filter) != [] && !Shadows(q.vrf, p.vrf, p.from);
    hide *;
    SecondSelects(cfg, p, q);
    SecondCalls(cfg, p, q);
    assert Held(after, q.Selects()) == first + [q.Selector()] + [];
    Picks(after, CALL_DEPTH, first, q, [], r);
    HeldVerdict(after, q.Selects(), 0, r);
    HeldVerdict(after, MapName(q.Calls()), CALL_DEPTH, r);
    Skips(after, CALL_DEPTH - 1, inner, Entries(q.Calls(), q.filter), r);
  }

  lemma BothDecide(cfg: Routing, p: Import, q: Import)
    requires Untouched(cfg, p) && Untouched(cfg, q) && p.Calls() != q.Calls() && !Intercepts(p, q)
    requires Apart(p.Calls(), q.Calls()) && FaithfulFilter(p.filter) && FaithfulFilter(q.filter)
    ensures Decides(Both(cfg, p, q), p) && Decides(Both(cfg, p, q), q)
  {
    var after := Both(cfg, p, q);
    var first := WithFilter(cfg, p.Calls(), p.filter);
    var second := WithFilter(first, q.Calls(), q.filter);
    FilterIsReady(cfg, p.Calls(), p.filter);
    FreshStays(cfg, p.Calls(), p.filter, q.Calls());
    FilterIsReady(first, q.Calls(), q.filter);
    ReadyStays(first, q.Calls(), q.filter, p.Calls(), p.filter);
    BothLists(cfg, p, q);
    assert ListsReady(second, p.Calls(), p.filter) && ListsReady(second, q.Calls(), q.filter);
    hide WithFilter;
    hide ListsReady;
    ListsCarryOver(second, after, p.Calls(), p.filter);
    ListsCarryOver(second, after, q.Calls(), q.filter);
    hide Untouched;
    hide NamedVerdict;
    hide FaithfulFilter;
    hide Entries;
    forall r: Route ensures
      && (r.source == p.from ==> NamedVerdict(after, p.Selects(), r) == FilterVerdict(p.filter.items, p.filter.default, r))
      && (r.source == q.from ==> NamedVerdict(after, q.Selects(), r) == FilterVerdict(q.filter.items, q.filter.default, r))
    {
      if r.source == p.from {
        FirstReaches(cfg, p, q, r);
        MeansFilter(after, CALL_DEPTH - 1, p.Calls(), p.filter, r);
      }
      if r.source == q.from {
        SecondReaches(cfg, p, q, r);
        MeansFilter(after, CALL_DEPTH - 1, q.Calls(), q.filter, r);
      }
    }
  }

  /** A selector of q's source at the front that calls a map with a default at the front. */
  lemma DefaultTakesOver(cfg: Routing, m: Import, rest: seq<MapSeq>, d: Filter, r: Route)
    requires r.source == m.from && Held(cfg, m.Selects()) == [m.Selector()] + rest
    requires Held(cfg, MapName(m.Calls())) != [] && Held(cfg, MapName(m.Calls()))[0] == DefaultSeq(d)
    ensures NamedVerdict(cfg, m.Selects(), r) == if d.default.kind == Accept then Accepted(r.communities) else Rejected
  {
    assert [] + [m.Selector()] + rest == [m.Selector()] + rest;
    hide *;
    Picks(cfg, CALL_DEPTH, [], m, rest, r);
    HeldVerdict(cfg, m.Selects(), 0, r);
    HeldVerdict(cfg, MapName(m.Calls()), CALL_DEPTH, r);
    DefaultDecides(cfg, CALL_DEPTH - 1, Held(cfg, MapName(m.Calls())), d, r);
  }

  lemma SharedMapShows(cfg: Routing, p: Import, q: Import)
    requires Untouched(cfg, p) && Untouched(cfg, q) && p.Calls() == q.Calls() && p.filter == ALL && q.filter == NOTHING
    ensures !Decides(Both(cfg, p, q), q)
  {
    var after, r := Both(cfg, p, q), Tagged(q.from);
    assert FilterVerdict(NOTHING.items, NOTHING.default, r) == Rejected && ALL.default.kind == Accept;
    assert forall name :: Entries(name, ALL) == [DefaultSeq(ALL)];
    assert NamedVerdict(after, q.Selects(), r) == Accepted(r.communities) by {
      hide *;
      FourNames(p, q);
      UntouchedIsEmpty(cfg, q);
      SecondSelects(cfg, p, q);
      BothMaps(cfg, p, q, MapName(q.Calls()));
      assert Held(after, MapName(q.Calls()))[0] == DefaultSeq(ALL);
      if p.vrf == q.vrf {
        SameVrfSameSource(p, q);
        DefaultTakesOver(after, p, [q.Selector()], ALL, r);
      } else {
        assert Held(after, q.Selects()) == [q.Selector()] + [];
        DefaultTakesOver(after, q, [], ALL, r);
      }
    }
  }

  lemma SameVrfSameSource(p: Import, q: Import)
    requires p.vrf == q.vrf && p.Calls() == q.Calls()
    ensures p.from == q.from && p.Selects() == q.Selects()
  {
    PrefixInjective(p.vrf + IMPORT, p.from, q.from);
  }

  lemma HiddenSelectorShows(cfg: Routing, p: Import, q: Import)
    requires Untouched(cfg, p) && Untouched(cfg, q) && Shadows(q.vrf, p.vrf, p.from) && p.filter == ALL && q.filter == NOTHING
    ensures !Decides(Both(cfg, p, q), q)
  {
    var after, r := Both(cfg, p, q), Tagged(q.from);
    FourNames(p, q);
    BothMaps(cfg, p, q, q.Selects());
    assert Held(after, q.Selects())[0] == DefaultSeq(ALL);
    HeldVerdict(after, q.Selects(), 0, r);
    DefaultDecides(after, CALL_DEPTH, Held(after, q.Selects()), ALL, r);
    assert FilterVerdict(NOTHING.items, NOTHING.default, r) == Rejected;
    hide Eval;
    hide Held;
  }

  lemma TakenCallShows(cfg: Routing, p: Import, q: Import)
    requires Untouched(cfg, p) && Untouched(cfg, q) && Shadows(p.vrf, q.vrf, q.from) && p.from == q.from
    requires p.filter == NOTHING && q.filter == ALL
    ensures !Decides(Both(cfg, p, q), q)
  {
    var after, r := Both(cfg, p, q), Tagged(q.from);
    assert FilterVerdict(ALL.items, ALL.default, r) != Rejected;
    assert Entries(p.Calls(), p.filter) == [DefaultSeq(NOTHING)];
    assert NamedVerdict(after, q.Selects(), r) == Rejected by {
      hide *;
      FourNames(p, q);
      FirstMaps(cfg, p, q);
      SecondSelects(cfg, p, q);
      SecondCalls(cfg, p, q);
      assert Held(after, q.Selects()) == [] + [q.Selector()] + [];
      assert Held(after, MapName(q.Calls())) == [] + [p.Selector()] + Entries(q.Calls(), q.filter);
      TakenCall(after, p, q, r);
    }
  }

  lemma TakenCall(cfg: Routing, p: Import, q: Import, r: Route)
    requires r.source == p.from == q.from && Held(cfg, q.Selects()) == [] + [q.Selector()] + []
    requires Held(cfg, MapName(q.Calls())) == [] + [p.Selector()] + Entries(q.Calls(), q.filter)
    requires Held(cfg, MapName(p.Calls())) != [] && Held(cfg, MapName(p.Calls()))[0] == DefaultSeq(NOTHING)
    ensures NamedVerdict(cfg, q.Selects(), r) == Rejected
  {
    assert CALL_DEPTH == 10 && NOTHING.default.kind != Accept;
    hide *;
    HeldVerdict(cfg, q.Selects(), 0, r);
    Picks(cfg, CALL_DEPTH, [], q, [], r);
    HeldVerdict(cfg, MapName(q.Calls()), CALL_DEPTH, r);
    Picks(cfg, CALL_DEPTH - 1, [], p, Entries(q.Calls(), q.filter), r);
    HeldVerdict(cfg, MapName(p.Calls()), CALL_DEPTH - 1, r);
    DefaultDecides(cfg, CALL_DEPTH - 2, Held(cfg, MapName(p.Calls())), NOTHING, r);
  }

  lemma CollidingImportShows(cfg: Routing, p: Import, q: Import)
    requires Untouched(cfg, p) && Untouched(cfg, q) && p.Calls() != q.Calls() && !Intercepts(p, q) && !Apart(p.Calls(), q.Calls())
    requires p.filter == CollidingFirst(p.Calls(), q.Calls()) && q.filter == CollidingSecond(p.Calls(), q.Calls())
    ensures FaithfulFilter(p.filter) && FaithfulFilter(q.filter) && !Decides(Both(cfg, p, q), q)
  {
    var after, r := Both(cfg, p, q), Tagged(q.from);
    SecondReaches(cfg, p, q, r);
    BothLists(cfg, p, q);
    CollisionShows(cfg, p.Calls(), q.Calls(), after, CALL_DEPTH - 1, q.from);
    hide NamedVerdict;
    hide Eval;
    hide WithFilter;
    hide FilterVerdict;
    hide Entries;
  }

  /** Some filters of two clashing imports come out wrong. */
  lemma ClashShows(cfg: Routing, p: Import, q: Import) returns (f: Filter, g: Filter)
    requires Untouched(cfg, p) && Untouched(cfg, q)
    requires p.Calls() == q.Calls() || Intercepts(p, q) || !Apart(p.Calls(), q.Calls())
    ensures FaithfulFilter(f) && FaithfulFilter(g)
    ensures !Decides(Both(cfg, p.(filter := f), q.(filter := g)), q.(filter := g))
  {
    hide FreshFor;
    hide Decides;
    hide Shadows;
    if p.Calls() == q.Calls() || Shadows(q.vrf, p.vrf, p.from) {
      f, g := ALL, NOTHING;
      if p.Calls() == q.Calls() {
        SharedMapShows(cfg, p.(filter := f), q.(filter := g));
      } else {
        HiddenSelectorShows(cfg, p.(filter := f), q.(filter := g));
      }
    } else if Intercepts(p, q) {
      f, g := NOTHING, ALL;
      TakenCallShows(cfg, p.(filter := f), q.(filter := g));
    } else {
      f, g := CollidingFirst(p.Calls(), q.Calls()), CollidingSecond(p.Calls(), q.Calls());
      CollidingImportShows(cfg, p.(filter := f), q.(filter := g));
    }
  }

  /** Two imports, set up in this order, always decide by their own filters exactly when they are distinct and neither intercepts. */
  lemma TwoImportsIff(cfg: Routing, p: Import, q: Import)
    requires Untouched(cfg, p) && Untouched(cfg, q)
    ensures Distinct(p, q) && !Intercepts(p, q) <==>
            forall f, g :: FaithfulFilter(f) && FaithfulFilter(g) ==>
              && Decides(Both(cfg, p.(filter := f), q.(filter := g)), p.(filter := f))
              && Decides(Both(cfg, p.(filter := f), q.(filter := g)), q.(filter := g))
  {
    hide FreshFor;
    hide Decides;
    hide Shadows;
    ImportNamesCollideIff(p.vrf, p.from, q.vrf, q.from);
    if Distinct(p, q) && !Intercepts(p, q) {
      forall f, g | FaithfulFilter(f) && FaithfulFilter(g)
        ensures Decides(Both(cfg, p.(filter := f), q.(filter := g)), p.(filter := f))
                && Decides(Both(cfg, p.(filter := f), q.(filter := g)), q.(filter := g))
      {
        BothDecide(cfg, p.(filter := f), q.(filter := g));
      }
    } else {
      var f, g := ClashShows(cfg, p, q);
    }
  }

  /** VRF a importing from b_import_c and VRF a_import_b importing from c share one map, which loses the second filter. */
  lemma ImportsShareAMap(cfg: Routing)
    requires var p, q := Import("a", 0, "b_import_c", ALL), Import("a_import_b", 0, "c", NOTHING);
             Untouched(cfg, p) && Untouched(cfg, q)
    ensures var p, q := Import("a", 0, "b_import_c", ALL), Import("a_import_b", 0, "c", NOTHING);
            p.Calls() == q.Calls() && !Decides(Both(cfg, p, q), q)
  {
    assert "a" + IMPORT + "b_import_c" == "a_import_b" + IMPORT + "c";
    SharedMapShows(cfg, Import("a", 0, "b_import_c", ALL), Import("a_import_b", 0, "c", NOTHING));
  }

  lemma ShadowedNames(p: Import, q: Import)
    requires p.vrf == "a_import_x" && q.vrf == "a" && p.from == q.from == "x_import"
    ensures Distinct(p, q) && Shadows(p.vrf, q.vrf, q.from)
  {
    assert "a" + IMPORT <= "a_import_x" && "a_import_x"[9..] == "x" && "x" + "_import" == "x_import";
    assert p.Calls()[0] == 'a' && q.Calls()[0] == 'a' && ("remove_" + p.Calls())[0] == 'r' && ("remove_" + q.Calls())[0] == 'r';
    assert |p.Calls()| != |q.Calls()|;
    ImportNamesCollideIff(p.vrf, p.from, q.vrf, q.from);
    hide Runs;
  }

  /** VRF a_import_x selects in the map that VRF a's import from x_import calls; one of the two goes wrong in either order. */
  lemma SelectorIsACalledMap(cfg: Routing, p: Import, q: Import)
    requires p.vrf == "a_import_x" && q.vrf == "a" && p.from == q.from == "x_import"
    requires Untouched(cfg, p) && Untouched(cfg, q) && p.filter == NOTHING && q.filter == ALL
    ensures Distinct(p, q) && !Decides(Both(cfg, p, q), q) && !Decides(Both(cfg, q, p), p)
  {
    ShadowedNames(p, q);
    hide *;
    TakenCallShows(cfg, p, q);
    HiddenSelectorShows(cfg, q, p);
  }
}
