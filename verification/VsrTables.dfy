/**
 Table IDs of the vSR configuration (pkg/cra-vsr/layer3.go, manager.go): planned from the running
 configuration and the node configuration, and carried from one committed apply to the next.
 */
module VsrTables {
  import opened Text
  import opened Strings
  import opened TableIds

  const MAX_NAME := 15

  datatype VRF = VRF(name: string, table: int)

  datatype Base = Base(cluster: string, management: string) {
    predicate Reserved(name: string) {
      name == management || name == cluster
    }
  }

  /** The names of the fabric and local VRFs of a node configuration. */
  datatype NodeConfig = NodeConfig(fabric: set<string>, local: set<string>)

  type Tables = map<string, int>

  predicate Injective(t: Tables) {
    forall a, b :: a in t && b in t && t[a] == t[b] ==> a == b
  }

  // ---- The plan ----

  function FreeFrom(used: set<int>, k: int): Option<int>
    decreases END - k
  {
    if k >= END then None else if k !in used then Some(k) else FreeFrom(used, k + 1)
  }

  lemma {:induction false} FreeFromIsLeast(used: set<int>, k: int)
    requires START <= k && forall j :: START <= j < k ==> j in used
    ensures FreeFrom(used, k).Some? ==> LeastFree(used, FreeFrom(used, k).value)
    ensures FreeFrom(used, k).None? <==> Exhausted(used)
    decreases END - k
  {
    if k < END && k in used {
      FreeFromIsLeast(used, k + 1);
    }
  }

  /** In order, a name that has a table keeps it and any other gets the least free one. */
  function Assign(t: Tables, names: seq<string>): Option<Tables>
    decreases names
  {
    if names == [] then Some(t)
    else if names[0] in t then Assign(t, names[1..])
    else
      var free := FreeFrom(t.Values, START);
      if free.None? then None else Assign(t[names[0] := free.value], names[1..])
  }

  function Kept(base: Base, running: Tables, cfg: NodeConfig): Tables {
    map n | n in running && (base.Reserved(n) || n in cfg.fabric || n in cfg.local) :: running[n]
  }

  function Wanted(base: Base, cfg: NodeConfig): seq<string> {
    Sorted(set n | n in cfg.fabric + cfg.local && !base.Reserved(n))
  }

  function Listed(base: Base, cfg: NodeConfig): set<string> {
    cfg.fabric + cfg.local + {base.cluster, base.management}
  }

  predicate Short(names: set<string>) {
    forall n :: n in names ==> |n| <= MAX_NAME
  }

  /** The infos that setupInformations collects, or its error. */
  function Informed(base: Base, ids: Option<Tables>, cfg: NodeConfig): Option<Tables> {
    if ids.None? || base.cluster !in ids.value || base.management !in ids.value then None
    else Some(map n | n in ids.value && n in Listed(base, cfg) :: ids.value[n])
  }

  /** The VRFs of the generated configuration, if one can be generated. */
  function Plan(base: Base, running: Tables, cfg: NodeConfig): Option<Tables> {
    var infos := Informed(base, Assign(Kept(base, running, cfg), Wanted(base, cfg)), cfg);
    if Short(Listed(base, cfg)) then infos else None
  }

  lemma {:induction false} AssignExtends(t: Tables, names: seq<string>)
    requires Assign(t, names).Some?
    ensures var a := Assign(t, names).value;
            && a.Keys == t.Keys + (set n | n in names)
            && (forall n :: n in t ==> a[n] == t[n])
            && (Injective(t) ==> Injective(a))
            && (forall n :: n in a && n !in t ==> START <= a[n] < END && a[n] !in t.Values)
    decreases names
  {
    if names != [] {
      if names[0] in t {
        AssignExtends(t, names[1..]);
      } else {
        FreeFromIsLeast(t.Values, START);
        var free := FreeFrom(t.Values, START).value;
        var next := t[names[0] := free];
        AssignExtends(next, names[1..]);
        assert forall n :: n in t ==> t[n] in t.Values && next[n] in next.Values;
        assert next[names[0]] == free && free in next.Values;
      }
      assert names == [names[0]] + names[1..];
    }
  }

  /** The planned VRFs are the configured ones and the two reserved ones; tables are distinct and kept. */
  lemma PlanIsSound(base: Base, running: Tables, cfg: NodeConfig)
    requires Plan(base, running, cfg).Some?
    ensures var p := Plan(base, running, cfg).value;
            && p.Keys == Listed(base, cfg)
            && (forall n :: n in p <==> n in cfg.fabric || n in cfg.local || n == base.cluster || n == base.management)
            && (forall n :: n in p && n in running ==> p[n] == running[n])
            && (forall n :: n in p && n !in running ==> START <= p[n] < END)
            && (Injective(running) ==> Injective(p))
  {
    var kept, wanted := Kept(base, running, cfg), Wanted(base, cfg);
    AssignExtends(kept, wanted);
    var a := Assign(kept, wanted).value;
    var p := Plan(base, running, cfg).value;
    forall n | n in Listed(base, cfg) ensures n in p {
      if n in cfg.fabric + cfg.local && !base.Reserved(n) {
        assert n in wanted;
      }
    }
    forall n | n in p && n in running ensures p[n] == running[n] {
      assert n in kept;
    }
  }

  // ---- When a plan exists ----

  function RangeFrom(k: int): (s: set<int>)
    ensures forall x :: x in s <==> k <= x < END
    decreases END - k
  {
    if k >= END then {} else {k} + RangeFrom(k + 1)
  }

  /** The unused numbers of the range. */
  function Free(t: Tables): set<int> {
    RangeFrom(START) - t.Values
  }

  function Missing(t: Tables, names: seq<string>): set<string> {
    set n | n in names && n !in t
  }

  lemma {:induction false} AssignSucceedsIff(t: Tables, names: seq<string>)
    ensures Assign(t, names).Some? <==> |Missing(t, names)| <= |Free(t)|
    decreases names
  {
    hide Missing;
    hide Free;
    hide FreeFrom;
    if names == [] {
      NothingMissing(t);
    } else if names[0] in t {
      MissingSkips(t, names);
      AssignSucceedsIff(t, names[1..]);
    } else {
      var free := FreeFrom(t.Values, START);
      FreeIsFirst(t);
      MissingShrinks(t, names, if free.Some? then free.value else 0);
      if free.Some? {
        FreeShrinks(t, names[0], free.value);
        AssignSucceedsIff(t[names[0] := free.value], names[1..]);
      }
    }
  }

  lemma NothingMissing(t: Tables)
    ensures |Missing(t, [])| == 0
  {
    assert Missing(t, []) == {};
  }

  lemma MissingSkips(t: Tables, names: seq<string>)
    requires names != [] && names[0] in t
    ensures Missing(t, names) == Missing(t, names[1..])
  {
    assert names == [names[0]] + names[1..];
  }

  lemma MissingShrinks(t: Tables, names: seq<string>, id: int)
    requires names != [] && names[0] !in t
    ensures |Missing(t[names[0] := id], names[1..])| == |Missing(t, names)| - 1
  {
    assert names == [names[0]] + names[1..];
    assert names[0] in Missing(t, names);
    assert Missing(t[names[0] := id], names[1..]) == Missing(t, names) - {names[0]};
  }

  lemma FreeIsFirst(t: Tables)
    ensures FreeFrom(t.Values, START).Some? ==> FreeFrom(t.Values, START).value in Free(t)
    ensures FreeFrom(t.Values, START).None? ==> |Free(t)| == 0
  {
    FreeFromIsLeast(t.Values, START);
    hide FreeFrom;
    if FreeFrom(t.Values, START).None? {
      assert Free(t) == {};
    }
  }

  lemma FreeShrinks(t: Tables, name: string, id: int)
    requires name !in t && id in Free(t)
    ensures |Free(t[name := id])| == |Free(t)| - 1
  {
    ValuesGrow(t, name, id);
    OneFewer(RangeFrom(START), t.Values, id);
  }

  lemma OneFewer(range: set<int>, used: set<int>, id: int)
    requires id in range - used
    ensures |range - (used + {id})| == |range - used| - 1
  {
    assert range - (used + {id}) == (range - used) - {id};
  }

  lemma ValuesGrow(t: Tables, name: string, id: int)
    requires name !in t
    ensures t[name := id].Values == t.Values + {id}
  {
    var next := t[name := id];
    assert next[name] == id;
    forall v | v in t.Values ensures v in next.Values {
      var n :| n in t && t[n] == v;
      assert next[n] == v;
    }
  }

  /** The configured VRFs that do not run yet. */
  ghost function New(base: Base, running: Tables, cfg: NodeConfig): set<string> {
    set n | n in cfg.fabric + cfg.local && n !in {base.cluster, base.management} && n !in running
  }

  /** The numbers that no running VRF has, unless it is about to go. */
  ghost function Unused(base: Base, running: Tables, cfg: NodeConfig): set<int> {
    RangeFrom(START)
    - (set n | n in running && (n in {base.cluster, base.management} || n in cfg.fabric || n in cfg.local) :: running[n])
  }

  lemma NewIsMissing(base: Base, running: Tables, cfg: NodeConfig)
    ensures Missing(Kept(base, running, cfg), Wanted(base, cfg)) == New(base, running, cfg)
    ensures Free(Kept(base, running, cfg)) == Unused(base, running, cfg)
  {
    var kept := Kept(base, running, cfg);
    var used := set n | n in running && (n in {base.cluster, base.management} || n in cfg.fabric || n in cfg.local) :: running[n];
    forall k | k in used ensures k in kept.Values {
      var n :| n in running && (n in {base.cluster, base.management} || n in cfg.fabric || n in cfg.local) && running[n] == k;
      assert n in kept && kept[n] == k;
    }
    assert kept.Values == used;
    assert forall n :: n in Wanted(base, cfg) <==> n in cfg.fabric + cfg.local && !base.Reserved(n);
  }

  lemma AssignedIff(base: Base, running: Tables, cfg: NodeConfig)
    ensures Plan(base, running, cfg).Some? <==>
            && base.cluster in running && base.management in running && Short(Listed(base, cfg))
            && |Missing(Kept(base, running, cfg), Wanted(base, cfg))| <= |Free(Kept(base, running, cfg))|
  {
    hide Missing;
    hide Free;
    hide Assign;
    hide Short;
    var kept, wanted := Kept(base, running, cfg), Wanted(base, cfg);
    AssignSucceedsIff(kept, wanted);
    if Assign(kept, wanted).Some? {
      AssignExtends(kept, wanted);
      assert forall n :: n in wanted ==> !base.Reserved(n);
    }
  }

  /**
   A configuration can be generated exactly when both reserved VRFs run already, no name is too long, and the
   new VRFs fit into the numbers that the kept ones leave free.
   */
  lemma PlanExistsIff(base: Base, running: Tables, cfg: NodeConfig)
    ensures Plan(base, running, cfg).Some? <==>
            && base.cluster in running && base.management in running
            && (forall n :: n in cfg.fabric || n in cfg.local || n in {base.cluster, base.management} ==> |n| <= MAX_NAME)
            && |New(base, running, cfg)| <= |Unused(base, running, cfg)|
  {
    assert Short(Listed(base, cfg)) <==>
           forall n :: n in cfg.fabric || n in cfg.local || n in {base.cluster, base.management} ==> |n| <= MAX_NAME;
    hide *;
    NewIsMissing(base, running, cfg);
    AssignedIff(base, running, cfg);
  }

  // ---- Namespaces ----

  datatype Namespace = Namespace(name: string, vrfs: seq<VRF>)

  /** The working namespace, and the one that runs the metrics agent in the startup configuration, or "". */
  datatype Layout = Layout(work: string, kpi: string) {
    /** The namespace added for the metrics agent hides the working one. */
    predicate Hides() {
      kpi != "" && kpi == work
    }
  }

  /** The VRFs of the first namespace of that name. */
  function LookupNS(nss: seq<Namespace>, name: string): Option<seq<VRF>> {
    if nss == [] then None else if nss[0].name == name then Some(nss[0].vrfs) else LookupNS(nss[1..], name)
  }

  /** The namespaces of a generated configuration: that of the metrics agent comes first. */
  function Emitted(layout: Layout, vrfs: seq<VRF>): seq<Namespace> {
    (if layout.kpi == "" then [] else [Namespace(layout.kpi, [])]) + [Namespace(layout.work, vrfs)]
  }

  /** What the next apply finds of a committed plan. */
  function Visible(layout: Layout, plan: Tables): Tables {
    if layout.Hides() then map[] else plan
  }

  lemma LookupEmitted(layout: Layout, vrfs: seq<VRF>)
    ensures LookupNS(Emitted(layout, vrfs), layout.work) == Some(if layout.Hides() then [] else vrfs)
    ensures TablesOf([]) == map[]
  {
    var nss := Emitted(layout, vrfs);
    if layout.kpi != "" {
      assert nss[1..] == [Namespace(layout.work, vrfs)];
    }
  }

  /** The next apply finds the committed VRFs exactly when the metrics namespace is none or another one. */
  lemma SeesCommittedIff(layout: Layout, vrfs: seq<VRF>)
    requires vrfs != []
    ensures LookupNS(Emitted(layout, vrfs), layout.work) == Some(vrfs) <==> layout.kpi == "" || layout.kpi != layout.work
  {
    LookupEmitted(layout, vrfs);
  }

  /** A working namespace that shows no VRF stays so: nothing can be generated from it. */
  lemma {:induction false} EmptyIsStuck(base: Base, layout: Layout, attempts: seq<Attempt>)
    ensures Run(base, layout, map[], attempts) == map[]
    decreases |attempts|
  {
    if attempts != [] {
      PlanExistsIff(base, map[], attempts[0].cfg);
      EmptyIsStuck(base, layout, attempts[1..]);
    }
  }

  /** With metrics in the working namespace, nothing can be generated any more after the first commit. */
  lemma HiddenIsStuck(base: Base, layout: Layout, seen: Tables, a: Attempt, attempts: seq<Attempt>, cfg: NodeConfig)
    requires layout.Hides() && a.succeeds && Plan(base, seen, a.cfg).Some?
    ensures Plan(base, Run(base, layout, Next(base, layout, seen, a), attempts), cfg).None?
  {
    EmptyIsStuck(base, layout, attempts);
    PlanExistsIff(base, map[], cfg);
  }

  /** A running cluster and management VRF, metrics in the working namespace: the first apply succeeds, no later one does. */
  lemma MetricsInWorkingNamespace(later: NodeConfig)
    ensures var base, layout, cfg := Base("cluster", "mgmt"), Layout("main", "main"), NodeConfig({}, {});
            var running := map["cluster" := 10, "mgmt" := 11];
            && Plan(base, running, cfg).Some?
            && Plan(base, Next(base, layout, running, Attempt(cfg, true)), later).None?
  {
    var base, layout, cfg := Base("cluster", "mgmt"), Layout("main", "main"), NodeConfig({}, {});
    var running: Tables := map["cluster" := 10, "mgmt" := 11];
    assert Missing(Kept(base, running, cfg), Wanted(base, cfg)) == {};
    assert Listed(base, cfg) == {"cluster", "mgmt"} && Short({"cluster", "mgmt"});
    hide Missing;
    hide Free;
    hide Plan;
    hide Kept;
    hide Wanted;
    PlanExistsIff(base, running, cfg);
    HiddenIsStuck(base, layout, running, Attempt(cfg, true), [], later);
  }

  // ---- Sequences of applies ----

  /** One apply: its configuration, and whether every call to the device and every other layer succeeded. */
  datatype Attempt = Attempt(cfg: NodeConfig, succeeds: bool)

  /** The tables the next apply finds in the working namespace. */
  function Next(base: Base, layout: Layout, seen: Tables, a: Attempt): Tables {
    var plan := Plan(base, seen, a.cfg);
    if a.succeeds && plan.Some? then Visible(layout, plan.value) else seen
  }

  function Run(base: Base, layout: Layout, seen: Tables, attempts: seq<Attempt>): Tables
    decreases |attempts|
  {
    if attempts == [] then seen else Run(base, layout, Next(base, layout, seen, attempts[0]), attempts[1..])
  }

  lemma {:induction false} RunInjective(base: Base, layout: Layout, seen: Tables, attempts: seq<Attempt>)
    requires Injective(seen)
    ensures Injective(Run(base, layout, seen, attempts))
    decreases |attempts|
  {
    if attempts != [] {
      if Plan(base, seen, attempts[0].cfg).Some? {
        PlanIsSound(base, seen, attempts[0].cfg);
      }
      RunInjective(base, layout, Next(base, layout, seen, attempts[0]), attempts[1..]);
    }
  }

  /**
   After any applies, whatever is generated next has distinct tables, what is committed after that keeps the table
   of every VRF that stays, and an apply that fails keeps everything.
   */
  lemma ApplyAfterAnyRun(base: Base, layout: Layout, seen: Tables, attempts: seq<Attempt>, a: Attempt, later: NodeConfig)
    requires Injective(seen)
    ensures var before := Run(base, layout, seen, attempts);
            var plan := Plan(base, before, a.cfg);
            && (plan.Some? ==> Injective(plan.value) && plan.value.Keys == Listed(base, a.cfg))
            && (plan.Some? ==> forall n :: n in before && n in plan.value ==> plan.value[n] == before[n])
            && (plan.Some? && a.succeeds ==>
                  var next := Plan(base, Next(base, layout, before, a), later);
                  next.Some? ==> forall n :: n in plan.value && n in next.value ==> next.value[n] == plan.value[n])
            && (!a.succeeds || plan.None? ==> Next(base, layout, before, a) == before)
  {
    RunInjective(base, layout, seen, attempts);
    var before := Run(base, layout, seen, attempts);
    if Plan(base, before, a.cfg).Some? {
      PlanIsSound(base, before, a.cfg);
      var after := Next(base, layout, before, a);
      PlanExistsIff(base, after, later);
      if Plan(base, after, later).Some? {
        PlanIsSound(base, after, later);
      }
    }
  }

  /** Some apply of the run is the first to be committed. */
  predicate Commits(base: Base, seen: Tables, attempts: seq<Attempt>) {
    exists i :: 0 <= i < |attempts| && attempts[i].succeeds && Plan(base, seen, attempts[i].cfg).Some?
  }

  /**
   Over a whole run, a VRF that every configuration in between lists keeps its table throughout, exactly unless
   metrics run in the working namespace and something is committed.
   */
  lemma {:induction false} TableIsStable(base: Base, layout: Layout, seen: Tables, attempts: seq<Attempt>, n: string)
    requires n in seen && forall i :: 0 <= i < |attempts| ==> n in Listed(base, attempts[i].cfg)
    ensures (n in Run(base, layout, seen, attempts) && Run(base, layout, seen, attempts)[n] == seen[n])
            <==> !(layout.Hides() && Commits(base, seen, attempts))
    decreases |attempts|
  {
    hide Plan;
    if attempts != [] {
      var a, rest := attempts[0], attempts[1..];
      assert n in Listed(base, a.cfg);
      if a.succeeds && Plan(base, seen, a.cfg).Some? {
        PlanIsSound(base, seen, a.cfg);
        if layout.Hides() {
          EmptyIsStuck(base, layout, rest);
        } else {
          TableIsStable(base, layout, Next(base, layout, seen, a), rest, n);
        }
      } else {
        TableIsStable(base, layout, seen, rest, n);
        FirstFails(base, seen, attempts);
      }
    }
  }

  lemma FirstFails(base: Base, seen: Tables, attempts: seq<Attempt>)
    requires attempts != [] && !(attempts[0].succeeds && Plan(base, seen, attempts[0].cfg).Some?)
    ensures Commits(base, seen, attempts) <==> Commits(base, seen, attempts[1..])
  {
    hide Plan;
    var rest := attempts[1..];
    if Commits(base, seen, attempts) {
      var i :| 0 <= i < |attempts| && attempts[i].succeeds && Plan(base, seen, attempts[i].cfg).Some?;
      assert rest[i - 1] == attempts[i];
    }
    if Commits(base, seen, rest) {
      var i :| 0 <= i < |rest| && rest[i].succeeds && Plan(base, seen, rest[i].cfg).Some?;
      assert attempts[i + 1] == rest[i];
    }
  }

  // ---- The code ----

  /** The table of a VRF list; a later entry overrides an earlier one of the same name. */
  function TablesOf(vrfs: seq<VRF>): Tables {
    if vrfs == [] then map[] else TablesOf(vrfs[..|vrfs| - 1])[vrfs[|vrfs| - 1].name := vrfs[|vrfs| - 1].table]
  }

  predicate DistinctNames(vrfs: seq<VRF>) {
    forall i, j :: 0 <= i < j < |vrfs| ==> vrfs[i].name != vrfs[j].name
  }

  class Manager {
    const base: Base
    const layout: Layout
    var running: seq<Namespace>

    constructor (b: Base, l: Layout, r: seq<Namespace>)
      ensures base == b && layout == l && running == r
    {
      base, layout, running := b, l, r;
    }

    method FindNS(nss: seq<Namespace>, name: string) returns (r: Option<seq<VRF>>)
      ensures r == LookupNS(nss, name)
    {
      for i := 0 to |nss|
        invariant LookupNS(nss[i..], name) == LookupNS(nss, name)
      {
        assert nss[i..][0] == nss[i] && nss[i..][1..] == nss[i + 1..];
        if nss[i].name == name {
          return Some(nss[i].vrfs);
        }
      }
      return None;
    }

    method SetupTableID(vrfs: seq<VRF>, cfg: NodeConfig) returns (tableID: Tables)
      ensures tableID == Kept(base, TablesOf(vrfs), cfg)
    {
      tableID := map[];
      for k := 0 to |vrfs|
        invariant tableID == TablesOf(vrfs[..k])
      {
        assert vrfs[..k + 1][..k] == vrfs[..k];
        tableID := tableID[vrfs[k].name := vrfs[k].table];
      }
      assert vrfs[..|vrfs|] == vrfs;
      var all := tableID;
      var rest := tableID.Keys;
      while rest != {}
        invariant rest <= all.Keys
        invariant tableID == map n | n in all && (n in rest || base.Reserved(n) || n in cfg.fabric || n in cfg.local) :: all[n]
        decreases rest
      {
        assert exists n :: n in rest by { var n := Inhabitant(rest); }
        var n :| n in rest;
        if !base.Reserved(n) && n !in cfg.fabric && n !in cfg.local {
          tableID := tableID - {n};
        }
        rest := rest - {n};
      }
    }

    method TablesInUse(tableID: Tables) returns (list: seq<int>)
      ensures AsSet(list) == tableID.Values
    {
      list := [];
      var rest := tableID.Keys;
      ghost var seen: set<string> := {};
      while rest != {}
        invariant rest + seen == tableID.Keys
        invariant forall t :: t in list ==> t in tableID.Values
        invariant forall n :: n in seen ==> tableID[n] in list
        decreases rest
      {
        assert exists n :: n in rest by { var n := Inhabitant(rest); }
        var n :| n in rest;
        list := list + [tableID[n]];
        rest, seen := rest - {n}, seen + {n};
      }
      forall t | t in tableID.Values ensures t in list {
        var n :| n in tableID && tableID[n] == t;
        assert n in seen;
      }
      assert forall t :: t in AsSet(list) <==> t in tableID.Values;
    }

    method SetupInformations(tableID: Tables, cfg: NodeConfig) returns (infos: Option<Tables>)
      ensures infos == Informed(base, Assign(tableID, Wanted(base, cfg)), cfg)
    {
      var names, ids := Wanted(base, cfg), tableID;
      for k := 0 to |names|
        invariant Assign(ids, names[k..]) == Assign(tableID, names)
      {
        assert names[k..][0] == names[k] && names[k..][1..] == names[k + 1..];
        if names[k] !in ids {
          var used := TablesInUse(ids);
          var free := FindFree(used);
          FreeFromIsLeast(ids.Values, START);
          if free.None? {
            return None;
          }
          ids := ids[names[k] := free.value];
        }
      }
      if base.cluster !in ids || base.management !in ids {
        return None;
      }
      return Some(map n | n in ids && n in Listed(base, cfg) :: ids[n]);
    }

    /** Layer3.setup: one VRF per information, in any order. */
    method MakeVRFs(infos: Tables) returns (r: Option<seq<VRF>>)
      ensures r.Some? <==> Short(infos.Keys)
      ensures r.Some? ==> TablesOf(r.value) == infos && DistinctNames(r.value)
    {
      var vrfs: seq<VRF> := [];
      var rest := infos.Keys;
      while rest != {}
        invariant rest <= infos.Keys && Short(infos.Keys - rest) && DistinctNames(vrfs)
        invariant TablesOf(vrfs) == map n | n in infos && n !in rest :: infos[n]
        invariant forall i :: 0 <= i < |vrfs| ==> vrfs[i].name in infos && vrfs[i].name !in rest
        decreases rest
      {
        assert exists n :: n in rest by { var n := Inhabitant(rest); }
        var n :| n in rest;
        if |n| > MAX_NAME {
          return None;
        }
        assert (vrfs + [VRF(n, infos[n])])[..|vrfs|] == vrfs;
        vrfs := vrfs + [VRF(n, infos[n])];
        rest := rest - {n};
      }
      return Some(vrfs);
    }

    /** Layer3.setup for the VRFs; the other layers can only fail. */
    method SetupLayers(cfg: NodeConfig) returns (r: Option<seq<VRF>>)
      ensures r.Some? ==> var seen := LookupNS(running, layout.work);
                          seen.Some? && DistinctNames(r.value) && Plan(base, TablesOf(seen.value), cfg) == Some(TablesOf(r.value))
    {
      var seen := FindNS(running, layout.work);
      if seen.None? {
        return None;
      }
      var tableID := SetupTableID(seen.value, cfg);
      var infos := SetupInformations(tableID, cfg);
      if infos.None? {
        return None;
      }
      r := MakeVRFs(infos.value);
      PlannedKeys(base, TablesOf(seen.value), cfg);
      var others: bool := *;
      return if others then r else None;
    }

    /** setupKPI, as far as the list of namespaces goes: the metrics namespace is added if it is not there. */
    method SetupKPI(nss: seq<Namespace>) returns (r: seq<Namespace>)
      ensures r == if layout.kpi == "" || LookupNS(nss, layout.kpi).Some? then nss else nss + [Namespace(layout.kpi, [])]
    {
      r := nss;
      if layout.kpi != "" {
        var found := FindNS(nss, layout.kpi);
        if found.None? {
          r := nss + [Namespace(layout.kpi, [])];
        }
      }
    }

    /** makeVRouter; vrfs is what the working namespace got. */
    method MakeVRouter(cfg: NodeConfig) returns (r: Option<seq<Namespace>>, ghost vrfs: seq<VRF>)
      ensures r.Some? ==>
                && r.value == Emitted(layout, vrfs) && DistinctNames(vrfs)
                && var seen := LookupNS(running, layout.work);
                   seen.Some? && Plan(base, TablesOf(seen.value), cfg) == Some(TablesOf(vrfs))
    {
      vrfs := [];
      var made := SetupLayers(cfg);
      if made.None? {
        return None, vrfs;
      }
      var nss := SetupKPI([]);
      return Some(nss + [Namespace(layout.work, made.value)]), made.value;
    }

    /** generated is what was sent to the device, committed or not. */
    method ApplyConfiguration(cfg: NodeConfig) returns (ok: bool, ghost generated: Option<seq<VRF>>)
      modifies this
      ensures !ok ==> running == old(running)
      ensures ok ==> generated.Some? && running == Emitted(layout, generated.value)
      ensures generated.Some? ==> DistinctNames(generated.value)
      ensures var seen := old(LookupNS(running, layout.work));
              && (generated.Some? ==> seen.Some? && Plan(base, TablesOf(seen.value), cfg) == Some(TablesOf(generated.value)))
              && (seen.Some? ==>
                    var now := LookupNS(running, layout.work);
                    now.Some? && TablesOf(now.value) == Next(base, layout, TablesOf(seen.value), Attempt(cfg, ok)))
      ensures ok ==> (LookupNS(running, layout.work) == generated <==> layout.kpi == "" || layout.kpi != layout.work)
    {
      generated := None;
      ok := *; // edit: replace the candidate by the startup configuration
      if !ok {
        return;
      }
      var vrouter;
      ghost var vrfs;
      vrouter, vrfs := MakeVRouter(cfg);
      if vrouter.None? {
        return false, generated;
      }
      generated := Some(vrfs);
      ok := *; // edit: merge
      if !ok {
        return;
      }
      ok := *; // commit
      if !ok {
        return;
      }
      running := vrouter.value;
      LookupEmitted(layout, vrfs);
      PlanNotEmpty(base, TablesOf(LookupNS(old(running), layout.work).value), cfg, vrfs);
    }
  }

  /** A generated configuration has the reserved VRFs at least. */
  lemma PlanNotEmpty(base: Base, seen: Tables, cfg: NodeConfig, vrfs: seq<VRF>)
    requires Plan(base, seen, cfg) == Some(TablesOf(vrfs))
    ensures vrfs != []
  {
    PlanIsSound(base, seen, cfg);
    assert base.cluster in TablesOf(vrfs);
  }

  lemma PlannedKeys(base: Base, running: Tables, cfg: NodeConfig)
    ensures var infos := Informed(base, Assign(Kept(base, running, cfg), Wanted(base, cfg)), cfg);
            infos.Some? ==> infos.value.Keys == Listed(base, cfg)
  {
    var kept, wanted := Kept(base, running, cfg), Wanted(base, cfg);
    if Assign(kept, wanted).Some? {
      AssignExtends(kept, wanted);
      assert forall n :: n in Listed(base, cfg) ==> base.Reserved(n) || n in wanted;
    }
  }
}
