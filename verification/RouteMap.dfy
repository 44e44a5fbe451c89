/**
 Compiling a BGP filter into prefix lists, community lists and a route-map (pkg/cra-vsr/layerbgp.go), and
 what the compiled route-map does to a route compared with the filter it came from.
 */
module RouteMap {
  import opened Text

  // ---- Filters and routes ----

  datatype Prefix = Prefix(v6: bool, bits: seq<bool>)
  datatype PrefixMatcher = PrefixMatcher(prefix: Prefix, ge: Option<nat>, le: Option<nat>)
  datatype CommunityMatcher = CommunityMatcher(community: string, exact: bool)
  datatype Modify = Modify(add: seq<string>, additive: Option<bool>, remove: seq<string>, removeAll: Option<bool>)
  datatype ActionType = Accept | Reject | Next
  datatype Action = Action(kind: ActionType, change: Option<Modify>)
  datatype Item = Item(prefix: Option<PrefixMatcher>, community: Option<CommunityMatcher>, action: Action)
  datatype Filter = Filter(items: seq<Item>, default: Action)

  /** source is the VRF a route is imported from. */
  datatype Route = Route(prefix: Prefix, communities: set<string>, source: string)
  datatype Verdict = Accepted(communities: set<string>) | Rejected

  /** Prefix list semantics: the length is the prefix's own unless ge or le widens it. */
  predicate InRange(m: PrefixMatcher, p: Prefix) {
    && p.v6 == m.prefix.v6 && m.prefix.bits <= p.bits
    && (if m.ge.None? && m.le.None? then |p.bits| == |m.prefix.bits|
        else (m.ge.Some? ==> m.ge.value <= |p.bits|) && (m.le.Some? ==> |p.bits| <= m.le.value))
  }

  function SetOf(s: seq<string>): set<string> {
    set x | x in s
  }

  /** What a modification asks for: removals first, then additions; additions replace unless flagged additive. */
  function Meaning(m: Modify, communities: set<string>): set<string> {
    var kept := (if m.removeAll == Some(true) then {} else communities) - SetOf(m.remove);
    if m.add == [] then kept
    else if m.additive == Some(true) then kept + SetOf(m.add)
    else SetOf(m.add)
  }

  function MeaningOf(a: Action, communities: set<string>): set<string> {
    if a.change.None? then communities else Meaning(a.change.value, communities)
  }

  predicate ItemMatches(item: Item, r: Route) {
    && (item.prefix.Some? ==> InRange(item.prefix.value, r.prefix))
    && (item.community.Some? ==>
          if item.community.value.exact then r.communities == {item.community.value.community}
          else item.community.value.community in r.communities)
  }

  /** The items in order; the first that matches decides, and next goes on with the modified route. */
  function FilterVerdict(items: seq<Item>, default: Action, r: Route): Verdict {
    if items == [] then
      if default.kind == Accept then Accepted(MeaningOf(default, r.communities)) else Rejected
    else if !ItemMatches(items[0], r) then FilterVerdict(items[1..], default, r)
    else
      var after := MeaningOf(items[0].action, r.communities);
      match items[0].action.kind
      case Accept => Accepted(after)
      case Reject => Rejected
      case Next => FilterVerdict(items[1..], default, r.(communities := after))
  }

  // ---- The emitted configuration ----

  datatype Policy = Permit | Deny
  datatype Named<T> = Named(name: string, seqs: seq<T>)
  datatype PrefixSeq = PrefixSeq(policy: Policy, matcher: PrefixMatcher)
  datatype CommunitySeq = CommunitySeq(policy: Policy, attrs: seq<string>)
  datatype Set = Keep | Add(attrs: seq<string>) | Replace(attrs: seq<string>) | DeleteList(list: string) | Clear
  datatype MapSeq = MapSeq(num: int, policy: Policy, prefix4: Option<string>, prefix6: Option<string>,
                           community: Option<string>, source: Option<string>, set_: Set, next: bool, call: Option<string>)

  datatype Routing = Routing(prefix4: seq<Named<PrefixSeq>>, prefix6: seq<Named<PrefixSeq>>,
                             communities: seq<Named<CommunitySeq>>, maps: seq<Named<MapSeq>>)

  /** The first entry with the name, or the length. */
  function Find<T>(ls: seq<Named<T>>, name: string): (k: nat)
    ensures k <= |ls|
    ensures k < |ls| ==> ls[k].name == name
    ensures forall j :: 0 <= j < k ==> ls[j].name != name
  {
    if ls == [] || ls[0].name == name then 0 else 1 + Find(ls[1..], name)
  }

  function Lookup<T>(ls: seq<Named<T>>, name: string): Option<seq<T>> {
    var k := Find(ls, name);
    if k < |ls| then Some(ls[k].seqs) else None
  }

  /** The policy of the first entry the route meets; nothing matches a list that is not there. */
  predicate PrefixPermits(seqs: Option<seq<PrefixSeq>>, p: Prefix) {
    seqs.Some? && FirstPermits(seqs.value, p)
  }

  predicate FirstPermits(seqs: seq<PrefixSeq>, p: Prefix) {
    seqs != [] && (if InRange(seqs[0].matcher, p) then seqs[0].policy == Permit else FirstPermits(seqs[1..], p))
  }

  /** A community list entry is met by a route that carries all its communities. */
  predicate CommunityPermits(seqs: Option<seq<CommunitySeq>>, communities: set<string>) {
    seqs.Some? && FirstAllows(seqs.value, communities)
  }

  predicate FirstAllows(seqs: seq<CommunitySeq>, communities: set<string>) {
    seqs != [] && (if SetOf(seqs[0].attrs) <= communities then seqs[0].policy == Permit else FirstAllows(seqs[1..], communities))
  }

  predicate SeqMatches(cfg: Routing, s: MapSeq, r: Route) {
    && (s.prefix4.Some? ==> !r.prefix.v6 && PrefixPermits(Lookup(cfg.prefix4, s.prefix4.value), r.prefix))
    && (s.prefix6.Some? ==> r.prefix.v6 && PrefixPermits(Lookup(cfg.prefix6, s.prefix6.value), r.prefix))
    && (s.community.Some? ==> CommunityPermits(Lookup(cfg.communities, s.community.value), r.communities))
    && (s.source.Some? ==> r.source == s.source.value)
  }

  /** comm-list delete drops each community that one of the list's entries names. */
  function Listed(seqs: Option<seq<CommunitySeq>>): set<string> {
    if seqs.None? then {} else set s, x | s in seqs.value && x in s.attrs :: x
  }

  function Applied(cfg: Routing, s: Set, communities: set<string>): set<string> {
    match s
    case Keep => communities
    case Add(attrs) => communities + SetOf(attrs)
    case Replace(attrs) => SetOf(attrs)
    case DeleteList(list) => communities - Listed(Lookup(cfg.communities, list))
    case Clear => {}
  }

  /** The entries in order; a route no entry matches is rejected, and so is one that a called map rejects. */
  function Eval(cfg: Routing, depth: nat, seqs: seq<MapSeq>, r: Route): Verdict
    decreases depth, |seqs|
  {
    if seqs == [] then Rejected
    else if !SeqMatches(cfg, seqs[0], r) then Eval(cfg, depth, seqs[1..], r)
    else if seqs[0].policy == Deny then Rejected
    else
      var v := Called(cfg, depth, seqs[0].call, r.(communities := Applied(cfg, seqs[0].set_, r.communities)));
      if v.Rejected? || !seqs[0].next then v else Eval(cfg, depth, seqs[1..], r.(communities := v.communities))
  }

  /** A call that is absent or leads nowhere accepts; calls nested too deeply reject. */
  function Called(cfg: Routing, depth: nat, call: Option<string>, r: Route): Verdict
    decreases depth, 0
  {
    if call.None? || Lookup(cfg.maps, call.value).None? then Accepted(r.communities)
    else if depth == 0 then Rejected
    else Eval(cfg, depth - 1, Lookup(cfg.maps, call.value).value, r)
  }

  /** How deeply the device lets maps call each other. */
  const CALL_DEPTH: nat := 10

  function MapVerdict(cfg: Routing, seqs: seq<MapSeq>, r: Route): Verdict {
    Eval(cfg, CALL_DEPTH, seqs, r)
  }

  function NamedVerdict(cfg: Routing, name: string, r: Route): Verdict {
    var seqs := Lookup(cfg.maps, name);
    if seqs.None? then Rejected else MapVerdict(cfg, seqs.value, r)
  }

  // ---- Compilation ----

  function PolicyOf(a: Action): Policy {
    if a.kind == Accept then Permit else Deny
  }

  function MapName(name: string): string { "rm_" + name }
  function PrefixListName(name: string, i: nat): string { "pl_" + name + "_" + Digits(i) }
  function MatchListName(name: string, i: nat): string { "cm_" + name + "_" + Digits(i) }
  function RemoveListName(name: string, i: nat): string { "cm_remove_" + name + "_" + Digits(i) }

  /** The set clause; flags count as set when they are present, whatever they say. */
  function SetClause(name: string, i: nat, a: Action): Set {
    if a.change.None? then Keep
    else
      var m := a.change.value;
      if m.add != [] then (if m.additive.Some? then Add(m.add) else Replace(m.add))
      else if m.remove != [] then DeleteList(RemoveListName(name, i))
      else if m.removeAll.Some? then Clear
      else Keep
  }

  function ItemSeq(name: string, i: nat, item: Item): MapSeq {
    var v6 := item.prefix.Some? && item.prefix.value.prefix.v6;
    MapSeq(i + 10, PolicyOf(item.action),
           if item.prefix.Some? && !v6 then Some(PrefixListName(name, i)) else None,
           if item.prefix.Some? && v6 then Some(PrefixListName(name, i)) else None,
           if item.community.Some? then Some(MatchListName(name, i)) else None,
           None, SetClause(name, i, item.action),
           item.action.change.Some? && item.action.kind == Next, None)
  }

  function DefaultSeq(f: Filter): MapSeq {
    MapSeq(|f.items| + 10, PolicyOf(f.default), None, None, None, None, Keep, false, None)
  }

  /** mkPrefixList and mkRouteMap: entries for a known name are appended to it. */
  function Appended<T>(ls: seq<Named<T>>, name: string, seqs: seq<T>): seq<Named<T>> {
    var k := Find(ls, name);
    if k < |ls| then ls[k := Named(name, ls[k].seqs + seqs)] else ls + [Named(name, seqs)]
  }

  /** mkCommunityList: entries for a known name go to a copy and are lost. */
  function AddedOnce<T>(ls: seq<Named<T>>, name: string, seqs: seq<T>): seq<Named<T>> {
    if Find(ls, name) < |ls| then ls else ls + [Named(name, seqs)]
  }

  function WithPrefixList(cfg: Routing, v6: bool, name: string, s: PrefixSeq): Routing {
    if v6 then cfg.(prefix6 := Appended(cfg.prefix6, name, [s])) else cfg.(prefix4 := Appended(cfg.prefix4, name, [s]))
  }

  function WithCommunityList(cfg: Routing, name: string, s: CommunitySeq): Routing {
    cfg.(communities := AddedOnce(cfg.communities, name, [s]))
  }

  function WithMapSeq(cfg: Routing, name: string, s: MapSeq): Routing {
    cfg.(maps := Appended(cfg.maps, name, [s]))
  }

  function WithItemPrefix(cfg: Routing, name: string, i: nat, item: Item): Routing {
    if item.prefix.None? then cfg
    else WithPrefixList(cfg, item.prefix.value.prefix.v6, PrefixListName(name, i), PrefixSeq(Permit, item.prefix.value))
  }

  function WithItemMatch(cfg: Routing, name: string, i: nat, item: Item): Routing {
    if item.community.None? then cfg
    else WithCommunityList(cfg, MatchListName(name, i), CommunitySeq(Permit, [item.community.value.community]))
  }

  function WithItemRemoval(cfg: Routing, name: string, i: nat, item: Item): Routing {
    if SetClause(name, i, item.action).DeleteList?
    then WithCommunityList(cfg, RemoveListName(name, i), CommunitySeq(Permit, item.action.change.value.remove))
    else cfg
  }

  /** What setupRouteMap does to the configuration. */
  function WithItem(cfg: Routing, name: string, i: nat, item: Item): Routing {
    var lists := WithItemRemoval(WithItemMatch(WithItemPrefix(cfg, name, i, item), name, i, item), name, i, item);
    WithMapSeq(lists, MapName(name), ItemSeq(name, i, item))
  }

  function WithItems(cfg: Routing, name: string, items: seq<Item>): Routing {
    if items == [] then cfg
    else
      var n := |items| - 1;
      WithItem(WithItems(cfg, name, items[..n]), name, n, items[n])
  }

  /** What setupRouteMaps does to the configuration. */
  function WithFilter(cfg: Routing, name: string, f: Filter): Routing {
    WithMapSeq(WithItems(cfg, name, f.items), MapName(name), DefaultSeq(f))
  }

  // ---- VRF imports ----

  const IMPORT := "_import_"

  /** The name of the map setupVRFImport sets up for one import, and that its entry calls. */
  function ImportName(vrf: string, from: string): string {
    vrf + IMPORT + from
  }

  /** The map that picks, by source VRF, which of a VRF's imports decides. */
  function SelectorName(vrf: string): string {
    vrf + "_import"
  }

  /** i is the position among the imports of the VRF. */
  datatype Import = Import(vrf: string, i: nat, from: string, filter: Filter) {
    function Calls(): string {
      ImportName(vrf, from)
    }

    function Selects(): string {
      MapName(SelectorName(vrf))
    }

    function Selector(): MapSeq {
      MapSeq(i + 10, Permit, None, None, None, Some(from), Keep, false, Some(MapName(Calls())))
    }
  }

  /** What setupVRFImport does to the configuration. */
  function WithImport(cfg: Routing, m: Import): Routing {
    WithFilter(WithMapSeq(cfg, m.Selects(), m.Selector()), m.Calls(), m.filter)
  }

  /** One of the calls setup makes while it visits the VRFs: a filter under a name of its own, or an import. */
  datatype Step = OneFilter(own: string, f: Filter) | OneImport(m: Import) {
    function Name(): string {
      if OneFilter? then own else m.Calls()
    }

    function Filter(): Filter {
      if OneFilter? then f else m.filter
    }
  }

  function WithStep(cfg: Routing, s: Step): Routing {
    match s
    case OneFilter(own, f) => WithFilter(cfg, own, f)
    case OneImport(m) => WithImport(cfg, m)
  }

  function WithSteps(cfg: Routing, steps: seq<Step>): Routing {
    if steps == [] then cfg
    else
      var n := |steps| - 1;
      WithStep(WithSteps(cfg, steps[..n]), steps[n])
  }

  class LayerBGP {
    var routing: Routing

    constructor (r: Routing)
      ensures routing == r
    {
      routing := r;
    }

    method MkPrefixList(v6: bool, name: string, s: PrefixSeq)
      modifies this
      ensures routing == WithPrefixList(old(routing), v6, name, s)
    {
      var list := if v6 then routing.prefix6 else routing.prefix4;
      var k := 0;
      while k < |list| && list[k].name != name
        invariant 0 <= k <= |list| && forall j :: 0 <= j < k ==> list[j].name != name
      {
        k := k + 1;
      }
      FindIs(list, name, k);
      list := if k < |list| then list[k := Named(name, list[k].seqs + [s])] else list + [Named(name, [s])];
      if v6 {
        routing := routing.(prefix6 := list);
      } else {
        routing := routing.(prefix4 := list);
      }
    }

    method MkRouteMap(name: string, s: MapSeq)
      modifies this
      ensures routing == WithMapSeq(old(routing), name, s)
    {
      var k := 0;
      while k < |routing.maps| && routing.maps[k].name != name
        invariant 0 <= k <= |routing.maps| && forall j :: 0 <= j < k ==> routing.maps[j].name != name
      {
        k := k + 1;
      }
      FindIs(routing.maps, name, k);
      if k < |routing.maps| {
        routing := routing.(maps := routing.maps[k := Named(name, routing.maps[k].seqs + [s])]);
      } else {
        routing := routing.(maps := routing.maps + [Named(name, [s])]);
      }
    }

    method MkCommunityList(name: string, s: CommunitySeq)
      modifies this
      ensures routing == WithCommunityList(old(routing), name, s)
    {
      var k := 0;
      while k < |routing.communities|
        invariant 0 <= k <= |routing.communities| && forall j :: 0 <= j < k ==> routing.communities[j].name != name
      {
        var copy := routing.communities[k];
        if copy.name == name {
          FindIs(routing.communities, name, k);
          copy := copy.(seqs := copy.seqs + [s]);
          return;
        }
        k := k + 1;
      }
      FindIs(routing.communities, name, k);
      routing := routing.(communities := routing.communities + [Named(name, [s])]);
    }

    method SetupRouteMap(name: string, i: nat, item: Item)
      modifies this
      ensures routing == WithItem(old(routing), name, i, item)
    {
      if item.prefix.Some? {
        MkPrefixList(item.prefix.value.prefix.v6, PrefixListName(name, i), PrefixSeq(Permit, item.prefix.value));
      }
      if item.community.Some? {
        MkCommunityList(MatchListName(name, i), CommunitySeq(Permit, [item.community.value.community]));
      }
      if item.action.change.Some? && item.action.change.value.add == [] && item.action.change.value.remove != [] {
        MkCommunityList(RemoveListName(name, i), CommunitySeq(Permit, item.action.change.value.remove));
      }
      MkRouteMap(MapName(name), ItemSeq(name, i, item));
    }

    method SetupRouteMaps(name: string, f: Filter)
      modifies this
      ensures routing == WithFilter(old(routing), name, f)
    {
      for i := 0 to |f.items|
        invariant routing == WithItems(old(routing), name, f.items[..i])
      {
        assert f.items[..i + 1][..i] == f.items[..i];
        SetupRouteMap(name, i, f.items[i]);
      }
      assert f.items[..|f.items|] == f.items;
      MkRouteMap(MapName(name), DefaultSeq(f));
    }

    /** setupVRFImport: the selector goes to the VRF's own map, the filter to the map it calls. */
    method SetupVRFImport(m: Import)
      modifies this
      ensures routing == WithImport(old(routing), m)
    {
      MkRouteMap(m.Selects(), m.Selector());
      SetupRouteMaps(m.Calls(), m.filter);
    }

    /** The calls setup makes, in whatever order it visits the VRFs. */
    method SetupAll(steps: seq<Step>)
      modifies this
      ensures routing == WithSteps(old(routing), steps)
    {
      for i := 0 to |steps|
        invariant routing == WithSteps(old(routing), steps[..i])
      {
        assert steps[..i + 1][..i] == steps[..i];
        match steps[i] {
          case OneFilter(own, f) => SetupRouteMaps(own, f);
          case OneImport(m) => SetupVRFImport(m);
        }
      }
      assert steps[..|steps|] == steps;
    }
  }

  lemma FindIs<T>(ls: seq<Named<T>>, name: string, k: nat)
    requires k <= |ls| && (k < |ls| ==> ls[k].name == name) && forall j :: 0 <= j < k ==> ls[j].name != name
    ensures Find(ls, name) == k
  {
  }

  // ---- Lookups ----

  lemma LookupAppended<T>(ls: seq<Named<T>>, name: string, seqs: seq<T>, other: string)
    ensures Lookup(Appended(ls, name, seqs), other) ==
            if other != name then Lookup(ls, other)
            else if Lookup(ls, name).Some? then Some(Lookup(ls, name).value + seqs) else Some(seqs)
  {
    var after := Appended(ls, name, seqs);
    var k := Find(ls, other);
    if k < |ls| {
      FindIs(after, other, k);
    } else if other == name {
      FindIs(after, other, |ls|);
    } else {
      FindIs(after, other, |after|);
    }
  }

  lemma LookupAddedOnce<T>(ls: seq<Named<T>>, name: string, seqs: seq<T>, other: string)
    ensures Lookup(AddedOnce(ls, name, seqs), other) ==
            if other == name && Lookup(ls, name).None? then Some(seqs) else Lookup(ls, other)
  {
    LookupAppended(ls, name, seqs, other);
  }

  // ---- Names ----

  /** The last underscore is the one before the digits. */
  lemma LastUnderscore(a: string, i: nat)
    ensures (a + "_" + Digits(i))[|a|] == '_'
    ensures forall p :: |a| < p < |a + "_" + Digits(i)| ==> (a + "_" + Digits(i))[p] != '_'
  {
    var s := a + "_" + Digits(i);
    forall p | |a| < p < |s| ensures s[p] != '_' {
      assert s[p] == Digits(i)[p - |a| - 1];
    }
  }

  lemma TailInjective(a: string, i: nat, b: string, j: nat)
    requires a + "_" + Digits(i) == b + "_" + Digits(j)
    ensures a == b && i == j
  {
    var s, t := a + "_" + Digits(i), b + "_" + Digits(j);
    LastUnderscore(a, i);
    LastUnderscore(b, j);
    assert s[|b|] == t[|b|] && s[|a|] == t[|a|];
    assert a == s[..|a|] == t[..|b|] == b;
    assert Digits(i) == s[|a| + 1..] == t[|b| + 1..] == Digits(j);
    DigitsRoundTrip(i);
    DigitsRoundTrip(j);
  }

  lemma PrefixInjective(tag: string, n: string, m: string)
    requires tag + n == tag + m
    ensures n == m
  {
    assert n == (tag + n)[|tag|..];
    assert m == (tag + m)[|tag|..];
  }

  /** A list name determines its map and index. */
  lemma NamesInjective(n: string, i: nat, m: string, j: nat)
    ensures PrefixListName(n, i) == PrefixListName(m, j) ==> n == m && i == j
    ensures MatchListName(n, i) == MatchListName(m, j) ==> n == m && i == j
    ensures RemoveListName(n, i) == RemoveListName(m, j) ==> n == m && i == j
    ensures MapName(n) == MapName(m) ==> n == m
  {
    if PrefixListName(n, i) == PrefixListName(m, j) {
      TailInjective("pl_" + n, i, "pl_" + m, j);
      PrefixInjective("pl_", n, m);
    }
    if MatchListName(n, i) == MatchListName(m, j) {
      TailInjective("cm_" + n, i, "cm_" + m, j);
      PrefixInjective("cm_", n, m);
    }
    if RemoveListName(n, i) == RemoveListName(m, j) {
      TailInjective("cm_remove_" + n, i, "cm_remove_" + m, j);
      PrefixInjective("cm_remove_", n, m);
    }
    if MapName(n) == MapName(m) {
      PrefixInjective("rm_", n, m);
    }
  }

  /** A match list and a removal list share a name exactly when one map's name is the other's behind remove_. */
  lemma KindsCollide(n: string, i: nat, m: string, j: nat)
    ensures MatchListName(n, i) == RemoveListName(m, j) <==> n == "remove_" + m && i == j
  {
    if MatchListName(n, i) == RemoveListName(m, j) {
      TailInjective("cm_" + n, i, "cm_remove_" + m, j);
      assert "cm_remove_" + m == "cm_" + ("remove_" + m);
      PrefixInjective("cm_", n, "remove_" + m);
    }
    if n == "remove_" + m && i == j {
      assert "cm_" + ("remove_" + m) == "cm_remove_" + m;
    }
  }

  /** Neither name is the other behind remove_. */
  predicate Apart(n: string, m: string) {
    n != "remove_" + m && m != "remove_" + n
  }

  // ---- What one item leaves behind ----

  /** The lists an item's entry refers to hold exactly what the item says. */
  predicate Resolves(cfg: Routing, name: string, i: nat, item: Item) {
    && (item.prefix.Some? ==>
          Lookup(if item.prefix.value.prefix.v6 then cfg.prefix6 else cfg.prefix4, PrefixListName(name, i))
          == Some([PrefixSeq(Permit, item.prefix.value)]))
    && (item.community.Some? ==>
          Lookup(cfg.communities, MatchListName(name, i)) == Some([CommunitySeq(Permit, [item.community.value.community])]))
    && (SetClause(name, i, item.action).DeleteList? ==>
          Lookup(cfg.communities, RemoveListName(name, i)) == Some([CommunitySeq(Permit, item.action.change.value.remove)]))
  }

  predicate Vacant(cfg: Routing, name: string, i: nat) {
    && Lookup(cfg.prefix4, PrefixListName(name, i)).None? && Lookup(cfg.prefix6, PrefixListName(name, i)).None?
    && Lookup(cfg.communities, MatchListName(name, i)).None? && Lookup(cfg.communities, RemoveListName(name, i)).None?
  }

  predicate SameLists(a: Routing, b: Routing, name: string, i: nat) {
    && Lookup(a.prefix4, PrefixListName(name, i)) == Lookup(b.prefix4, PrefixListName(name, i))
    && Lookup(a.prefix6, PrefixListName(name, i)) == Lookup(b.prefix6, PrefixListName(name, i))
    && Lookup(a.communities, MatchListName(name, i)) == Lookup(b.communities, MatchListName(name, i))
    && Lookup(a.communities, RemoveListName(name, i)) == Lookup(b.communities, RemoveListName(name, i))
  }

  lemma PrefixElsewhere(cfg: Routing, name: string, i: nat, item: Item, q: string)
    requires q != PrefixListName(name, i)
    ensures var n := WithItem(cfg, name, i, item);
            Lookup(n.prefix4, q) == Lookup(cfg.prefix4, q) && Lookup(n.prefix6, q) == Lookup(cfg.prefix6, q)
  {
    if item.prefix.Some? {
      var seqs := [PrefixSeq(Permit, item.prefix.value)];
      LookupAppended(cfg.prefix4, PrefixListName(name, i), seqs, q);
      LookupAppended(cfg.prefix6, PrefixListName(name, i), seqs, q);
    }
  }

  lemma CommunityElsewhere(cfg: Routing, name: string, i: nat, item: Item, q: string)
    requires q != MatchListName(name, i) && q != RemoveListName(name, i)
    ensures Lookup(WithItem(cfg, name, i, item).communities, q) == Lookup(cfg.communities, q)
  {
    var a := WithItemMatch(WithItemPrefix(cfg, name, i, item), name, i, item);
    if item.community.Some? {
      LookupAddedOnce(cfg.communities, MatchListName(name, i), [CommunitySeq(Permit, [item.community.value.community])], q);
    }
    if SetClause(name, i, item.action).DeleteList? {
      LookupAddedOnce(a.communities, RemoveListName(name, i), [CommunitySeq(Permit, item.action.change.value.remove)], q);
    }
  }

  lemma ItemElsewhere(cfg: Routing, name: string, i: nat, item: Item, other: string, k: nat)
    requires Apart(other, name) && (other != name || k != i)
    ensures SameLists(cfg, WithItem(cfg, name, i, item), other, k)
  {
    NamesInjective(other, k, name, i);
    KindsCollide(other, k, name, i);
    KindsCollide(name, i, other, k);
    hide WithItem;
    hide PrefixListName;
    hide MatchListName;
    hide RemoveListName;
    PrefixElsewhere(cfg, name, i, item, PrefixListName(other, k));
    CommunityElsewhere(cfg, name, i, item, MatchListName(other, k));
    CommunityElsewhere(cfg, name, i, item, RemoveListName(other, k));
  }

  lemma ItemResolves(cfg: Routing, name: string, i: nat, item: Item)
    requires Vacant(cfg, name, i)
    ensures Resolves(WithItem(cfg, name, i, item), name, i, item)
  {
    KindsCollide(name, i, name, i);
    assert name != "remove_" + name by { assert |name| != |"remove_" + name|; }
    hide PrefixListName;
    hide MatchListName;
    hide RemoveListName;
    hide Find;
    hide Lookup;
    hide Appended;
    hide AddedOnce;
    if item.prefix.Some? {
      var seqs := [PrefixSeq(Permit, item.prefix.value)];
      LookupAppended(cfg.prefix4, PrefixListName(name, i), seqs, PrefixListName(name, i));
      LookupAppended(cfg.prefix6, PrefixListName(name, i), seqs, PrefixListName(name, i));
    }
    var a := WithItemMatch(WithItemPrefix(cfg, name, i, item), name, i, item);
    if item.community.Some? {
      var seqs := [CommunitySeq(Permit, [item.community.value.community])];
      LookupAddedOnce(cfg.communities, MatchListName(name, i), seqs, MatchListName(name, i));
      LookupAddedOnce(cfg.communities, MatchListName(name, i), seqs, RemoveListName(name, i));
    }
    if SetClause(name, i, item.action).DeleteList? {
      var seqs := [CommunitySeq(Permit, item.action.change.value.remove)];
      LookupAddedOnce(a.communities, RemoveListName(name, i), seqs, MatchListName(name, i));
      LookupAddedOnce(a.communities, RemoveListName(name, i), seqs, RemoveListName(name, i));
    }
  }

  lemma MapOf(cfg: Routing, name: string, i: nat, item: Item, q: string)
    ensures Lookup(WithItem(cfg, name, i, item).maps, q) ==
            if q != MapName(name) then Lookup(cfg.maps, q)
            else if Lookup(cfg.maps, q).Some? then Some(Lookup(cfg.maps, q).value + [ItemSeq(name, i, item)])
            else Some([ItemSeq(name, i, item)])
  {
    LookupAppended(cfg.maps, MapName(name), [ItemSeq(name, i, item)], q);
  }

  // ---- A whole filter ----

  function Seqs(name: string, items: seq<Item>): seq<MapSeq> {
    seq(|items|, i requires 0 <= i < |items| => ItemSeq(name, i, items[i]))
  }

  /** Nothing carries the names a map would use. */
  ghost predicate FreshFor(cfg: Routing, name: string) {
    Lookup(cfg.maps, MapName(name)).None? && forall k: nat :: Vacant(cfg, name, k)
  }

  ghost predicate ItemsLaid(cfg: Routing, name: string, items: seq<Item>) {
    && Lookup(cfg.maps, MapName(name)) == (if items == [] then None else Some(Seqs(name, items)))
    && (forall k: nat :: k < |items| ==> Resolves(cfg, name, k, items[k]))
    && (forall k: nat :: k >= |items| ==> Vacant(cfg, name, k))
  }

  lemma ItemsLaidStep(cfg: Routing, name: string, items: seq<Item>, item: Item)
    requires ItemsLaid(cfg, name, items)
    ensures ItemsLaid(WithItem(cfg, name, |items|, item), name, items + [item])
  {
    var n, after := |items|, WithItem(cfg, name, |items|, item);
    assert Apart(name, name) by { assert |name| != |"remove_" + name|; }
    MapOf(cfg, name, n, item, MapName(name));
    assert Seqs(name, items + [item]) == Seqs(name, items) + [ItemSeq(name, n, item)];
    assert items == [] ==> Seqs(name, items + [item]) == [ItemSeq(name, n, item)];
    assert Lookup(after.maps, MapName(name)) == Some(Seqs(name, items + [item]));
    ItemResolves(cfg, name, n, item);
    forall k: nat | k != n ensures SameLists(cfg, after, name, k) {
      ItemElsewhere(cfg, name, n, item, name, k);
    }
    hide WithItem;
    hide Lookup;
    forall k: nat | k < n + 1 ensures Resolves(after, name, k, (items + [item])[k]) {
      if k < n {
        assert SameLists(cfg, after, name, k) && Resolves(cfg, name, k, items[k]);
      }
    }
    forall k: nat | k >= n + 1 ensures Vacant(after, name, k) {
      assert SameLists(cfg, after, name, k) && Vacant(cfg, name, k);
    }
  }

  lemma {:induction false} ItemsAreLaid(cfg: Routing, name: string, items: seq<Item>)
    requires FreshFor(cfg, name)
    ensures ItemsLaid(WithItems(cfg, name, items), name, items)
  {
    hide WithItem;
    hide Lookup;
    if items != [] {
      var n := |items| - 1;
      ItemsAreLaid(cfg, name, items[..n]);
      ItemsLaidStep(WithItems(cfg, name, items[..n]), name, items[..n], items[n]);
      assert items[..n] + [items[n]] == items;
    }
  }

  /** The map and its lists are in the configuration. */
  ghost predicate Ready(cfg: Routing, name: string, f: Filter) {
    && Lookup(cfg.maps, MapName(name)) == Some(Seqs(name, f.items) + [DefaultSeq(f)])
    && ListsReady(cfg, name, f)
  }

  ghost predicate ListsReady(cfg: Routing, name: string, f: Filter) {
    forall k: nat :: k < |f.items| ==> Resolves(cfg, name, k, f.items[k])
  }

  lemma FilterIsReady(cfg: Routing, name: string, f: Filter)
    requires FreshFor(cfg, name)
    ensures Ready(WithFilter(cfg, name, f), name, f)
  {
    ItemsAreLaid(cfg, name, f.items);
    var laid := WithItems(cfg, name, f.items);
    LookupAppended(laid.maps, MapName(name), [DefaultSeq(f)], MapName(name));
    assert f.items == [] ==> Seqs(name, f.items) + [DefaultSeq(f)] == [DefaultSeq(f)];
    hide Lookup;
    hide Appended;
    forall k: nat | k < |f.items| ensures Resolves(WithFilter(cfg, name, f), name, k, f.items[k]) {
      assert Resolves(laid, name, k, f.items[k]);
    }
  }

  // ---- When the route-map means the filter ----

  /** Modifications whose set clause does what they ask for. */
  predicate Carried(m: Modify) {
    if m.add != [] then
      m.additive.None? || (m.additive == Some(true) && m.removeAll != Some(true) && SetOf(m.remove) <= SetOf(m.add))
    else if m.remove != [] then m.removeAll != Some(true)
    else m.removeAll != Some(false)
  }

  function Letters(n: nat): (s: string)
    ensures |s| == n
  {
    seq(n, i => 'c')
  }

  function Longest(s: seq<string>): (n: nat)
    ensures forall x :: x in s ==> |x| <= n
  {
    if s == [] then 0
    else
      var n := Longest(s[1..]);
      if |s[0]| > n then |s[0]| else n
  }

  /** A community on no list. */
  lemma Unlisted(m: Modify) returns (c: string)
    ensures c !in m.add && c !in m.remove
  {
    c := Letters(1 + Longest(m.add) + Longest(m.remove));
  }

  lemma Removes(cfg: Routing, name: string, i: nat, item: Item, communities: set<string>)
    requires Resolves(cfg, name, i, item) && SetClause(name, i, item.action).DeleteList?
    ensures Applied(cfg, SetClause(name, i, item.action), communities) == communities - SetOf(item.action.change.value.remove)
  {
    hide RemoveListName;
    hide MatchListName;
    hide PrefixListName;
    hide Lookup;
    var seqs := [CommunitySeq(Permit, item.action.change.value.remove)];
    assert seqs[0] in seqs;
    assert Listed(Some(seqs)) == SetOf(item.action.change.value.remove);
  }

  /** The set clause has the asked effect on every community set exactly when the modification is carried. */
  lemma CarriedIff(cfg: Routing, name: string, i: nat, item: Item)
    requires Resolves(cfg, name, i, item) && item.action.change.Some?
    ensures Carried(item.action.change.value) <==>
            forall cs :: Applied(cfg, SetClause(name, i, item.action), cs) == Meaning(item.action.change.value, cs)
  {
    var m, clause := item.action.change.value, SetClause(name, i, item.action);
    forall cs ensures clause.DeleteList? ==> Applied(cfg, clause, cs) == cs - SetOf(m.remove) {
      if clause.DeleteList? {
        Removes(cfg, name, i, item, cs);
      }
    }
    hide Lookup;
    hide RemoveListName;
    hide Resolves;
    if Carried(m) {
      forall cs ensures Applied(cfg, clause, cs) == Meaning(m, cs) {
        CarriedApplies(cfg, clause, m, cs);
      }
    } else {
      var x := Telltale(m);
      NotCarried(cfg, clause, m, x, {x});
    }
  }

  /** x is a community on which a modification that is not carried shows. */
  predicate Tells(m: Modify, x: string) {
    if m.add != [] && m.additive == Some(true) && m.removeAll != Some(true) then x in m.remove && x !in m.add
    else x !in m.add && x !in m.remove
  }

  lemma Telltale(m: Modify) returns (x: string)
    requires !Carried(m)
    ensures Tells(m, x)
  {
    if m.add != [] && m.additive == Some(true) && m.removeAll != Some(true) {
      x :| x in SetOf(m.remove) && x !in SetOf(m.add);
    } else {
      x := Unlisted(m);
    }
  }

  predicate ClauseFor(s: Set, m: Modify) {
    if m.add != [] then s == (if m.additive.Some? then Add(m.add) else Replace(m.add))
    else if m.remove != [] then s.DeleteList?
    else s == (if m.removeAll.Some? then Clear else Keep)
  }

  lemma CarriedApplies(cfg: Routing, s: Set, m: Modify, cs: set<string>)
    requires ClauseFor(s, m) && Carried(m) && (s.DeleteList? ==> Applied(cfg, s, cs) == cs - SetOf(m.remove))
    ensures Applied(cfg, s, cs) == Meaning(m, cs)
  {
    hide Lookup;
    assert m.remove == [] ==> SetOf(m.remove) == {};
    if m.add != [] && m.additive == Some(true) {
      assert cs + SetOf(m.add) == (cs - SetOf(m.remove)) + SetOf(m.add);
    } else if m.add == [] && m.remove == [] {
      assert m.removeAll.Some? ==> m.removeAll == if m.removeAll.value then Some(true) else Some(false);
      assert s == if m.removeAll == Some(true) then Clear else Keep;
      var base: set<string> := if m.removeAll == Some(true) then {} else cs;
      assert base - SetOf(m.remove) == base;
      assert Meaning(m, cs) == base;
    }
  }

  /** Any community set with a telltale in it shows the difference. */
  lemma NotCarried(cfg: Routing, s: Set, m: Modify, x: string, cs: set<string>)
    requires ClauseFor(s, m) && !Carried(m) && (s.DeleteList? ==> Applied(cfg, s, cs) == cs - SetOf(m.remove))
    requires Tells(m, x) && x in cs
    ensures Applied(cfg, s, cs) != Meaning(m, cs)
  {
    hide Lookup;
    if m.add == [] && m.remove == [] {
      assert x in Meaning(m, cs);
    } else {
      assert x in Applied(cfg, s, cs) && x !in Meaning(m, cs);
    }
  }

  /** Items whose entry decides as they do: accept or reject, no exact match, and a carried modification. */
  predicate Faithful(item: Item) {
    && item.action.kind != Next
    && (item.community.Some? ==> !item.community.value.exact)
    && (item.action.kind == Accept && item.action.change.Some? ==> Carried(item.action.change.value))
  }

  /** A modification that changes no community set. */
  predicate Inert(m: Modify) {
    m.add == [] && m.remove == [] && m.removeAll != Some(true)
  }

  /** The default entry sets nothing, so an accepting default must ask for nothing. */
  predicate FaithfulDefault(d: Action) {
    d.kind == Accept && d.change.Some? ==> Inert(d.change.value)
  }

  predicate FaithfulFilter(f: Filter) {
    (forall k :: 0 <= k < |f.items| ==> Faithful(f.items[k])) && FaithfulDefault(f.default)
  }

  lemma SingleEntries(m: PrefixMatcher, p: Prefix, c: string, communities: set<string>)
    ensures PrefixPermits(Some([PrefixSeq(Permit, m)]), p) <==> InRange(m, p)
    ensures CommunityPermits(Some([CommunitySeq(Permit, [c])]), communities) <==> c in communities
  {
    var prefixes, lists := [PrefixSeq(Permit, m)], [CommunitySeq(Permit, [c])];
    assert SetOf([c]) == {c};
    assert prefixes[1..] == [] && lists[1..] == [];
    assert !FirstPermits(prefixes[1..], p) && !FirstAllows(lists[1..], communities);
  }

  /** The entry of an item matches like the item with its exact flag ignored. */
  predicate MatchesLoosely(item: Item, r: Route) {
    && (item.prefix.Some? ==> InRange(item.prefix.value, r.prefix))
    && (item.community.Some? ==> item.community.value.community in r.communities)
  }

  lemma EntryMatches(cfg: Routing, name: string, i: nat, item: Item, r: Route)
    requires Resolves(cfg, name, i, item)
    ensures SeqMatches(cfg, ItemSeq(name, i, item), r) <==> MatchesLoosely(item, r)
  {
    if item.prefix.Some? {
      SingleEntries(item.prefix.value, r.prefix, "", {});
    }
    if item.community.Some? {
      SingleEntries(PrefixMatcher(r.prefix, None, None), r.prefix, item.community.value.community, r.communities);
    }
    hide Lookup;
    hide PrefixPermits;
    hide CommunityPermits;
    hide PrefixListName;
    hide MatchListName;
    hide RemoveListName;
  }

  lemma MatchAgrees(cfg: Routing, name: string, i: nat, item: Item, r: Route)
    requires Resolves(cfg, name, i, item) && (item.community.Some? ==> !item.community.value.exact)
    ensures SeqMatches(cfg, ItemSeq(name, i, item), r) <==> ItemMatches(item, r)
  {
    EntryMatches(cfg, name, i, item, r);
    hide SeqMatches;
    hide ItemSeq;
  }

  lemma ItemAgrees(cfg: Routing, name: string, i: nat, item: Item, r: Route)
    requires Resolves(cfg, name, i, item) && Faithful(item)
    ensures SeqMatches(cfg, ItemSeq(name, i, item), r) <==> ItemMatches(item, r)
    ensures item.action.kind == Accept ==>
              Applied(cfg, SetClause(name, i, item.action), r.communities) == MeaningOf(item.action, r.communities)
  {
    MatchAgrees(cfg, name, i, item, r);
    hide SeqMatches;
    hide ItemMatches;
    if item.action.kind == Accept && item.action.change.Some? {
      CarriedIff(cfg, name, i, item);
    }
  }

  lemma {:induction false} EntriesAgree(cfg: Routing, depth: nat, name: string, f: Filter, k: nat, r: Route)
    requires ListsReady(cfg, name, f) && FaithfulFilter(f) && k <= |f.items|
    ensures Eval(cfg, depth, Seqs(name, f.items)[k..] + [DefaultSeq(f)], r) == FilterVerdict(f.items[k..], f.default, r)
    decreases |f.items| - k
  {
    var seqs := Seqs(name, f.items)[k..] + [DefaultSeq(f)];
    hide Applied;
    hide ItemMatches;
    if k == |f.items| {
      assert seqs == [DefaultSeq(f)];
      DefaultAgrees(cfg, depth, f, r);
    } else {
      assert Resolves(cfg, name, k, f.items[k]) && Faithful(f.items[k]);
      ItemAgrees(cfg, name, k, f.items[k], r);
      assert seqs[0] == ItemSeq(name, k, f.items[k]);
      assert seqs[1..] == Seqs(name, f.items)[k + 1..] + [DefaultSeq(f)];
      assert f.items[k..][1..] == f.items[k + 1..];
      EntriesAgree(cfg, depth, name, f, k + 1, r);
      hide Resolves;
      hide Faithful;
      hide SeqMatches;
      hide MeaningOf;
      hide SetClause;
      hide Seqs;
    }
  }

  lemma DefaultAgrees(cfg: Routing, depth: nat, f: Filter, r: Route)
    requires FaithfulFilter(f)
    ensures Eval(cfg, depth, [DefaultSeq(f)], r) == FilterVerdict([], f.default, r)
  {
    DefaultDecides(cfg, depth, [DefaultSeq(f)], f, r);
    if f.default.change.Some? && Inert(f.default.change.value) {
      assert r.communities - SetOf(f.default.change.value.remove) == r.communities;
    }
  }

  /** A default entry decides for every route, whatever follows. */
  lemma DefaultDecides(cfg: Routing, depth: nat, seqs: seq<MapSeq>, f: Filter, r: Route)
    requires seqs != [] && seqs[0] == DefaultSeq(f)
    ensures Eval(cfg, depth, seqs, r) == if f.default.kind == Accept then Accepted(r.communities) else Rejected
  {
  }

  /** For every route, the compiled route-map and the filter agree on the verdict and on the communities. */
  lemma VerdictsAgree(cfg: Routing, name: string, f: Filter, r: Route)
    requires Ready(cfg, name, f) && FaithfulFilter(f)
    ensures NamedVerdict(cfg, MapName(name), r) == FilterVerdict(f.items, f.default, r)
  {
    EntriesAgree(cfg, CALL_DEPTH, name, f, 0, r);
    assert Seqs(name, f.items)[0..] == Seqs(name, f.items) && f.items[0..] == f.items;
  }

  /** The entries stand in the order of their sequence numbers, so the device evaluates them in list order. */
  lemma NumbersAscend(cfg: Routing, name: string, f: Filter)
    requires FreshFor(cfg, name)
    ensures var seqs := Lookup(WithFilter(cfg, name, f).maps, MapName(name));
            seqs.Some? && forall i, j :: 0 <= i < j < |seqs.value| ==> seqs.value[i].num < seqs.value[j].num
  {
    FilterIsReady(cfg, name, f);
    hide Lookup;
    hide WithFilter;
    hide Resolves;
  }

  // ---- Several maps in one configuration ----

  lemma {:induction false} ItemsElsewhere(cfg: Routing, name: string, items: seq<Item>, other: string, k: nat)
    requires Apart(other, name) && other != name
    ensures SameLists(cfg, WithItems(cfg, name, items), other, k)
    ensures Lookup(WithItems(cfg, name, items).maps, MapName(other)) == Lookup(cfg.maps, MapName(other))
  {
    hide WithItem;
    hide Lookup;
    if items != [] {
      var n := |items| - 1;
      var before := WithItems(cfg, name, items[..n]);
      ItemsElsewhere(cfg, name, items[..n], other, k);
      ItemElsewhere(before, name, n, items[n], other, k);
      MapOf(before, name, n, items[n], MapName(other));
      NamesInjective(other, 0, name, 0);
    }
  }

  lemma FilterElsewhere(cfg: Routing, name: string, f: Filter, other: string, k: nat)
    requires Apart(other, name) && other != name
    ensures SameLists(cfg, WithFilter(cfg, name, f), other, k)
    ensures Lookup(WithFilter(cfg, name, f).maps, MapName(other)) == Lookup(cfg.maps, MapName(other))
  {
    ItemsElsewhere(cfg, name, f.items, other, k);
    NamesInjective(other, 0, name, 0);
    LookupAppended(WithItems(cfg, name, f.items).maps, MapName(name), [DefaultSeq(f)], MapName(other));
  }

  lemma ReadyStays(cfg: Routing, name: string, f: Filter, other: string, g: Filter)
    requires Apart(other, name) && other != name && Ready(cfg, other, g)
    ensures Ready(WithFilter(cfg, name, f), other, g)
  {
    FilterElsewhere(cfg, name, f, other, 0);
    forall k: nat | k < |g.items| ensures Resolves(WithFilter(cfg, name, f), other, k, g.items[k]) {
      FilterElsewhere(cfg, name, f, other, k);
      assert Resolves(cfg, other, k, g.items[k]);
      hide Lookup;
      hide WithFilter;
    }
  }

  lemma FreshStays(cfg: Routing, name: string, f: Filter, other: string)
    requires Apart(other, name) && other != name && FreshFor(cfg, other)
    ensures FreshFor(WithFilter(cfg, name, f), other)
  {
    FilterElsewhere(cfg, name, f, other, 0);
    forall k: nat ensures Vacant(WithFilter(cfg, name, f), other, k) {
      FilterElsewhere(cfg, name, f, other, k);
      assert Vacant(cfg, other, k);
    }
  }

  datatype Setup = Setup(name: string, filter: Filter)

  function WithFilters(cfg: Routing, setups: seq<Setup>): Routing {
    if setups == [] then cfg
    else
      var n := |setups| - 1;
      WithFilter(WithFilters(cfg, setups[..n]), setups[n].name, setups[n].filter)
  }

  predicate AllApart(setups: seq<Setup>) {
    forall i, j :: 0 <= i < j < |setups| ==> setups[i].name != setups[j].name && Apart(setups[i].name, setups[j].name)
  }

  lemma {:induction false} AllFreshStays(cfg: Routing, setups: seq<Setup>, other: string)
    requires FreshFor(cfg, other) && forall i :: 0 <= i < |setups| ==> setups[i].name != other && Apart(other, setups[i].name)
    ensures FreshFor(WithFilters(cfg, setups), other)
  {
    hide FreshFor;
    hide Apart;
    if setups != [] {
      var n := |setups| - 1;
      AllFreshStays(cfg, setups[..n], other);
      FreshStays(WithFilters(cfg, setups[..n]), setups[n].name, setups[n].filter, other);
    }
  }

  lemma {:induction false} AllReady(cfg: Routing, setups: seq<Setup>, k: nat)
    requires AllApart(setups) && k < |setups|
    requires forall i :: 0 <= i < |setups| ==> FreshFor(cfg, setups[i].name)
    ensures Ready(WithFilters(cfg, setups), setups[k].name, setups[k].filter)
  {
    hide FreshFor;
    hide Ready;
    hide WithFilter;
    var n := |setups| - 1;
    var before := WithFilters(cfg, setups[..n]);
    if k == n {
      forall i | 0 <= i < n ensures setups[i].name != setups[n].name && Apart(setups[n].name, setups[i].name) { }
      hide Apart;
      AllFreshStays(cfg, setups[..n], setups[n].name);
      FilterIsReady(before, setups[n].name, setups[n].filter);
    } else {
      AllReady(cfg, setups[..n], k);
      ReadyStays(before, setups[n].name, setups[n].filter, setups[k].name, setups[k].filter);
    }
  }

  /** However many maps share the configuration, each means its own filter. */
  lemma ManyMapsAgree(cfg: Routing, setups: seq<Setup>, k: nat, r: Route)
    requires AllApart(setups) && k < |setups|
    requires forall i :: 0 <= i < |setups| ==> FreshFor(cfg, setups[i].name)
    ensures FaithfulFilter(setups[k].filter) ==>
              NamedVerdict(WithFilters(cfg, setups), MapName(setups[k].name), r)
              == FilterVerdict(setups[k].filter.items, setups[k].filter.default, r)
  {
    AllReady(cfg, setups, k);
    hide FreshFor;
    hide Ready;
    if FaithfulFilter(setups[k].filter) {
      VerdictsAgree(WithFilters(cfg, setups), setups[k].name, setups[k].filter, r);
    }
  }

  // ---- Names that collide ----

  ghost predicate Agrees(cfg: Routing, name: string, f: Filter) {
    forall r :: NamedVerdict(cfg, MapName(name), r) == FilterVerdict(f.items, f.default, r)
  }

  const ACCEPT := Action(Accept, None)

  function Rejecting(c: string): Item {
    Item(None, Some(CommunityMatcher(c, false)), Action(Reject, None))
  }

  function Removing(c: string): Item {
    Item(None, None, Action(Accept, Some(Modify([], None, [c], None))))
  }

  /** What the map of that name holds so far. */
  function Held(cfg: Routing, q: string): seq<MapSeq> {
    var seqs := Lookup(cfg.maps, q);
    if seqs.Some? then seqs.value else []
  }

  function Entries(name: string, f: Filter): seq<MapSeq> {
    Seqs(name, f.items) + [DefaultSeq(f)]
  }

  lemma {:induction false} ItemsMap(cfg: Routing, name: string, items: seq<Item>, q: string)
    ensures Lookup(WithItems(cfg, name, items).maps, q) ==
            if q != MapName(name) || items == [] then Lookup(cfg.maps, q) else Some(Held(cfg, q) + Seqs(name, items))
  {
    hide WithItem;
    hide Lookup;
    hide MapName;
    hide ItemSeq;
    if items != [] {
      var n := |items| - 1;
      ItemsMap(cfg, name, items[..n], q);
      MapOf(WithItems(cfg, name, items[..n]), name, n, items[n], q);
      assert Seqs(name, items) == Seqs(name, items[..n]) + [ItemSeq(name, n, items[n])];
      assert Held(cfg, q) + Seqs(name, items) == Held(cfg, q) + Seqs(name, items[..n]) + [ItemSeq(name, n, items[n])];
      assert [] + [ItemSeq(name, n, items[n])] == [ItemSeq(name, n, items[n])];
      assert n == 0 ==> Seqs(name, items) == [ItemSeq(name, n, items[n])];
    }
  }

  /** A filter adds its entries to the map of its name and leaves every other map alone. */
  lemma FilterMap(cfg: Routing, name: string, f: Filter, q: string)
    ensures Lookup(WithFilter(cfg, name, f).maps, q) ==
            if q != MapName(name) then Lookup(cfg.maps, q) else Some(Held(cfg, q) + Entries(name, f))
  {
    ItemsMap(cfg, name, f.items, q);
    LookupAppended(WithItems(cfg, name, f.items).maps, MapName(name), [DefaultSeq(f)], q);
    hide Lookup;
    assert f.items == [] ==> Entries(name, f) == [DefaultSeq(f)];
    assert Held(cfg, q) + Entries(name, f) == Held(cfg, q) + Seqs(name, f.items) + [DefaultSeq(f)];
  }

  /** The filters on which two colliding maps come out wrong. */
  function CollidingFirst(n: string, m: string): Filter {
    Filter([if m == "remove_" + n then Removing("a") else Rejecting("a")], ACCEPT)
  }

  function CollidingSecond(n: string, m: string): Filter {
    Filter([if m == "remove_" + n then Rejecting("b") else Removing("b")], ACCEPT)
  }

  function Tagged(source: string): Route {
    Route(Prefix(false, []), {"b"}, source)
  }

  lemma OneItemLists(cfg: Routing, name: string, item: Item)
    ensures WithFilter(cfg, name, Filter([item], ACCEPT)).communities == WithItem(cfg, name, 0, item).communities
  {
    assert [item][..0] == [];
    assert WithItems(cfg, name, [item]) == WithItem(cfg, name, 0, item);
  }

  /** The second map finds the first map's list under the name of its own. */
  lemma ListIsTaken(cfg: Routing, n: string, m: string)
    requires FreshFor(cfg, n) && !Apart(n, m)
    ensures Lookup(WithFilter(WithFilter(cfg, n, CollidingFirst(n, m)), m, CollidingSecond(n, m)).communities,
                   if m == "remove_" + n then MatchListName(m, 0) else RemoveListName(m, 0))
            == Some([CommunitySeq(Permit, ["a"])])
  {
    var f, g := CollidingFirst(n, m), CollidingSecond(n, m);
    var first := WithFilter(cfg, n, f);
    KindsCollide(m, 0, n, 0);
    KindsCollide(n, 0, m, 0);
    FilterIsReady(cfg, n, f);
    assert Resolves(first, n, 0, f.items[0]);
    OneItemLists(first, m, g.items[0]);
    var taken := if m == "remove_" + n then MatchListName(m, 0) else RemoveListName(m, 0);
    LookupAddedOnce(first.communities, taken, [CommunitySeq(Permit, ["b"])], taken);
  }

  lemma LostMatchAccepts(cfg: Routing, depth: nat, m: string, source: string)
    requires Lookup(cfg.communities, MatchListName(m, 0)) == Some([CommunitySeq(Permit, ["a"])])
    ensures var g := Filter([Rejecting("b")], ACCEPT);
            Eval(cfg, depth, Entries(m, g), Tagged(source)) != FilterVerdict(g.items, g.default, Tagged(source))
  {
    hide Lookup;
    hide MatchListName;
    var g, r := Filter([Rejecting("b")], ACCEPT), Tagged(source);
    var seqs := Entries(m, g);
    SingleEntries(PrefixMatcher(r.prefix, None, None), r.prefix, "a", r.communities);
    assert "a" != "b" && !SeqMatches(cfg, seqs[0], r);
    assert seqs[1..] == [DefaultSeq(g)];
    assert Eval(cfg, depth, seqs[1..], r) == Accepted({"b"});
    assert FilterVerdict(g.items, g.default, r) == Rejected;
  }

  lemma LostRemovalKeeps(cfg: Routing, depth: nat, m: string, source: string)
    requires Lookup(cfg.communities, RemoveListName(m, 0)) == Some([CommunitySeq(Permit, ["a"])])
    ensures var g := Filter([Removing("b")], ACCEPT);
            Eval(cfg, depth, Entries(m, g), Tagged(source)) != FilterVerdict(g.items, g.default, Tagged(source))
  {
    hide Lookup;
    hide RemoveListName;
    var g, r := Filter([Removing("b")], ACCEPT), Tagged(source);
    var seqs := Entries(m, g);
    var lists := [CommunitySeq(Permit, ["a"])];
    assert "a" != "b" && "b" !in Listed(Some(lists));
    assert seqs[0] == ItemSeq(m, 0, Removing("b"));
    assert Eval(cfg, depth, seqs, r) == Accepted({"b"} - Listed(Some(lists)));
    assert "b" in {"b"} - Listed(Some(lists));
    assert FilterVerdict(g.items, g.default, r) == Accepted(Meaning(Modify([], None, ["b"], None), {"b"}));
    assert "b" !in Meaning(Modify([], None, ["b"], None), {"b"});
  }

  /** Whatever maps there are and wherever the route is from, the second map's entries do not mean its filter. */
  lemma CollisionShows(cfg: Routing, n: string, m: string, after: Routing, depth: nat, source: string)
    requires FreshFor(cfg, n) && !Apart(n, m)
    requires after.communities
             == WithFilter(WithFilter(cfg, n, CollidingFirst(n, m)), m, CollidingSecond(n, m)).communities
    ensures FaithfulFilter(CollidingFirst(n, m)) && FaithfulFilter(CollidingSecond(n, m))
    ensures var g := CollidingSecond(n, m);
            Eval(after, depth, Entries(m, g), Tagged(source)) != FilterVerdict(g.items, g.default, Tagged(source))
  {
    ListIsTaken(cfg, n, m);
    hide WithFilter;
    hide Lookup;
    hide Eval;
    hide FilterVerdict;
    if m == "remove_" + n {
      LostMatchAccepts(after, depth, m, source);
    } else {
      LostRemovalKeeps(after, depth, m, source);
    }
  }

  lemma SecondMapIsWrong(cfg: Routing, n: string, m: string)
    requires n != m && FreshFor(cfg, n) && FreshFor(cfg, m) && !Apart(n, m)
    ensures var f, g := CollidingFirst(n, m), CollidingSecond(n, m);
            FaithfulFilter(f) && FaithfulFilter(g) && !Agrees(WithFilter(WithFilter(cfg, n, f), m, g), m, g)
  {
    var f, g := CollidingFirst(n, m), CollidingSecond(n, m);
    var first := WithFilter(cfg, n, f);
    var second := WithFilter(first, m, g);
    CollisionShows(cfg, n, m, second, CALL_DEPTH, "");
    NamesInjective(m, 0, n, 0);
    FilterMap(cfg, n, f, MapName(m));
    FilterMap(first, m, g, MapName(m));
    assert [] + Entries(m, g) == Entries(m, g);
    hide WithFilter;
    hide Lookup;
    hide Entries;
    hide Eval;
    assert NamedVerdict(second, MapName(m), Tagged("")) == Eval(second, CALL_DEPTH, Entries(m, g), Tagged(""));
  }

  /** The second map matches on the first map's removal list. */
  lemma MatchIsLost(cfg: Routing, n: string)
    requires FreshFor(cfg, n) && FreshFor(cfg, "remove_" + n)
    ensures !Agrees(WithFilter(WithFilter(cfg, n, Filter([Removing("a")], ACCEPT)), "remove_" + n, Filter([Rejecting("b")], ACCEPT)),
                    "remove_" + n, Filter([Rejecting("b")], ACCEPT))
  {
    assert |n| != |"remove_" + n|;
    SecondMapIsWrong(cfg, n, "remove_" + n);
  }

  /** The second map removes what the first map matches on. */
  lemma RemovalIsLost(cfg: Routing, m: string)
    requires FreshFor(cfg, m) && FreshFor(cfg, "remove_" + m)
    ensures !Agrees(WithFilter(WithFilter(cfg, "remove_" + m, Filter([Rejecting("a")], ACCEPT)), m, Filter([Removing("b")], ACCEPT)),
                    m, Filter([Removing("b")], ACCEPT))
  {
    assert |m| != |"remove_" + m| && |m| != |"remove_" + ("remove_" + m)|;
    SecondMapIsWrong(cfg, "remove_" + m, m);
  }

  /** Two maps always mean their own filters exactly when their names differ and neither is the other behind remove_. */
  lemma TwoMapsIff(cfg: Routing, n: string, m: string)
    requires FreshFor(cfg, n) && FreshFor(cfg, m)
    ensures n != m && Apart(n, m) <==>
            forall f, g :: FaithfulFilter(f) && FaithfulFilter(g) ==>
              Agrees(WithFilter(WithFilter(cfg, n, f), m, g), n, f) && Agrees(WithFilter(WithFilter(cfg, n, f), m, g), m, g)
  {
    hide FreshFor;
    hide WithFilter;
    hide Agrees;
    if n == m {
      SameNameShows(cfg, n);
    } else if Apart(n, m) {
      forall f, g | FaithfulFilter(f) && FaithfulFilter(g)
        ensures Agrees(WithFilter(WithFilter(cfg, n, f), m, g), n, f) && Agrees(WithFilter(WithFilter(cfg, n, f), m, g), m, g)
      {
        TwoMapsAgree(cfg, n, f, m, g);
      }
    } else {
      SecondMapIsWrong(cfg, n, m);
    }
  }

  const ALL := Filter([], ACCEPT)
  const NOTHING := Filter([], Action(Reject, None))

  /** Set up twice, a map keeps the default of the first filter. */
  lemma SameNameShows(cfg: Routing, n: string)
    requires FreshFor(cfg, n)
    ensures FaithfulFilter(ALL) && FaithfulFilter(NOTHING)
    ensures !Agrees(WithFilter(WithFilter(cfg, n, ALL), n, NOTHING), n, NOTHING)
  {
    var first := WithFilter(cfg, n, ALL);
    var second := WithFilter(first, n, NOTHING);
    FilterMap(cfg, n, ALL, MapName(n));
    FilterMap(first, n, NOTHING, MapName(n));
    DefaultDecides(second, CALL_DEPTH, Held(second, MapName(n)), ALL, Tagged(""));
    hide WithFilter;
    hide Lookup;
    hide Eval;
    assert FilterVerdict(NOTHING.items, NOTHING.default, Tagged("")) == Rejected;
    assert NamedVerdict(second, MapName(n), Tagged("")) != Rejected;
  }

  lemma TwoMapsAgree(cfg: Routing, n: string, f: Filter, m: string, g: Filter)
    requires n != m && Apart(n, m) && FreshFor(cfg, n) && FreshFor(cfg, m) && FaithfulFilter(f) && FaithfulFilter(g)
    ensures Agrees(WithFilter(WithFilter(cfg, n, f), m, g), n, f) && Agrees(WithFilter(WithFilter(cfg, n, f), m, g), m, g)
  {
    FilterIsReady(cfg, n, f);
    FreshStays(cfg, n, f, m);
    hide FreshFor;
    hide Ready;
    hide WithFilter;
    hide FaithfulFilter;
    var first := WithFilter(cfg, n, f);
    var second := WithFilter(first, m, g);
    FilterIsReady(first, m, g);
    ReadyStays(first, m, g, n, f);
    forall r ensures NamedVerdict(second, MapName(n), r) == FilterVerdict(f.items, f.default, r)
                     && NamedVerdict(second, MapName(m), r) == FilterVerdict(g.items, g.default, r)
    {
      VerdictsAgree(second, n, f, r);
      VerdictsAgree(second, m, g, r);
    }
  }

  // ---- When a single item is carried ----

  ghost predicate Matchable(item: Item) {
    exists r :: ItemMatches(item, r)
  }

  /** The map of a one-item filter, evaluated. */
  lemma OneItemVerdict(cfg: Routing, name: string, item: Item, d: Action, r: Route)
    requires FreshFor(cfg, name) && d.change.None?
    ensures var n := WithFilter(cfg, name, Filter([item], d));
            && Resolves(n, name, 0, item)
            && NamedVerdict(n, MapName(name), r) ==
               if !MatchesLoosely(item, r) then (if d.kind == Accept then Accepted(r.communities) else Rejected)
               else if item.action.kind != Accept then Rejected
               else Accepted(Applied(n, SetClause(name, 0, item.action), r.communities))
  {
    var f := Filter([item], d);
    var n := WithFilter(cfg, name, f);
    FilterIsReady(cfg, name, f);
    hide FreshFor;
    hide WithFilter;
    hide Resolves;
    assert f.items[0] == item && Resolves(n, name, 0, f.items[0]);
    assert Seqs(name, f.items) + [DefaultSeq(f)] == [ItemSeq(name, 0, item), DefaultSeq(f)];
    OneItemEval(n, CALL_DEPTH, name, f, r);
    hide Lookup;
    hide Applied;
    hide Eval;
  }

  lemma OneItemEval(cfg: Routing, depth: nat, name: string, f: Filter, r: Route)
    requires |f.items| == 1 && Resolves(cfg, name, 0, f.items[0]) && f.default.change.None?
    ensures Eval(cfg, depth, [ItemSeq(name, 0, f.items[0]), DefaultSeq(f)], r) ==
            if !MatchesLoosely(f.items[0], r) then (if f.default.kind == Accept then Accepted(r.communities) else Rejected)
            else if f.items[0].action.kind != Accept then Rejected
            else Accepted(Applied(cfg, SetClause(name, 0, f.items[0].action), r.communities))
  {
    var seqs := [ItemSeq(name, 0, f.items[0]), DefaultSeq(f)];
    EntryMatches(cfg, name, 0, f.items[0], r);
    DefaultDecides(cfg, depth, seqs[1..], f, r);
    hide SeqMatches;
    hide MatchesLoosely;
    hide Resolves;
    hide Lookup;
    hide Applied;
  }

  /** A route and a plain default on which the one-item map and its filter differ. */
  lemma UnfaithfulShows(cfg: Routing, name: string, item: Item) returns (d: Action, r: Route)
    requires FreshFor(cfg, name) && Matchable(item) && !Faithful(item)
    ensures d.kind != Next && d.change.None?
    ensures NamedVerdict(WithFilter(cfg, name, Filter([item], d)), MapName(name), r) != FilterVerdict([item], d, r)
  {
    hide FreshFor;
    r :| ItemMatches(item, r);
    if item.action.kind == Next {
      d := ACCEPT;
      NextDiffers(cfg, name, item, r);
    } else if item.community.Some? && item.community.value.exact {
      d := if item.action.kind == Accept then Action(Reject, None) else ACCEPT;
      r := r.(communities := {item.community.value.community, item.community.value.community + "+"});
      ExactDiffers(cfg, name, item, d, r);
    } else {
      d := ACCEPT;
      var x := Telltale(item.action.change.value);
      r := r.(communities := r.communities + {x});
      UncarriedDiffers(cfg, name, item, x, r);
    }
  }

  lemma NextDiffers(cfg: Routing, name: string, item: Item, r: Route)
    requires FreshFor(cfg, name) && item.action.kind == Next && ItemMatches(item, r)
    ensures NamedVerdict(WithFilter(cfg, name, Filter([item], ACCEPT)), MapName(name), r) != FilterVerdict([item], ACCEPT, r)
  {
    OneItemVerdict(cfg, name, item, ACCEPT, r);
    hide WithFilter;
    hide NamedVerdict;
    assert [item][1..] == [];
  }

  lemma ExactDiffers(cfg: Routing, name: string, item: Item, d: Action, r: Route)
    requires FreshFor(cfg, name) && item.action.kind != Next && item.community.Some? && item.community.value.exact
    requires d == if item.action.kind == Accept then Action(Reject, None) else ACCEPT
    requires item.prefix.Some? ==> InRange(item.prefix.value, r.prefix)
    requires var c := item.community.value.community; r.communities == {c, c + "+"}
    ensures NamedVerdict(WithFilter(cfg, name, Filter([item], d)), MapName(name), r) != FilterVerdict([item], d, r)
  {
    OneItemVerdict(cfg, name, item, d, r);
    hide WithFilter;
    hide NamedVerdict;
    var c := item.community.value.community;
    assert |c + "+"| != |c| && c + "+" in r.communities && c + "+" !in {c};
    assert !ItemMatches(item, r);
    assert [item][1..] == [];
  }

  lemma UncarriedDiffers(cfg: Routing, name: string, item: Item, x: string, r: Route)
    requires FreshFor(cfg, name) && item.action.kind == Accept && item.action.change.Some?
    requires !Carried(item.action.change.value) && Tells(item.action.change.value, x) && x in r.communities
    requires ItemMatches(item, r) && (item.community.Some? ==> !item.community.value.exact)
    ensures NamedVerdict(WithFilter(cfg, name, Filter([item], ACCEPT)), MapName(name), r) != FilterVerdict([item], ACCEPT, r)
  {
    OneItemVerdict(cfg, name, item, ACCEPT, r);
    var n := WithFilter(cfg, name, Filter([item], ACCEPT));
    var clause := SetClause(name, 0, item.action);
    if clause.DeleteList? {
      Removes(n, name, 0, item, r.communities);
    }
    hide WithFilter;
    hide NamedVerdict;
    hide Resolves;
    NotCarried(n, clause, item.action.change.value, x, r.communities);
    hide Applied;
    hide Meaning;
  }

  /** An item that some route meets is compiled to what it means under every plain default exactly when it is faithful. */
  lemma ItemFaithfulIff(cfg: Routing, name: string, item: Item)
    requires FreshFor(cfg, name) && Matchable(item)
    ensures Faithful(item) <==>
            forall d: Action :: d.kind != Next && d.change.None? ==> Agrees(WithFilter(cfg, name, Filter([item], d)), name, Filter([item], d))
  {
    if Faithful(item) {
      forall d: Action | d.kind != Next && d.change.None?
        ensures Agrees(WithFilter(cfg, name, Filter([item], d)), name, Filter([item], d))
      {
        FilterAgrees(cfg, name, Filter([item], d));
      }
    } else {
      var d, r := UnfaithfulShows(cfg, name, item);
      hide FreshFor;
      hide WithFilter;
      assert !Agrees(WithFilter(cfg, name, Filter([item], d)), name, Filter([item], d));
    }
  }

  lemma FilterAgrees(cfg: Routing, name: string, f: Filter)
    requires FreshFor(cfg, name) && FaithfulFilter(f)
    ensures Agrees(WithFilter(cfg, name, f), name, f)
  {
    FilterIsReady(cfg, name, f);
    hide FreshFor;
    hide Ready;
    hide FaithfulFilter;
    hide WithFilter;
    forall r ensures NamedVerdict(WithFilter(cfg, name, f), MapName(name), r) == FilterVerdict(f.items, f.default, r) {
      VerdictsAgree(WithFilter(cfg, name, f), name, f, r);
    }
  }

  /** The default entry means the default action exactly when an accepting default changes nothing. */
  lemma DefaultFaithfulIff(cfg: Routing, name: string, d: Action)
    requires FreshFor(cfg, name)
    ensures FaithfulDefault(d) <==> Agrees(WithFilter(cfg, name, Filter([], d)), name, Filter([], d))
  {
    var f := Filter([], d);
    if FaithfulDefault(d) {
      FilterAgrees(cfg, name, f);
    } else {
      FilterIsReady(cfg, name, f);
      hide FreshFor;
      hide WithFilter;
      var n := WithFilter(cfg, name, f);
      var r := Route(Prefix(false, []), if d.change.value.add == [] then SetOf(d.change.value.remove) + {""} else {}, "");
      assert Seqs(name, []) + [DefaultSeq(f)] == [DefaultSeq(f)];
      DefaultDecides(n, CALL_DEPTH, [DefaultSeq(f)], f, r);
    hide CALL_DEPTH;
      NotInert(d.change.value, r.communities);
      assert NamedVerdict(n, MapName(name), r) != FilterVerdict(f.items, f.default, r);
    }
  }

  lemma NotInert(m: Modify, cs: set<string>)
    requires !Inert(m) && cs == if m.add == [] then SetOf(m.remove) + {""} else {}
    ensures Meaning(m, cs) != cs
  {
    if m.add != [] {
      assert m.add[0] in Meaning(m, cs);
    } else if m.remove != [] {
      assert m.remove[0] in cs && m.remove[0] !in Meaning(m, cs);
    } else {
      assert "" in cs && "" !in Meaning(m, cs);
    }
  }

  /** A next item compiles to a deny wherever it stands: the filter goes on with the modified route, the map rejects it. */
  lemma {:induction false} NextIsRejected(cfg: Routing, name: string, f: Filter, i: nat, k: nat, r: Route)
    requires Ready(cfg, name, f) && i <= k < |f.items| && f.items[k].action.kind == Next && ItemMatches(f.items[k], r)
    requires forall j :: i <= j < k ==> !MatchesLoosely(f.items[j], r)
    ensures MapVerdict(cfg, (Seqs(name, f.items) + [DefaultSeq(f)])[i..], r) == Rejected
    ensures FilterVerdict(f.items[i..], f.default, r)
            == FilterVerdict(f.items[k + 1..], f.default, r.(communities := MeaningOf(f.items[k].action, r.communities)))
    decreases k - i
  {
    var seqs := Seqs(name, f.items) + [DefaultSeq(f)];
    assert Resolves(cfg, name, i, f.items[i]);
    EntryMatches(cfg, name, i, f.items[i], r);
    assert seqs[i..][0] == ItemSeq(name, i, f.items[i]) && seqs[i..][1..] == seqs[i + 1..];
    assert f.items[i..][0] == f.items[i] && f.items[i..][1..] == f.items[i + 1..];
    assert ItemMatches(f.items[i], r) ==> MatchesLoosely(f.items[i], r);
    hide SeqMatches;
    hide Resolves;
    hide Seqs;
    hide MeaningOf;
    if i < k {
      NextIsRejected(cfg, name, f, i + 1, k, r);
    }
  }
}
