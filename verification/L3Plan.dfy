/**
 Which VRFs a configuration deletes and creates (cmd/frr-cra/main.go, getVRFsToDelete and
 createVRFs), and what it means for a link table to have reached the configuration.
 */
module L3Plan {
  import opened Text
  import opened LinkTable
  import opened Layer3

  type Config = seq<VRFInformation>

  /** The entry the name search stops at: the first one with the name. */
  function FirstNamed(cfg: Config, name: string): (r: Option<VRFInformation>)
    ensures r.Some? ==> r.value in cfg && r.value.name == name
    ensures r.None? ==> forall c :: c in cfg ==> c.name != name
  {
    if cfg == [] then None
    else if cfg[0].name == name then Some(cfg[0])
    else FirstNamed(cfg[1..], name)
  }

  /** getVRFsToDelete's verdict on one listed VRF. */
  predicate ToDelete(cfg: Config, info: VRFInformation) {
    var c := FirstNamed(cfg, info.name);
    var keep := c.Some? && (c.value.localOnly || c.value.vni == info.vni);
    !keep || (info.markForDelete && !c.value.localOnly)
  }

  /** createVRFs' test that a configured VRF is already there. */
  predicate Matches(c: VRFInformation, info: VRFInformation) {
    info.name == c.name && (c.localOnly || (info.vni == c.vni && !info.markForDelete))
  }

  predicate DistinctNames(cfg: Config) {
    forall i, j :: 0 <= i < j < |cfg| ==> cfg[i].name != cfg[j].name
  }

  predicate NoneReserved(base: Base, cfg: Config) {
    forall c :: c in cfg ==> !base.Reserved(c.name)
  }

  lemma {:induction false} FirstNamedIs(cfg: Config, c: VRFInformation)
    requires DistinctNames(cfg) && c in cfg
    ensures FirstNamed(cfg, c.name) == Some(c)
  {
    if cfg[0] == c {
    } else {
      assert c in cfg[1..];
      FirstNamedIs(cfg[1..], c);
      var k :| 0 <= k < |cfg| && cfg[k] == c;
    }
  }

  /** The delete test and the already-exists test are exact complements. */
  lemma DeleteComplementsExists(cfg: Config, c: VRFInformation, info: VRFInformation)
    requires DistinctNames(cfg) && c in cfg && info.name == c.name
    ensures ToDelete(cfg, info) <==> !Matches(c, info)
  {
    FirstNamedIs(cfg, c);
  }

  /** A VRF that is not deleted is one the configuration asks for. */
  lemma KeptIsConfigured(cfg: Config, info: VRFInformation)
    requires !ToDelete(cfg, info)
    ensures exists c :: c in cfg && Matches(c, info)
  {
    var c := FirstNamed(cfg, info.name).value;
    assert c in cfg && Matches(c, info);
  }

  ghost predicate Pruned(base: Base, cfg: Config, t: Table) {
    forall v :: Listed(base, t, v) ==> !ToDelete(cfg, InfoOf(t, v))
  }

  ghost predicate Provided(base: Base, t: Table, c: VRFInformation) {
    exists v :: Listed(base, t, v) && Matches(c, InfoOf(t, v))
  }

  /** The listing is the configuration: every listed VRF is asked for, every one asked for is listed as asked. */
  ghost predicate Converged(base: Base, cfg: Config, t: Table) {
    Pruned(base, cfg, t) && forall c :: c in cfg ==> Provided(base, t, c)
  }

  /** What Converged says in the terms of a listing, including that a second run has nothing to do. */
  lemma ConvergedListing(base: Base, cfg: Config, t: Table, infos: seq<VRFInformation>)
    requires Converged(base, cfg, t) && DistinctNames(cfg) && UniqueNames(t) && Lists(base, t, infos)
    ensures (set info | info in infos :: info.name) == (set c | c in cfg :: c.name)
    ensures forall c, info :: c in cfg && info in infos && info.name == c.name && !c.localOnly ==>
              info.vni == c.vni && !info.markForDelete
    ensures forall info :: info in infos ==> !ToDelete(cfg, info)
    ensures forall c :: c in cfg ==> exists info :: info in infos && Matches(c, info)
  {
    ListingKept(base, cfg, t, infos);
    ListingProvides(base, cfg, t, infos);
    hide Converged;
    hide Lists;
    hide Matches;
    hide ToDelete;
    ListedVnis(cfg, infos);
    ListedNames(cfg, infos);
  }

  /** What Converged says about the links themselves. */
  lemma ConvergedLinks(base: Base, cfg: Config, t: Table)
    requires Converged(base, cfg, t)
    ensures forall v :: v in t && t[v].kind.Vrf? && t[v].name !in {base.clusterVRF, base.managementVRF} ==>
              exists c :: c in cfg && c.name == t[v].name
    ensures forall c :: c in cfg ==>
              exists v :: v in t && t[v].kind.Vrf? && t[v].name == c.name && (c.localOnly || HasL3vni(t, v, c.vni))
  {
    forall v | IsVrf(t, v) ensures InfoOf(t, v).name == t[v].name { }
    hide InfoOf;
    hide HasL3vni;
    forall v | v in t && t[v].kind.Vrf? && t[v].name !in {base.clusterVRF, base.managementVRF}
      ensures exists c :: c in cfg && c.name == t[v].name
    {
      assert Listed(base, t, v);
      KeptIsConfigured(cfg, InfoOf(t, v));
    }
    forall c | c in cfg
      ensures exists v :: v in t && t[v].kind.Vrf? && t[v].name == c.name && (c.localOnly || HasL3vni(t, v, c.vni))
    {
      assert Provided(base, t, c);
      var v :| Listed(base, t, v) && Matches(c, InfoOf(t, v));
      if !c.localOnly {
        L3vniOf(t, v);
      }
    }
  }

  /** A br.* bridge in the VRF with a vx.* VXLAN of this VNI on it. */
  predicate HasL3vni(t: Table, v: int, vni: int) {
    exists b, x :: b in t && t[b].kind.Bridge? && BR <= t[b].name && t[b].master == v
                   && x in t && t[x].kind == Vxlan(vni) && VX <= t[x].name && t[x].master == b
  }

  lemma L3vniOf(t: Table, v: int)
    requires IsVrf(t, v) && !InfoOf(t, v).markForDelete
    ensures HasL3vni(t, v, InfoOf(t, v).vni)
  {
    var b := First(Bridges(t, v)).value;
    var x := First(Vxlans(t, b)).value;
    assert b in Bridges(t, v) && x in Vxlans(t, b);
  }

  lemma ListedVnis(cfg: Config, infos: seq<VRFInformation>)
    requires DistinctNames(cfg) && forall info :: info in infos ==> !ToDelete(cfg, info)
    ensures forall c, info :: c in cfg && info in infos && info.name == c.name && !c.localOnly ==>
              info.vni == c.vni && !info.markForDelete
  {
    hide ToDelete;
    forall c, info | c in cfg && info in infos && info.name == c.name && !c.localOnly
      ensures info.vni == c.vni && !info.markForDelete
    {
      DeleteComplementsExists(cfg, c, info);
    }
  }

  lemma ListedNames(cfg: Config, infos: seq<VRFInformation>)
    requires forall info :: info in infos ==> !ToDelete(cfg, info)
    requires forall c :: c in cfg ==> exists info :: info in infos && Matches(c, info)
    ensures (set info | info in infos :: info.name) == (set c | c in cfg :: c.name)
  {
    hide ToDelete;
    var names := set info | info in infos :: info.name;
    var wanted := set c | c in cfg :: c.name;
    forall n | n in names ensures n in wanted {
      var info :| info in infos && info.name == n;
      KeptIsConfigured(cfg, info);
      var c :| c in cfg && Matches(c, info);
      assert c.name == n;
    }
    forall n | n in wanted ensures n in names {
      var c :| c in cfg && c.name == n;
      var info :| info in infos && Matches(c, info);
      assert info.name == n;
    }
  }

  lemma ListingKept(base: Base, cfg: Config, t: Table, infos: seq<VRFInformation>)
    requires Converged(base, cfg, t) && Lists(base, t, infos)
    ensures forall info :: info in infos ==> !ToDelete(cfg, info)
  {
    hide InfoOf;
    hide ToDelete;
    hide Provided;
    forall info | info in infos ensures !ToDelete(cfg, info) {
      assert Listed(base, t, info.vrfID);
    }
  }

  lemma ListingProvides(base: Base, cfg: Config, t: Table, infos: seq<VRFInformation>)
    requires Converged(base, cfg, t) && Lists(base, t, infos)
    ensures forall c :: c in cfg ==> exists info :: info in infos && Matches(c, info)
  {
    hide InfoOf;
    hide ToDelete;
    hide Matches;
    forall c | c in cfg ensures exists info :: info in infos && Matches(c, info) {
      assert Provided(base, t, c);
      var v :| Listed(base, t, v) && Matches(c, InfoOf(t, v));
      assert InfoOf(t, v) in infos;
    }
  }

  // ---- Deleting ----

  /** The VRFs that getVRFsToDelete returns. */
  ghost function Doomed(base: Base, cfg: Config, t: Table): set<int> {
    set v | v in t && Listed(base, t, v) && ToDelete(cfg, InfoOf(t, v))
  }

  /** Deleting exactly the doomed VRFs leaves a pruned table, and the survivors as they were. */
  lemma DeletingPrunes(base: Base, cfg: Config, t: Table, next: int)
    requires WellFormed(t, next)
    ensures Pruned(base, cfg, RemoveAll(t, Families(t, Doomed(base, cfg, t))))
  {
    var vs := Doomed(base, cfg, t);
    var u := RemoveAll(t, Families(t, vs));
    forall v | Listed(base, u, v) ensures !ToDelete(cfg, InfoOf(u, v)) {
      assert Owner(t, v) == v;
      FamiliesFrame(t, vs, v);
      SameVrfSameInfo(t, u, v);
    }
  }

  // ---- Creating ----

  /** Between deleting and the end of creating: survivors kept, the first k entries there, nothing else. */
  ghost predicate Creating(base: Base, cfg: Config, k: nat, t: Table, u: Table)
    requires k <= |cfg|
  {
    && (forall v :: Listed(base, t, v) ==> Listed(base, u, v) && SamePorts(t, u, v))
    && (forall v :: Listed(base, u, v) && !Listed(base, t, v) ==>
          exists j :: 0 <= j < k && Matches(cfg[j], InfoOf(u, v)))
    && (forall j :: 0 <= j < k ==> Provided(base, u, cfg[j]))
  }

  lemma CreatingSkip(base: Base, cfg: Config, k: nat, t: Table, u: Table, v: int)
    requires k < |cfg| && Creating(base, cfg, k, t, u)
    requires Listed(base, t, v) && Matches(cfg[k], InfoOf(t, v))
    ensures Creating(base, cfg, k + 1, t, u)
  {
    SameVrfSameInfo(t, u, v);
    assert Provided(base, u, cfg[k]);
  }

  lemma SamePortsTransitive(t: Table, u: Table, w: Table, v: int)
    requires SamePorts(t, u, v) && SamePorts(u, w, v)
    ensures SamePorts(t, w, v)
  {
    forall b, x | b in Bridges(t, v)
      ensures x in Vxlans(t, b) <==> x in Vxlans(w, b)
      ensures x in Vxlans(t, b) ==> t[x].kind == w[x].kind && t[x].name == w[x].name && t[x].up == w[x].up
    {
      assert b in Bridges(u, v);
    }
  }

  lemma CreatingStep(base: Base, cfg: Config, k: nat, t: Table, u: Table, n: int, table: int)
    requires k < |cfg| && Creating(base, cfg, k, t, u)
    requires WellFormed(u, n) && !base.Reserved(cfg[k].name)
    ensures Creating(base, cfg, k + 1, t, WithVrf(u, n, cfg[k], table))
  {
    var w := WithVrf(u, n, cfg[k], table);
    CreateThenList(u, n, cfg[k], table);
    WithVrfExtends(u, n, cfg[k], table);
    assert Listed(base, w, n) && Matches(cfg[k], InfoOf(w, n));
    hide WithVrf;
    forall v | Listed(base, u, v)
      ensures Listed(base, w, v) && SamePorts(u, w, v) && InfoOf(u, v) == InfoOf(w, v)
    {
      CreateFrame(u, n, cfg[k], table, v);
      SameVrfSameInfo(u, w, v);
    }
    hide InfoOf;
    hide SamePorts;
    hide Matches;
    forall v | Listed(base, t, v) ensures Listed(base, w, v) && SamePorts(t, w, v) {
      SamePortsTransitive(t, u, w, v);
    }
    forall v | Listed(base, w, v) && !Listed(base, t, v)
      ensures exists j :: 0 <= j < k + 1 && Matches(cfg[j], InfoOf(w, v))
    {
      if v == n {
        assert Matches(cfg[k], InfoOf(w, v));
      } else {
        assert Listed(base, u, v);
        var j :| 0 <= j < k && Matches(cfg[j], InfoOf(u, v));
        assert 0 <= j < k + 1 && Matches(cfg[j], InfoOf(w, v));
      }
    }
    assert Provided(base, w, cfg[k]);
    forall j | 0 <= j < k + 1 ensures Provided(base, w, cfg[j]) {
      if j < k {
        ProvidedStays(base, u, w, cfg[j]);
      }
    }
  }

  lemma ProvidedStays(base: Base, u: Table, w: Table, c: VRFInformation)
    requires Provided(base, u, c)
    requires forall v :: Listed(base, u, v) ==> Listed(base, w, v) && InfoOf(u, v) == InfoOf(w, v)
    ensures Provided(base, w, c)
  {
    hide InfoOf;
    hide Matches;
    var v :| Listed(base, u, v) && Matches(c, InfoOf(u, v));
    assert Listed(base, w, v) && Matches(c, InfoOf(w, v));
  }

  lemma CreatingDone(base: Base, cfg: Config, t: Table, u: Table)
    requires DistinctNames(cfg) && Pruned(base, cfg, t) && Creating(base, cfg, |cfg|, t, u)
    ensures Converged(base, cfg, u)
  {
    forall v | Listed(base, u, v) ensures !ToDelete(cfg, InfoOf(u, v)) {
      if Listed(base, t, v) {
        SameVrfSameInfo(t, u, v);
      } else {
        var j :| 0 <= j < |cfg| && Matches(cfg[j], InfoOf(u, v));
        DeleteComplementsExists(cfg, cfg[j], InfoOf(u, v));
      }
    }
    forall c | c in cfg ensures Provided(base, u, c) {
      var j :| 0 <= j < |cfg| && cfg[j] == c;
    }
  }

  // ---- Ports ----

  /** Every configured fabric VRF was either there before, or created with its own ports. */
  ghost predicate PortsKnown(base: Base, cfg: Config, k: nat, t: Table, u: Table, created: seq<VRFInformation>)
    requires k <= |cfg|
  {
    forall j :: 0 <= j < k && !cfg[j].localOnly ==>
      || (cfg[j] in created && MadeFor(base, u, cfg[j]))
      || (exists v :: Listed(base, t, v) && Matches(cfg[j], InfoOf(t, v)))
  }

  ghost predicate MadeFor(base: Base, u: Table, c: VRFInformation) {
    exists v :: Listed(base, u, v) && HasPortsOf(u, v, c)
  }

  lemma PortsKnownStep(base: Base, cfg: Config, k: nat, t: Table, u: Table, n: int, table: int,
                       created: seq<VRFInformation>)
    requires k < |cfg| && PortsKnown(base, cfg, k, t, u, created)
    requires WellFormed(u, n) && !base.Reserved(cfg[k].name)
    ensures PortsKnown(base, cfg, k + 1, t, WithVrf(u, n, cfg[k], table), created + [cfg[k]])
  {
    var w, more := WithVrf(u, n, cfg[k], table), created + [cfg[k]];
    CreateThenList(u, n, cfg[k], table);
    assert Listed(base, w, n);
    forall j | 0 <= j < k + 1 && !cfg[j].localOnly && !exists v :: Listed(base, t, v) && Matches(cfg[j], InfoOf(t, v))
      ensures cfg[j] in more && MadeFor(base, w, cfg[j])
    {
      if j < k {
        var v :| Listed(base, u, v) && HasPortsOf(u, v, cfg[j]);
        CreateFrame(u, n, cfg[k], table, v);
        SamePortsSameView(u, w, v, cfg[j]);
        assert Listed(base, w, v) && HasPortsOf(w, v, cfg[j]);
      } else {
        assert more[|created|] == cfg[k];
        assert HasPortsOf(w, n, cfg[k]);
      }
    }
  }

  /** The survivors of the delete phase had their ports up. */
  ghost predicate SurvivorsUp(base: Base, cfg: Config, t: Table) {
    forall v, c :: Listed(base, t, v) && c in cfg && !c.localOnly && Matches(c, InfoOf(t, v)) ==> PortsUp(t, v)
  }

  ghost predicate ConfiguredUp(base: Base, cfg: Config, t: Table) {
    forall c :: c in cfg && !c.localOnly ==> exists v :: Listed(base, t, v) && t[v].name == c.name && PortsUp(t, v)
  }
}
