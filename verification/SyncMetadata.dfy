/**
 Labels and annotations of a synced object (controllers/sync/sync_controller.go): the last-applied
 ownership record, kept as two comma-separated annotations, and the three-way merge that uses it.
 */
module SyncMetadata {
  import opened Text
  import opened Strings

  const MANAGED_BY := "network-sync.telekom.com/managed-by"
  const MANAGED_BY_VALUE := "network-sync"
  const SOURCE_NS := "network-sync.telekom.com/source-namespace"
  const SOURCE_GENERATION := "network-sync.telekom.com/source-generation"
  const MANAGED_LABELS := "network-sync.telekom.com/managed-labels"
  const MANAGED_ANNOTATIONS := "network-sync.telekom.com/managed-annotations"
  const LAST_APPLIED := "kubectl.kubernetes.io/last-applied-configuration"

  const GITOPS_PREFIXES := ["kustomize.toolkit.fluxcd.io/", "helm.toolkit.fluxcd.io/", "reconcile.fluxcd.io/"]

  type Keys = map<string, string>

  datatype Meta = Meta(labels: Keys, annotations: Keys)

  /** hasAnyPrefix(k, gitOpsKeyPrefixes) */
  predicate IsGitOps(k: string) {
    exists i :: 0 <= i < |GITOPS_PREFIXES| && GITOPS_PREFIXES[i] <= k
  }

  predicate IsTracking(k: string) {
    k == MANAGED_LABELS || k == MANAGED_ANNOTATIONS
  }

  /** The API server admits no other keys: never empty, never with a comma. */
  predicate ValidKeys(m: Keys) {
    forall k :: k in m ==> k != "" && ',' !in k
  }

  // ---- Building the desired metadata ----

  function StripGitOps(m: Keys): Keys {
    map k | k in m && !IsGitOps(k) :: m[k]
  }

  function ParseKeyList(s: string): seq<string> {
    if s == "" then [] else Split(s)
  }

  function Tracked(m: Keys): set<string> {
    set k | k in m && !IsTracking(k)
  }

  /** recordManagedKeys: the tracking annotations list the other keys and are not listed themselves. */
  function RecordManagedKeys(m: Meta): Meta {
    var plain := m.annotations - {MANAGED_LABELS, MANAGED_ANNOTATIONS};
    m.(annotations := plain[MANAGED_LABELS := Join(Sorted(m.labels.Keys))]
                           [MANAGED_ANNOTATIONS := Join(Sorted(plain.Keys))])
  }

  /** The metadata half of buildRemoteObject. */
  function Desired(source: Meta, namespace: string, generation: int): Meta {
    var labels := StripGitOps(source.labels)[MANAGED_BY := MANAGED_BY_VALUE];
    var annotations := StripGitOps(source.annotations)[SOURCE_NS := namespace][SOURCE_GENERATION := Itoa(generation)];
    RecordManagedKeys(Meta(labels, annotations - {LAST_APPLIED}))
  }

  /** The key lists a previous sync left on the object; absent annotations read as "". */
  function Previous(m: Meta, annotation: string): seq<string> {
    ParseKeyList(if annotation in m.annotations then m.annotations[annotation] else "")
  }

  /** What mergeAndPrune computes. */
  function Merged(existing: Keys, desired: Keys, previous: set<string>): Keys {
    (map k | k in existing && !(k in previous && k !in desired) && !IsGitOps(k) :: existing[k]) + desired
  }

  /** The first two passes of mergeAndPrune: keys that are no longer set are dropped. */
  method DropStale(existing: Keys, desired: Keys, previous: seq<string>) returns (out: Keys)
    ensures out == map k | k in existing && !(k in previous && k !in desired) :: existing[k]
  {
    out := existing;
    for i := 0 to |previous|
      invariant out == map k | k in existing && !(k in previous[..i] && k !in desired) :: existing[k]
    {
      assert previous[..i + 1] == previous[..i] + [previous[i]];
      if previous[i] !in desired {
        out := out - {previous[i]};
      }
    }
    assert previous[..|previous|] == previous;
  }

  /** The third pass: GitOps keys are dropped. */
  method DropGitOps(m: Keys) returns (out: Keys)
    ensures out == StripGitOps(m)
  {
    out := m;
    var rest := m.Keys;
    while rest != {}
      invariant rest <= m.Keys
      invariant out == map k | k in m && (k in rest || !IsGitOps(k)) :: m[k]
      decreases rest
    {
      assert exists k :: k in rest by { var k := Inhabitant(rest); }
      var k :| k in rest;
      if IsGitOps(k) {
        out := out - {k};
      }
      rest := rest - {k};
    }
  }

  /** The last pass: the keys owned now are written. */
  method Overlay(m: Keys, desired: Keys) returns (out: Keys)
    ensures out == m + desired
  {
    out := m;
    var rest := desired.Keys;
    while rest != {}
      invariant rest <= desired.Keys
      invariant out.Keys == m.Keys + (desired.Keys - rest)
      invariant forall k :: k in out ==> out[k] == if k in desired && k !in rest then desired[k] else m[k]
      decreases rest
    {
      assert exists k :: k in rest by { var k := Inhabitant(rest); }
      var k :| k in rest;
      out := out[k := desired[k]];
      rest := rest - {k};
    }
  }

  method MergeAndPrune(existing: Keys, desired: Keys, previous: seq<string>) returns (out: Keys)
    ensures out == Merged(existing, desired, set k | k in previous)
  {
    out := DropStale(existing, desired, previous);
    out := DropGitOps(out);
    out := Overlay(out, desired);
  }

  /** reconcileManagedMetadata */
  function Reconciled(remote: Meta, desired: Meta): Meta {
    Meta(Merged(remote.labels, desired.labels, set k | k in Previous(remote, MANAGED_LABELS)),
         Merged(remote.annotations, desired.annotations, set k | k in Previous(remote, MANAGED_ANNOTATIONS)))
  }

  /** Merging the same keys again changes nothing, if only desired keys are on record. */
  lemma MergedTwice(existing: Keys, desired: Keys, previous: set<string>, record: set<string>)
    requires record <= desired.Keys && forall k :: k in desired ==> !IsGitOps(k)
    ensures Merged(Merged(existing, desired, previous), desired, record) == Merged(existing, desired, previous)
  {
    hide IsGitOps;
  }

  /** With the managed keys on record (or desired again), the merge is desired over foreign. */
  lemma MergedOverlays(remote: Keys, managed: set<string>, desired: Keys, record: set<string>)
    requires record <= managed && managed - record <= desired.Keys
    ensures Merged(remote, desired, record) == Without(Outside(remote, managed), desired.Keys) + desired
  {
    hide IsGitOps;
    var a, b := Merged(remote, desired, record), Without(Outside(remote, managed), desired.Keys) + desired;
    forall k ensures k in a <==> k in b {
      if k in managed && k !in record { assert k in desired.Keys; }
    }
  }

  function Outside(m: Keys, keys: set<string>): Keys {
    map k | k in m && k !in keys :: m[k]
  }

  function Without(m: Keys, keys: set<string>): Keys {
    map k | k in m && k !in keys && !IsGitOps(k) :: m[k]
  }

  // ---- The record survives the round trip through text ----

  /** desired was built by the controller: it carries the record of its own keys. */
  ghost predicate Recorded(m: Meta) {
    && MANAGED_LABELS in m.annotations && m.annotations[MANAGED_LABELS] == Join(Sorted(m.labels.Keys))
    && MANAGED_ANNOTATIONS in m.annotations && m.annotations[MANAGED_ANNOTATIONS] == Join(Sorted(Tracked(m.annotations)))
  }

  /** m carries the record of d. */
  ghost predicate SameRecord(m: Meta, d: Meta) {
    && MANAGED_LABELS in m.annotations && MANAGED_LABELS in d.annotations
    && m.annotations[MANAGED_LABELS] == d.annotations[MANAGED_LABELS]
    && MANAGED_ANNOTATIONS in m.annotations && MANAGED_ANNOTATIONS in d.annotations
    && m.annotations[MANAGED_ANNOTATIONS] == d.annotations[MANAGED_ANNOTATIONS]
  }

  lemma ParsedRecord(keys: set<string>)
    requires keys != {} && forall k :: k in keys ==> k != "" && ',' !in k
    ensures (set k | k in ParseKeyList(Join(Sorted(keys)))) == keys
  {
    var sorted := Sorted(keys);
    var x := Inhabitant(keys);
    assert x in sorted && sorted[0] in keys;
    SplitJoin(sorted);
    assert Join(sorted) != "";
  }

  /** Metadata as the controller builds it: recorded, storable, and free of GitOps keys. */
  ghost predicate Built(m: Meta) {
    && Recorded(m) && GoodKeys(m.labels) && GoodKeys(m.annotations)
    && MANAGED_BY in m.labels && m.labels[MANAGED_BY] == MANAGED_BY_VALUE
    && SOURCE_GENERATION in m.annotations && SOURCE_NS in m.annotations
  }

  /** A key that may stand on a synced object. */
  predicate Good(k: string) {
    k != "" && ',' !in k && !IsGitOps(k)
  }

  predicate GoodKeys(m: Keys) {
    forall k :: k in m ==> Good(k)
  }

  lemma StrippedIsGood(m: Keys)
    requires ValidKeys(m)
    ensures GoodKeys(StripGitOps(m))
  {
    hide IsGitOps;
  }

  lemma PutIsGood(m: Keys, k: string, v: string)
    requires GoodKeys(m) && Good(k)
    ensures GoodKeys(m[k := v])
  {
    hide Good;
  }

  /** Labels and annotations of the source are carried over as they are, GitOps keys and the system annotation aside. */
  lemma DesiredCarries(source: Meta, namespace: string, generation: int)
    ensures var d := Desired(source, namespace, generation);
            && (forall k :: k in d.labels <==> k == MANAGED_BY || (k in source.labels && !IsGitOps(k)))
            && (forall k :: k in source.labels && !IsGitOps(k) && k != MANAGED_BY ==> d.labels[k] == source.labels[k])
            && (forall k :: k in d.annotations <==>
                  k in {SOURCE_NS, SOURCE_GENERATION, MANAGED_LABELS, MANAGED_ANNOTATIONS}
                  || (k in source.annotations && !IsGitOps(k) && k != LAST_APPLIED))
            && (forall k :: k in source.annotations && !IsGitOps(k) && k != LAST_APPLIED
                            && k !in {SOURCE_NS, SOURCE_GENERATION, MANAGED_LABELS, MANAGED_ANNOTATIONS} ==>
                  d.annotations[k] == source.annotations[k])
            && d.labels[MANAGED_BY] == MANAGED_BY_VALUE
            && d.annotations[SOURCE_NS] == namespace && d.annotations[SOURCE_GENERATION] == Itoa(generation)
  {
    LabelsCarry(source, namespace, generation);
    AnnotationsCarry(source, namespace, generation);
    hide *;
  }

  lemma LabelsCarry(source: Meta, namespace: string, generation: int)
    ensures var d := Desired(source, namespace, generation).labels;
            && (forall k :: k in d <==> k == MANAGED_BY || (k in source.labels && !IsGitOps(k)))
            && (forall k :: k in source.labels && !IsGitOps(k) && k != MANAGED_BY ==> d[k] == source.labels[k])
            && d[MANAGED_BY] == MANAGED_BY_VALUE
  {
    hide IsGitOps;
    hide Itoa;
    hide MANAGED_BY;
    hide MANAGED_BY_VALUE;
  }

  lemma RecordedKeys(m: Meta)
    ensures var r := RecordManagedKeys(m).annotations;
            && (forall k :: k in r <==> k in {MANAGED_LABELS, MANAGED_ANNOTATIONS} || k in m.annotations)
            && (forall k :: k in m.annotations && k !in {MANAGED_LABELS, MANAGED_ANNOTATIONS} ==> r[k] == m.annotations[k])
  {
    hide MANAGED_LABELS;
    hide MANAGED_ANNOTATIONS;
  }

  lemma AnnotationsCarry(source: Meta, namespace: string, generation: int)
    ensures var d := Desired(source, namespace, generation).annotations;
            && (forall k :: k in d <==> k in {SOURCE_NS, SOURCE_GENERATION, MANAGED_LABELS, MANAGED_ANNOTATIONS}
                                        || (k in source.annotations && !IsGitOps(k) && k != LAST_APPLIED))
            && (forall k :: k in source.annotations && !IsGitOps(k) && k != LAST_APPLIED
                            && k !in {SOURCE_NS, SOURCE_GENERATION, MANAGED_LABELS, MANAGED_ANNOTATIONS} ==>
                  d[k] == source.annotations[k])
            && d[SOURCE_NS] == namespace && d[SOURCE_GENERATION] == Itoa(generation)
  {
    OwnKeysAreValid();
    OwnKeysAreGood();
    hide MANAGED_BY;
    hide MANAGED_BY_VALUE;
    hide SOURCE_NS;
    hide SOURCE_GENERATION;
    hide MANAGED_LABELS;
    hide MANAGED_ANNOTATIONS;
    hide LAST_APPLIED;
    hide IsGitOps;
    hide Itoa;
    hide Good;
    var labels := StripGitOps(source.labels)[MANAGED_BY := MANAGED_BY_VALUE];
    var annotations := StripGitOps(source.annotations)[SOURCE_NS := namespace][SOURCE_GENERATION := Itoa(generation)] - {LAST_APPLIED};
    assert Desired(source, namespace, generation) == RecordManagedKeys(Meta(labels, annotations));
    hide RecordManagedKeys;
    RecordedKeys(Meta(labels, annotations));
  }

  lemma DesiredIsBuilt(source: Meta, namespace: string, generation: int)
    requires ValidKeys(source.labels) && ValidKeys(source.annotations)
    ensures Built(Desired(source, namespace, generation))
    ensures Desired(source, namespace, generation).annotations[SOURCE_GENERATION] == Itoa(generation)
    ensures Desired(source, namespace, generation).annotations[SOURCE_NS] == namespace
  {
    OwnKeysAreValid();
    OwnKeysAreGood();
    hide IsGitOps;
    hide IsTracking;
    hide Good;
    hide StripGitOps;
    hide MANAGED_BY;
    hide MANAGED_BY_VALUE;
    hide SOURCE_NS;
    hide SOURCE_GENERATION;
    hide MANAGED_LABELS;
    hide MANAGED_ANNOTATIONS;
    hide LAST_APPLIED;
    StrippedIsGood(source.labels);
    StrippedIsGood(source.annotations);
    var labels := StripGitOps(source.labels)[MANAGED_BY := MANAGED_BY_VALUE];
    var annotations := StripGitOps(source.annotations)[SOURCE_NS := namespace][SOURCE_GENERATION := Itoa(generation)] - {LAST_APPLIED};
    PutIsGood(StripGitOps(source.labels), MANAGED_BY, MANAGED_BY_VALUE);
    MarkedIsGood(StripGitOps(source.annotations), SOURCE_NS, namespace, SOURCE_GENERATION, Itoa(generation), LAST_APPLIED);
    RecordIsBuilt(Meta(labels, annotations));
  }

  lemma OwnKeysAreGood()
    ensures Good(MANAGED_BY) && Good(SOURCE_NS) && Good(SOURCE_GENERATION)
    ensures SOURCE_NS != LAST_APPLIED && SOURCE_GENERATION != LAST_APPLIED
  {
    OwnKeysAreValid();
    hide IsGitOps;
    var own := [MANAGED_BY, SOURCE_NS, SOURCE_GENERATION, MANAGED_LABELS, MANAGED_ANNOTATIONS];
    assert own[0] in own && own[1] in own && own[2] in own;
  }

  lemma MarkedIsGood(m: Keys, a: string, va: string, b: string, vb: string, drop: string)
    requires GoodKeys(m) && Good(a) && Good(b) && a != b && drop != a && drop != b
    ensures var r := m[a := va][b := vb] - {drop};
            GoodKeys(r) && a in r && r[a] == va && b in r && r[b] == vb
  {
    hide Good;
  }

  /** Recording good metadata that carries the controller's marks completes it. */
  lemma RecordIsBuilt(m: Meta)
    requires GoodKeys(m.labels) && GoodKeys(m.annotations)
    requires MANAGED_BY in m.labels && m.labels[MANAGED_BY] == MANAGED_BY_VALUE
    requires SOURCE_GENERATION in m.annotations && SOURCE_NS in m.annotations
    ensures Built(RecordManagedKeys(m))
    ensures RecordManagedKeys(m).annotations[SOURCE_GENERATION] == m.annotations[SOURCE_GENERATION]
    ensures RecordManagedKeys(m).annotations[SOURCE_NS] == m.annotations[SOURCE_NS]
  {
    RecordsOwnKeys(m);
    TrackingKeysAreGood();
    OwnKeysAreValid();
    hide IsGitOps;
    hide Recorded;
    hide RecordManagedKeys;
    hide IsTracking;
    var r := RecordManagedKeys(m);
    forall k | k in r.annotations ensures Good(k) {
    }
  }

  lemma TrackingKeysAreGood()
    ensures forall k :: IsTracking(k) ==> Good(k)
  {
    OwnKeysAreValid();
    hide IsGitOps;
    assert MANAGED_LABELS in [MANAGED_BY, SOURCE_NS, SOURCE_GENERATION, MANAGED_LABELS, MANAGED_ANNOTATIONS];
  }

  /** Recording keeps every key and value and adds the two tracking annotations. */
  lemma RecordsOwnKeys(m: Meta)
    ensures Recorded(RecordManagedKeys(m))
    ensures RecordManagedKeys(m).labels == m.labels
    ensures forall k :: k in RecordManagedKeys(m).annotations ==>
              IsTracking(k) || (k in m.annotations && RecordManagedKeys(m).annotations[k] == m.annotations[k])
    ensures forall k :: k in m.annotations ==> k in RecordManagedKeys(m).annotations
  {
    OwnKeysAreValid();
    var plain := m.annotations - {MANAGED_LABELS, MANAGED_ANNOTATIONS};
    assert Tracked(RecordManagedKeys(m).annotations) == plain.Keys;
  }

  lemma OwnKeysAreValid()
    ensures forall k :: k in [MANAGED_BY, SOURCE_NS, SOURCE_GENERATION, MANAGED_LABELS, MANAGED_ANNOTATIONS] ==>
              k != "" && ',' !in k && !IsGitOps(k) && k != LAST_APPLIED
    ensures MANAGED_LABELS != MANAGED_ANNOTATIONS
    ensures SOURCE_GENERATION != SOURCE_NS && !IsTracking(SOURCE_GENERATION) && !IsTracking(SOURCE_NS)
  {
    var own := [MANAGED_BY, SOURCE_NS, SOURCE_GENERATION, MANAGED_LABELS, MANAGED_ANNOTATIONS];
    forall k | k in own ensures k != "" && !IsGitOps(k) && k != LAST_APPLIED {
      assert k[0] == 'n' && |k| < |LAST_APPLIED|;
      NotGitOps(k);
    }
    hide IsGitOps;
  }

  /** The controller's keys start with another letter than any GitOps prefix. */
  lemma NotGitOps(k: string)
    requires k != "" && k[0] == 'n'
    ensures !IsGitOps(k)
  {
    forall i | 0 <= i < |GITOPS_PREFIXES| ensures !(GITOPS_PREFIXES[i] <= k) {
      assert GITOPS_PREFIXES[i][0] != 'n';
    }
  }

  /** The lists read back from built metadata are its keys. */
  lemma PreviousOfBuilt(m: Meta, d: Meta)
    requires Built(d)
    requires SameRecord(m, d)
    ensures (set k | k in Previous(m, MANAGED_LABELS)) == d.labels.Keys
    ensures (set k | k in Previous(m, MANAGED_ANNOTATIONS)) == Tracked(d.annotations)
  {
    OwnKeysAreValid();
    assert IsTracking(MANAGED_LABELS) && IsTracking(MANAGED_ANNOTATIONS);
    assert MANAGED_BY in d.labels.Keys;
    ParsedRecord(d.labels.Keys);
    assert SOURCE_NS in Tracked(d.annotations);
    ParsedRecord(Tracked(d.annotations));
  }

  /** Syncing the same desired metadata again changes nothing, whatever was on the object before. */
  lemma ReconcileTwice(m: Meta, d: Meta)
    requires Built(d)
    ensures Reconciled(Reconciled(m, d), d) == Reconciled(m, d)
  {
    hide IsGitOps;
    hide Merged;
    hide Previous;
    hide Recorded;
    hide ValidKeys;
    var r := Reconciled(m, d);
    ReconciledRecord(m, d);
    PreviousOfBuilt(r, d);
    MergedTwice(m.labels, d.labels, (set k | k in Previous(m, MANAGED_LABELS)), d.labels.Keys);
    MergedTwice(m.annotations, d.annotations, (set k | k in Previous(m, MANAGED_ANNOTATIONS)), Tracked(d.annotations));
  }

  /** Nor does syncing what was just created. */
  lemma ReconcileOwn(d: Meta)
    requires Built(d)
    ensures Reconciled(d, d) == d
  {
    hide IsGitOps;
    hide Previous;
    hide Recorded;
    hide ValidKeys;
    hide SameRecord;
    RecordedInItself(d);
    PreviousOfBuilt(d, d);
    MergedOwn(d.labels, d.labels.Keys);
    MergedOwn(d.annotations, Tracked(d.annotations));
  }

  lemma MergedOwn(d: Keys, record: set<string>)
    requires record <= d.Keys && forall k :: k in d ==> !IsGitOps(k)
    ensures Merged(d, d, record) == d
  {
    hide IsGitOps;
  }

  lemma ReconciledRecord(m: Meta, d: Meta)
    requires Built(d)
    ensures SameRecord(Reconciled(m, d), d)
  {
    hide IsGitOps;
    hide Previous;
    assert forall k :: k in d.annotations ==> k in Reconciled(m, d).annotations && Reconciled(m, d).annotations[k] == d.annotations[k];
  }

  // ---- Runs of syncs and foreign edits ----

  datatype Op =
    | Sync(desired: Meta)      // one pass of the controller
    | Edit(result: Meta)       // any other actor rewrites labels and annotations

  /** The remote metadata, beside the two layers it should consist of. */
  datatype Layers = Layers(remote: Meta, foreign: Meta, managed: Meta)

  /** Foreign edits leave the tracking annotations alone; the controller syncs what it built. */
  ghost predicate Admissible(s: Layers, op: Op) {
    match op
    case Sync(d) => Built(d)
    case Edit(m) => SameRecord(m, s.remote)
  }

  /** applyRemote touches an object only while it carries the managed-by label. */
  predicate Ours(m: Meta) {
    MANAGED_BY in m.labels && m.labels[MANAGED_BY] == MANAGED_BY_VALUE
  }

  /** The layers follow ownership alone: no text is parsed here. */
  function Next(s: Layers, op: Op): Layers {
    match op
    case Sync(d) =>
      if !Ours(s.remote) then s
      else Layers(Reconciled(s.remote, d),
                  Meta(Without(s.foreign.labels, d.labels.Keys), Without(s.foreign.annotations, d.annotations.Keys)), d)
    case Edit(m) =>
      Layers(m, Meta(Outside(m.labels, s.managed.labels.Keys), Outside(m.annotations, s.managed.annotations.Keys)), s.managed)
  }

  /** Outside the managed keys the remote is the foreign layer, and the record is that of the managed layer. */
  ghost predicate Tracks(s: Layers) {
    && Built(s.managed)
    && SameRecord(s.remote, s.managed)
    && s.foreign == Meta(Outside(s.remote.labels, s.managed.labels.Keys),
                         Outside(s.remote.annotations, s.managed.annotations.Keys))
  }

  /** After a sync the remote is exactly the foreign layer under the desired one. */
  lemma SyncOverlays(s: Layers, d: Meta)
    requires Tracks(s) && Built(d) && Ours(s.remote)
    ensures var n := Next(s, Sync(d));
            && n.remote.labels == n.foreign.labels + d.labels
            && n.remote.annotations == n.foreign.annotations + d.annotations
            && Tracks(n)
  {
    hide IsGitOps;
    hide Previous;
    hide Merged;
    hide Built;
    hide SameRecord;
    var n := Next(s, Sync(d));
    PreviousOfBuilt(s.remote, s.managed);
    TrackingKeysManaged(s.managed, d);
    MergedOverlays(s.remote.labels, s.managed.labels.Keys, d.labels, s.managed.labels.Keys);
    MergedOverlays(s.remote.annotations, s.managed.annotations.Keys, d.annotations, Tracked(s.managed.annotations));
    ReconciledRecord(s.remote, d);
    assert n.foreign.labels == Outside(n.remote.labels, d.labels.Keys);
    assert n.foreign.annotations == Outside(n.remote.annotations, d.annotations.Keys);
  }

  lemma TrackingKeysManaged(m: Meta, d: Meta)
    requires Built(d)
    ensures m.annotations.Keys - Tracked(m.annotations) <= d.annotations.Keys
  {
    hide IsGitOps;
  }

  lemma NextTracks(s: Layers, op: Op)
    requires Tracks(s) && Admissible(s, op)
    ensures Tracks(Next(s, op))
  {
    if op.Sync? && Ours(s.remote) {
      SyncOverlays(s, op.desired);
    }
  }

  ghost predicate AdmissibleRun(s: Layers, ops: seq<Op>)
    decreases |ops|
  {
    ops == [] || (Admissible(s, ops[0]) && AdmissibleRun(Next(s, ops[0]), ops[1..]))
  }

  function Run(s: Layers, ops: seq<Op>): Layers
    decreases |ops|
  {
    if ops == [] then s else Run(Next(s, ops[0]), ops[1..])
  }

  /** The object as Create leaves it. */
  function Created(d: Meta): Layers {
    Layers(d, Meta(map[], map[]), d)
  }

  lemma CreatedTracks(d: Meta)
    requires Built(d)
    ensures Tracks(Created(d))
  {
    hide Built;
    hide SameRecord;
    hide Outside;
    RecordedInItself(d);
    NothingOutside(d.labels);
    NothingOutside(d.annotations);
  }

  lemma RecordedInItself(d: Meta)
    requires Built(d)
    ensures SameRecord(d, d)
  {
    hide IsGitOps;
  }

  lemma NothingOutside(m: Keys)
    ensures Outside(m, m.Keys) == map[]
  {
  }

  lemma {:induction false} RunTracks(s: Layers, ops: seq<Op>)
    requires Tracks(s) && AdmissibleRun(s, ops)
    ensures Tracks(Run(s, ops))
    decreases |ops|
  {
    if ops != [] {
      NextTracks(s, ops[0]);
      RunTracks(Next(s, ops[0]), ops[1..]);
    }
  }

  /**
   After any run of syncs and foreign edits, a sync leaves the desired keys over the foreign keys:
   no GitOps key, and no key that the previous sync set and this one does not.
   */
  lemma SyncAfterAnyRun(first: Meta, ops: seq<Op>, d: Meta)
    requires Built(first) && Built(d) && AdmissibleRun(Created(first), ops)
    requires Ours(Run(Created(first), ops).remote)
    ensures var s := Run(Created(first), ops);
            var r := Next(s, Sync(d)).remote;
            && r.labels == Without(s.foreign.labels, d.labels.Keys) + d.labels
            && r.annotations == Without(s.foreign.annotations, d.annotations.Keys) + d.annotations
            && (forall k :: k in r.labels ==> !IsGitOps(k))
            && (forall k :: k in r.annotations ==> !IsGitOps(k))
            && (forall k :: k in s.managed.labels && k !in d.labels ==> k !in r.labels)
            && (forall k :: k in s.managed.annotations && k !in d.annotations ==> k !in r.annotations)
            && Reconciled(r, d) == r
  {
    hide IsGitOps;
    hide Reconciled;
    hide Recorded;
    hide ValidKeys;
    hide SameRecord;
    hide Run;
    hide AdmissibleRun;
    CreatedTracks(first);
    RunTracks(Created(first), ops);
    var s := Run(Created(first), ops);
    SyncOverlays(s, d);
    ReconcileTwice(s.remote, d);
  }
}
