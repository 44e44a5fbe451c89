/**
 The two-cluster sync protocol (controllers/sync/sync_controller.go) for one intent object: the
 management object, its copy on the workload cluster, and the controller between them. Every step is
 one API call of one actor, the controller may stop between any two calls, and the histories record
 which specs were pushed and what the workload compiler made of them.
 */
module SyncProtocol {
  import opened Text
  import opened SyncMetadata

  const READY := "Ready"
  const RESOLVED := "Resolved"
  const MAX_RETRIES := 3

  // ---- Objects ----

  datatype Kind = VRF | Network | Destination | Layer2Attachment | Inbound | Outbound | PodNetwork | BGPPeering
                | Collector | TrafficMirror | AnnouncementPolicy | NodeAttachment | InterfaceConfig

  datatype Truth = True | False | Unknown

  datatype Condition = Condition(status: Truth, reason: string, message: string, observed: nat)

  type Conditions = map<string, Condition>

  /** An address as text: a bare host of either family, one with a prefix length, or neither. */
  datatype Entry = Host4(ip: string) | Host6(ip: string) | Prefixed(ip: string, length: nat) | Malformed(text: string)

  datatype Allocation = Allocation(v4: seq<Entry>, v6: seq<Entry>)

  /** The status fields the workload compiler derives. */
  datatype Derived = Derived(networkIPv4: string, networkIPv6: string, vrfs: seq<string>)

  /** The status fields the management cluster owns. */
  datatype Owned = Owned(addresses: Option<Allocation>, other: string)

  datatype Status = Status(conditions: Conditions, owned: Owned, derived: Derived)

  datatype Spec = Spec(addresses: Option<Allocation>, count: Option<nat>, rest: string)

  datatype Mgmt = Mgmt(uid: nat, version: nat, generation: nat, meta: Meta, spec: Spec,
                       finalizer: bool, finalizers: set<string>, deleting: bool, status: Status)

  datatype Copy = Copy(generation: nat, meta: Meta, spec: Spec, finalizers: set<string>, deleting: bool,
                       conditions: Conditions, derived: Derived, observed: nat)

  const NO_DERIVED := Derived("", "", [])
  const NO_STATUS := Status(map[], Owned(None, ""), NO_DERIVED)

  function SourceGeneration(m: Meta): Option<string> {
    if SOURCE_GENERATION in m.annotations then Some(m.annotations[SOURCE_GENERATION]) else None
  }

  // ---- The controller's computations ----

  /** toHostCIDR: a bare host gets its full prefix length; anything else stays. */
  function HostCidr(e: Entry): Entry {
    match e
    case Host4(ip) => Prefixed(ip, 32)
    case Host6(ip) => Prefixed(ip, 128)
    case _ => e
  }

  function HostCidrs(es: seq<Entry>): seq<Entry> {
    seq(|es|, i requires 0 <= i < |es| => HostCidr(es[i]))
  }

  /** hostCIDRAllocation */
  function HostCidrAllocation(a: Allocation): Allocation {
    Allocation(HostCidrs(a.v4), HostCidrs(a.v6))
  }

  /** Order and number are kept, what was a CIDR stays, no bare host is left, and doing it again changes nothing. */
  lemma HostCidrsNormalise(es: seq<Entry>)
    ensures |HostCidrs(es)| == |es| && HostCidrs(HostCidrs(es)) == HostCidrs(es)
    ensures forall i :: 0 <= i < |es| ==>
              && (es[i].Prefixed? || es[i].Malformed? ==> HostCidrs(es)[i] == es[i])
              && (es[i].Host4? ==> HostCidrs(es)[i] == Prefixed(es[i].ip, 32))
              && (es[i].Host6? ==> HostCidrs(es)[i] == Prefixed(es[i].ip, 128))
  {
    assert forall i :: 0 <= i < |es| ==> HostCidrs(HostCidrs(es))[i] == HostCidrs(es)[i];
  }

  /** No bare host among the addresses, so each one has a prefix length or was malformed to begin with. */
  predicate AllCidr(a: Allocation) {
    forall e :: e in a.v4 + a.v6 ==> !e.Host4? && !e.Host6?
  }

  /** r is e as a routed host: /32 or /128 behind a bare host, anything else as it was. */
  predicate Routed(e: Entry, r: Entry) {
    if e.Host4? then r == Prefixed(e.ip, 32) else if e.Host6? then r == Prefixed(e.ip, 128) else r == e
  }

  predicate AllRouted(es: seq<Entry>, rs: seq<Entry>) {
    |rs| == |es| && forall i :: 0 <= i < |es| ==> Routed(es[i], rs[i])
  }

  /** What is promoted is what was allocated in this pass, or else what the status holds, one entry for each. */
  lemma PromotesAllocated(kind: Kind, spec: Spec, own: Option<Allocation>, granted: Option<Allocation>)
    requires (kind.Inbound? || kind.Outbound?) && spec.addresses.None?
    ensures var r := Promote(kind, spec, own, granted).addresses;
            && (granted.Some? ==> if granted.value.v4 == [] && granted.value.v6 == [] then r.None?
                else r.Some? && AllRouted(granted.value.v4, r.value.v4) && AllRouted(granted.value.v6, r.value.v6))
            && (granted.None? && own.Some? ==> if own.value.v4 == [] && own.value.v6 == [] then r.None?
                else r.Some? && AllRouted(own.value.v4, r.value.v4) && AllRouted(own.value.v6, r.value.v6))
            && (granted.None? && own.None? ==> r.None?)
  {
  }

  /** hasAddresses */
  predicate HasAddresses(a: Option<Allocation>) {
    a.Some? && (a.value.v4 != [] || a.value.v6 != [])
  }

  /** promoteIPAMAddresses, with the addresses allocated in this pass taking precedence. */
  function Promote(kind: Kind, spec: Spec, own: Option<Allocation>, granted: Option<Allocation>): (r: Spec)
    ensures r == spec <==> spec.addresses.Some? || !(kind.Inbound? || kind.Outbound?)
                           || !HasAddresses(if granted.Some? then granted else own)
    ensures r != spec ==> HasAddresses(r.addresses) && AllCidr(r.addresses.value) && r.count.None? && r.rest == spec.rest
  {
    var addresses := if granted.Some? then granted else own;
    if (kind.Inbound? || kind.Outbound?) && spec.addresses.None? && HasAddresses(addresses) then
      spec.(addresses := Some(HostCidrAllocation(addresses.value)), count := None)
    else spec
  }

  predicate Mirrored(t: string) {
    t == READY || t == RESOLVED
  }

  /** What syncObjectStatusBack takes from the copy before it writes. */
  datatype Seen = Seen(conditions: Conditions, derived: Derived, caughtUp: bool, generation: nat)

  /** workloadCaughtUp */
  predicate CaughtUp(copy: Copy, generation: nat) {
    SourceGeneration(copy.meta) == Some(Itoa(generation)) && copy.observed == copy.generation
  }

  function Progressing(t: string, generation: nat): Condition {
    Condition(if t == READY then False else Unknown, "Progressing",
              "Workload cluster has not yet observed the latest synced spec", generation)
  }

  /** desiredMirroredConditions */
  function DesiredConditions(seen: Seen): Conditions {
    if !seen.caughtUp then map t | t in {READY, RESOLVED} :: Progressing(t, seen.generation)
    else map t | t in seen.conditions && Mirrored(t) :: seen.conditions[t].(observed := seen.generation)
  }

  function MirrorDerived(kind: Kind, was: Derived, copy: Derived): Derived {
    match kind
    case Layer2Attachment | PodNetwork => copy
    case Inbound | Outbound | BGPPeering | NodeAttachment => was.(vrfs := copy.vrfs)
    case _ => was
  }

  /** The closure given to updateStatusWithRetry. */
  function MirrorStatus(kind: Kind, status: Status, seen: Seen): Status {
    Status(status.conditions + DesiredConditions(seen), status.owned,
           if seen.caughtUp then MirrorDerived(kind, status.derived, seen.derived) else status.derived)
  }

  /** The merge patch from before to after, applied to current. */
  function PatchKeys(before: Keys, after: Keys, current: Keys): Keys {
    (map k | k in current && !(k in before && k !in after) :: current[k])
    + map k | k in after && (k !in before || before[k] != after[k]) :: after[k]
  }

  function PatchMeta(before: Meta, after: Meta, current: Meta): Meta {
    Meta(PatchKeys(before.labels, after.labels, current.labels),
         PatchKeys(before.annotations, after.annotations, current.annotations))
  }

  // ---- States and steps ----

  datatype Control =
    | Idle
    | Listed(obj: Mgmt, granted: Option<Allocation>)
    | Deleted(obj: Mgmt)                                                          // deleteRemote returned
    | Marked(obj: Mgmt, granted: Option<Allocation>)                            // the finalizer is in place
    | Fetched(obj: Mgmt, granted: Option<Allocation>, existing: Option<Copy>)  // applyRemote read the copy
    | Applied(obj: Mgmt)                                                          // the forward pass is done
    | Mirroring(obj: Mgmt, seen: Seen, attempt: nat)
    | Conflicted(obj: Mgmt, seen: Seen, attempt: nat)

  datatype Push = Push(uid: nat, generation: nat, spec: Spec)
  datatype Compilation = Compilation(spec: Spec, conditions: Conditions, derived: Derived)

  datatype State = State(kind: Kind, namespace: string, mgmt: Option<Mgmt>, copy: Option<Copy>, control: Control,
                         clock: nat, pushed: set<Push>, compiled: set<Compilation>, origin: Push)

  datatype Step =
    // users and other controllers on the management cluster
    | UserCreate(meta: Meta, spec: Spec, finalizer: bool, finalizers: set<string>)
    | UserEdit(meta: Meta, spec: Spec, finalizer: bool, finalizers: set<string>)
    | UserDelete
    | OwnerWrite(owned: Owned, conditions: Conditions)
    // anyone on the workload cluster
    | CopyCreate(meta: Meta, spec: Spec, finalizers: set<string>)
    | CopyEdit(meta: Meta, finalizers: set<string>)
    | CopyDelete
    | Compile(conditions: Conditions, derived: Derived)
    // the sync controller
    | List(granted: Option<Allocation>)
    | DeleteRemote
    | RemoveFinalizer
    | AddFinalizer
    | FetchRemote
    | ApplyRemote
    | ReadBack
    | WriteStatus
    | Refetch
    | Stop       // a crash, or a call that failed without effect

  predicate ByController(step: Step) {
    step.List? || step.DeleteRemote? || step.RemoveFinalizer? || step.AddFinalizer? || step.FetchRemote?
    || step.ApplyRemote? || step.ReadBack? || step.WriteStatus? || step.Refetch? || step.Stop?
  }

  /** An object being deleted disappears with its last finalizer. */
  function Store(s: State, m: Mgmt): State {
    s.(mgmt := if m.deleting && !m.finalizer && m.finalizers == {} then None else Some(m.(version := s.clock)),
       clock := s.clock + 1)
  }

  function StoreCopy(s: State, c: Copy): State {
    s.(copy := if c.deleting && c.finalizers == {} then None else Some(c))
  }

  function Create(s: State, step: Step): State
    requires step.UserCreate?
  {
    if s.mgmt.Some? then s
    else Store(s, Mgmt(s.clock, s.clock, 1, step.meta, step.spec, step.finalizer, step.finalizers, false, NO_STATUS))
  }

  function Edit(s: State, step: Step): State
    requires step.UserEdit?
  {
    if s.mgmt.None? then s
    else
      var m := s.mgmt.value;
      Store(s, m.(meta := step.meta, spec := step.spec, finalizers := step.finalizers,
                  finalizer := m.finalizer || step.finalizer,
                  generation := if m.spec == step.spec then m.generation else m.generation + 1))
  }

  function MarkDeleted(s: State): State {
    if s.mgmt.None? || s.mgmt.value.deleting then s
    else Store(s, s.mgmt.value.(deleting := true, generation := s.mgmt.value.generation + 1))
  }

  function OwnStatus(s: State, step: Step): State
    requires step.OwnerWrite?
  {
    if s.mgmt.None? then s
    else
      var m := s.mgmt.value;
      var conditions := (map t | t in step.conditions && !Mirrored(t) :: step.conditions[t])
                        + map t | t in m.status.conditions && Mirrored(t) :: m.status.conditions[t];
      Store(s, m.(status := Status(conditions, step.owned, m.status.derived)))
  }

  function Compiled(s: State, step: Step): State
    requires step.Compile?
  {
    if s.copy.None? then s
    else
      var c := s.copy.value;
      s.(copy := Some(c.(conditions := step.conditions, derived := step.derived, observed := c.generation)),
         compiled := s.compiled + {Compilation(c.spec, step.conditions, step.derived)})
  }

  /** The deletion branch of syncObject up to the remote call. */
  function DoDelete(s: State): State {
    if !s.control.Listed? || !s.control.obj.deleting then s
    else if !s.control.obj.finalizer then s.(control := Idle)
    else
      var t := if s.copy.None? then s else StoreCopy(s, s.copy.value.(deleting := true));
      t.(control := Deleted(s.control.obj))
  }

  /** Updates carry the resource version that was read. */
  predicate Current(s: State, obj: Mgmt) {
    s.mgmt.Some? && s.mgmt.value.version == obj.version
  }

  function DoRelease(s: State): State {
    if !s.control.Deleted? then s
    else if !Current(s, s.control.obj) then s.(control := Idle)
    else Store(s, s.control.obj.(finalizer := false)).(control := Idle)
  }

  function DoMark(s: State): State {
    if !s.control.Listed? || s.control.obj.deleting then s
    else if s.control.obj.finalizer then s.(control := Marked(s.control.obj, s.control.granted))
    else if !Current(s, s.control.obj) then s.(control := Idle)
    else
      var t := Store(s, s.control.obj.(finalizer := true));
      t.(control := Marked(t.mgmt.value, s.control.granted))
  }

  /** What buildRemoteObject asks for. */
  function DesiredMeta(s: State, obj: Mgmt): Meta {
    Desired(obj.meta, s.namespace, obj.generation)
  }

  function DesiredSpec(s: State, obj: Mgmt, granted: Option<Allocation>): Spec {
    Promote(s.kind, obj.spec, obj.status.owned.addresses, granted)
  }

  function Pushed(s: State, copy: Copy, obj: Mgmt, granted: Option<Allocation>): State {
    var push := Push(obj.uid, obj.generation, DesiredSpec(s, obj, granted));
    s.(copy := Some(copy), pushed := s.pushed + {push}, origin := push, control := Applied(obj))
  }

  /** applyRemote after its Get: create, refuse, or patch what differs from the object that was read. */
  function DoApply(s: State): State {
    if !s.control.Fetched? then s
    else
      var obj := s.control.obj;
      var meta, spec := DesiredMeta(s, obj), DesiredSpec(s, obj, s.control.granted);
      match s.control.existing
      case None =>
        if s.copy.Some? then s.(control := Idle)
        else Pushed(s, Copy(1, meta, spec, {}, false, map[], NO_DERIVED, 0), obj, s.control.granted)
      case Some(e) =>
        if !Ours(e.meta) || s.copy.None? then s.(control := Idle)
        else
          var c := s.copy.value;
          var body := if spec == e.spec then c.spec else spec;
          Pushed(s, c.(meta := PatchMeta(e.meta, Reconciled(e.meta, meta), c.meta), spec := body,
                       generation := if body == c.spec then c.generation else c.generation + 1),
                 obj, s.control.granted)
  }

  function DoReadBack(s: State): State {
    if !s.control.Applied? then s
    else if s.copy.None? then s.(control := Idle)
    else
      var c, obj := s.copy.value, s.control.obj;
      s.(control := Mirroring(obj, Seen(c.conditions, c.derived, CaughtUp(c, obj.generation), obj.generation), 0))
  }

  /** One round of updateStatusWithRetry up to its status update. */
  function DoWrite(s: State): State {
    if !s.control.Mirroring? then s
    else
      var obj, status := s.control.obj, MirrorStatus(s.kind, s.control.obj.status, s.control.seen);
      if status == obj.status || s.mgmt.None? then s.(control := Idle)
      else if Current(s, obj) then Store(s, s.mgmt.value.(status := status)).(control := Idle)
      else s.(control := Conflicted(obj, s.control.seen, s.control.attempt))
  }

  function DoRefetch(s: State): State {
    if !s.control.Conflicted? then s
    else if s.mgmt.None? || s.control.attempt + 1 >= MAX_RETRIES then s.(control := Idle)
    else s.(control := Mirroring(s.mgmt.value, s.control.seen, s.control.attempt + 1))
  }

  function Next(s: State, step: Step): State {
    match step
    case UserCreate(_, _, _, _) => Create(s, step)
    case UserEdit(_, _, _, _) => Edit(s, step)
    case UserDelete => MarkDeleted(s)
    case OwnerWrite(_, _) => OwnStatus(s, step)
    case CopyCreate(meta, spec, finalizers) =>
      if s.copy.Some? then s else s.(copy := Some(Copy(1, meta, spec, finalizers, false, map[], NO_DERIVED, 0)))
    case CopyEdit(meta, finalizers) =>
      if s.copy.None? then s else StoreCopy(s, s.copy.value.(meta := meta, finalizers := finalizers))
    case CopyDelete =>
      if s.copy.None? then s else StoreCopy(s, s.copy.value.(deleting := true))
    case Compile(_, _) => Compiled(s, step)
    case List(granted) =>
      if s.control.Idle? && s.mgmt.Some? then s.(control := Listed(s.mgmt.value, granted)) else s
    case DeleteRemote => DoDelete(s)
    case RemoveFinalizer => DoRelease(s)
    case AddFinalizer => DoMark(s)
    case FetchRemote =>
      if s.control.Marked? then s.(control := Fetched(s.control.obj, s.control.granted, s.copy)) else s
    case ApplyRemote => DoApply(s)
    case ReadBack => DoReadBack(s)
    case WriteStatus => DoWrite(s)
    case Refetch => DoRefetch(s)
    case Stop => s.(control := Idle)
  }

  /**
   What the protocol needs of its environment: nobody else claims a copy as managed or forges its source
   generation, and nobody replaces the copy between the controller's read and its patch.
   */
  predicate Civil(s: State, step: Step) {
    match step
    case CopyCreate(meta, _, _) =>
      !Ours(meta) && SourceGeneration(meta).None? && !(s.control.Fetched? && s.control.existing.Some?)
    case CopyEdit(meta, _) =>
      s.copy.Some? ==> (Ours(meta) ==> Ours(s.copy.value.meta))
                       && (SourceGeneration(meta).Some? ==> SourceGeneration(meta) == SourceGeneration(s.copy.value.meta))
    case _ => true
  }

  predicate CivilRun(s: State, steps: seq<Step>)
    decreases |steps|
  {
    steps == [] || (Civil(s, steps[0]) && CivilRun(Next(s, steps[0]), steps[1..]))
  }

  function Run(s: State, steps: seq<Step>): State
    decreases |steps|
  {
    if steps == [] then s else Run(Next(s, steps[0]), steps[1..])
  }

  function Init(kind: Kind, namespace: string): State {
    State(kind, namespace, None, None, Idle, 0, {}, {}, Push(0, 0, Spec(None, None, "")))
  }

  // ---- Invariants ----

  /** A managed copy that nobody is deleting. */
  predicate Live(copy: Option<Copy>) {
    copy.Some? && !copy.value.deleting && Ours(copy.value.meta)
  }

  /** A live managed copy has a management object that holds the finalizer. */
  predicate NoOrphan(s: State) {
    Live(s.copy) ==> s.mgmt.Some? && s.mgmt.value.finalizer
  }

  /** The snapshot in hand: older than the clock, and the stored object if the versions agree. */
  predicate Snapshots(s: State) {
    && (s.mgmt.Some? ==> s.mgmt.value.version < s.clock && s.mgmt.value.uid < s.clock)
    && (!s.control.Idle? ==> s.control.obj.version < s.clock
                             && (Current(s, s.control.obj) ==> s.mgmt.value == s.control.obj))
  }

  /** From the moment the controller has seen its finalizer the object stays the same one. */
  predicate Held(s: State) {
    !s.control.Idle? && (s.control.Listed? ==> s.control.obj.finalizer) ==>
      s.mgmt.Some? && s.mgmt.value.finalizer && s.mgmt.value.uid == s.control.obj.uid
  }

  predicate Cleared(s: State) {
    s.control.Deleted? ==> !Live(s.copy)
  }

  /** A source generation on the copy is that of the push its spec came from. */
  predicate Provenance(s: State) {
    s.copy.Some? && SourceGeneration(s.copy.value.meta).Some? ==>
      && SourceGeneration(s.copy.value.meta).value == Itoa(s.origin.generation)
      && s.origin in s.pushed && s.origin.spec == s.copy.value.spec
  }

  /** The copy that was read is still the one that will be patched. */
  predicate SameCopy(s: State) {
    s.control.Fetched? && s.control.existing.Some? && s.copy.Some? ==>
      && s.copy.value.spec == s.control.existing.value.spec
      && (SourceGeneration(s.copy.value.meta).Some? ==>
            SourceGeneration(s.copy.value.meta) == SourceGeneration(s.control.existing.value.meta))
  }

  predicate OwnOrigin(s: State) {
    s.control.Applied? && s.copy.Some? && SourceGeneration(s.copy.value.meta).Some? ==>
      s.origin.uid == s.control.obj.uid
  }

  predicate Observed(s: State) {
    s.copy.Some? ==>
      var c := s.copy.value;
      && 1 <= c.generation && c.observed <= c.generation
      && (c.observed == c.generation ==> Compilation(c.spec, c.conditions, c.derived) in s.compiled)
  }

  /** The compiler made this of a spec that was pushed for this generation of this object. */
  predicate Backs(s: State, uid: nat, generation: nat, p: Push, c: Compilation) {
    p in s.pushed && c in s.compiled && p.uid == uid && p.generation == generation && p.spec == c.spec
  }

  ghost predicate SeenBacked(s: State) {
    (s.control.Mirroring? || s.control.Conflicted?) && s.control.seen.caughtUp ==>
      exists p, c :: Backs(s, s.control.obj.uid, s.control.seen.generation, p, c)
                     && c.conditions == s.control.seen.conditions && c.derived == s.control.seen.derived
  }

  /** A mirrored condition is a placeholder, or what the compiler said of the generation it names. */
  ghost predicate ConditionBacked(s: State, uid: nat, t: string, x: Condition) {
    x == Progressing(t, x.observed) ||
    exists p, c :: Backs(s, uid, x.observed, p, c) && t in c.conditions
                   && c.conditions[t].(observed := x.observed) == x
  }

  ghost predicate DerivedBacked(s: State, uid: nat, d: Derived) {
    d == NO_DERIVED ||
    exists p: Push, c: Compilation :: Backs(s, uid, p.generation, p, c) && d == MirrorDerived(s.kind, NO_DERIVED, c.derived)
  }

  ghost predicate MgmtBacked(s: State) {
    s.mgmt.Some? ==>
      var m := s.mgmt.value;
      && (forall t :: t in m.status.conditions && Mirrored(t) ==> ConditionBacked(s, m.uid, t, m.status.conditions[t]))
      && DerivedBacked(s, m.uid, m.status.derived)
  }

  predicate Ownership(s: State) {
    NoOrphan(s) && Snapshots(s) && Held(s) && Cleared(s)
  }

  predicate Origins(s: State) {
    Provenance(s) && SameCopy(s) && OwnOrigin(s) && Observed(s)
  }

  ghost predicate Invariant(s: State) {
    Ownership(s) && Origins(s) && SeenBacked(s) && MgmtBacked(s)
  }

  // ---- Preservation ----

  lemma OwnershipPreserved(s: State, step: Step)
    requires Ownership(s) && Civil(s, step)
    ensures Ownership(Next(s, step))
  {
    hide Ours;
    hide SourceGeneration;
    hide Desired;
    hide Reconciled;
    hide PatchMeta;
    hide MirrorStatus;
    hide Promote;
    hide CaughtUp;
  }

  /** What buildRemoteObject stamps on the copy. */
  lemma DesiredStamps(source: Meta, namespace: string, generation: nat)
    ensures Ours(Desired(source, namespace, generation))
    ensures SourceGeneration(Desired(source, namespace, generation)) == Some(Itoa(generation))
  {
    hide IsGitOps;
    hide RecordManagedKeys;
    hide Recorded;
    OwnKeysAreValid();
    var labels := StripGitOps(source.labels)[MANAGED_BY := MANAGED_BY_VALUE];
    var annotations := StripGitOps(source.annotations)[SOURCE_NS := namespace][SOURCE_GENERATION := Itoa(generation)] - {LAST_APPLIED};
    RecordsOwnKeys(Meta(labels, annotations));
  }

  /** A patch leaves the source generation it was built for, unless someone removed it meanwhile. */
  lemma PatchStamps(read: Meta, desired: Meta, current: Meta)
    requires SourceGeneration(desired).Some?
    requires SourceGeneration(current).Some? ==> SourceGeneration(current) == SourceGeneration(read)
    ensures var p := PatchMeta(read, Reconciled(read, desired), current);
            SourceGeneration(p).Some? ==> SourceGeneration(p) == SourceGeneration(desired)
  {
    hide IsGitOps;
    hide Previous;
  }

  lemma OriginsPreserved(s: State, step: Step)
    requires Ownership(s) && Origins(s) && Civil(s, step)
    ensures Origins(Next(s, step))
  {
    hide Ours;
    hide SourceGeneration;
    hide Desired;
    hide Reconciled;
    hide PatchMeta;
    hide MirrorStatus;
    hide Promote;
    hide CaughtUp;
    if step.ApplyRemote? && s.control.Fetched? {
      var obj := s.control.obj;
      DesiredStamps(obj.meta, s.namespace, obj.generation);
      if s.control.existing.Some? && s.copy.Some? {
        PatchStamps(s.control.existing.value.meta, DesiredMeta(s, obj), s.copy.value.meta);
      }
    }
  }

  /** Histories only grow, so what was backed stays backed. */
  lemma HistoriesGrow(s: State, step: Step)
    ensures s.pushed <= Next(s, step).pushed && s.compiled <= Next(s, step).compiled && s.kind == Next(s, step).kind
  {
    hide Ours;
    hide SourceGeneration;
    hide Desired;
    hide Reconciled;
    hide PatchMeta;
    hide MirrorStatus;
  }

  lemma BackedStays(s: State, t: State, uid: nat)
    requires s.pushed <= t.pushed && s.compiled <= t.compiled && s.kind == t.kind
    ensures forall k, x :: ConditionBacked(s, uid, k, x) ==> ConditionBacked(t, uid, k, x)
    ensures forall d :: DerivedBacked(s, uid, d) ==> DerivedBacked(t, uid, d)
  {
    forall k, x | ConditionBacked(s, uid, k, x) ensures ConditionBacked(t, uid, k, x) {
      if x != Progressing(k, x.observed) {
        var p, c :| Backs(s, uid, x.observed, p, c) && k in c.conditions && c.conditions[k].(observed := x.observed) == x;
        assert Backs(t, uid, x.observed, p, c);
      }
    }
    forall d | DerivedBacked(s, uid, d) ensures DerivedBacked(t, uid, d) {
      if d != NO_DERIVED {
        var p: Push, c: Compilation :| Backs(s, uid, p.generation, p, c) && d == MirrorDerived(s.kind, NO_DERIVED, c.derived);
        assert Backs(t, uid, p.generation, p, c);
      }
    }
  }

  /** What the controller reads back while the copy has caught up. */
  lemma ReadBackBacked(s: State)
    requires Ownership(s) && Origins(s) && s.control.Applied?
    ensures SeenBacked(DoReadBack(s))
  {
    hide Ours;
    hide SourceGeneration;
    var t := DoReadBack(s);
    if t.control.Mirroring? && t.control.seen.caughtUp {
      var c := s.copy.value;
      ItoaInjective(s.origin.generation, s.control.obj.generation);
      assert Backs(t, s.control.obj.uid, t.control.seen.generation, s.origin, Compilation(c.spec, c.conditions, c.derived));
    }
  }

  lemma SeenPreserved(s: State, step: Step)
    requires Invariant(s) && Civil(s, step)
    ensures SeenBacked(Next(s, step))
  {
    hide Ours;
    hide SourceGeneration;
    hide Desired;
    hide Reconciled;
    hide PatchMeta;
    hide MirrorStatus;
    hide Promote;
    hide CaughtUp;
    hide ConditionBacked;
    hide DerivedBacked;
    var t := Next(s, step);
    if step.ReadBack? && s.control.Applied? {
      ReadBackBacked(s);
    } else if (t.control.Mirroring? || t.control.Conflicted?) && t.control.seen.caughtUp {
      HistoriesGrow(s, step);
      var p, c :| Backs(s, s.control.obj.uid, s.control.seen.generation, p, c)
                  && c.conditions == s.control.seen.conditions && c.derived == s.control.seen.derived;
      assert Backs(t, t.control.obj.uid, t.control.seen.generation, p, c);
    }
  }

  /** A write puts backed conditions and derived fields on the object. */
  lemma WriteBacked(s: State, status: Status, uid: nat)
    requires (s.control.Mirroring? || s.control.Conflicted?) && SeenBacked(s) && s.control.obj.uid == uid
    requires forall t :: t in status.conditions && Mirrored(t) ==> ConditionBacked(s, uid, t, status.conditions[t])
    requires DerivedBacked(s, uid, status.derived)
    ensures var n := MirrorStatus(s.kind, status, s.control.seen);
            && (forall t :: t in n.conditions && Mirrored(t) ==> ConditionBacked(s, uid, t, n.conditions[t]))
            && DerivedBacked(s, uid, n.derived)
  {
    var seen := s.control.seen;
    if seen.caughtUp {
      var p, c :| Backs(s, uid, seen.generation, p, c) && c.conditions == seen.conditions && c.derived == seen.derived;
      hide SeenBacked;
      WriteDerivedBacked(s, status, uid, p, c);
      hide DerivedBacked;
      var n := MirrorStatus(s.kind, status, seen);
      forall t | t in n.conditions && Mirrored(t) ensures ConditionBacked(s, uid, t, n.conditions[t]) {
        if t in seen.conditions {
          SeenConditionBacked(s, uid, t, seen, p, c);
        }
      }
    }
  }

  lemma WriteDerivedBacked(s: State, status: Status, uid: nat, p: Push, c: Compilation)
    requires DerivedBacked(s, uid, status.derived) && Backs(s, uid, p.generation, p, c)
    ensures DerivedBacked(s, uid, MirrorDerived(s.kind, status.derived, c.derived))
  {
    DerivedComposes(s, uid, status.derived, c.derived);
  }

  lemma SeenConditionBacked(s: State, uid: nat, t: string, seen: Seen, p: Push, c: Compilation)
    requires Backs(s, uid, seen.generation, p, c) && c.conditions == seen.conditions && t in seen.conditions
    ensures ConditionBacked(s, uid, t, seen.conditions[t].(observed := seen.generation))
  {
    var x := seen.conditions[t].(observed := seen.generation);
    assert Backs(s, uid, x.observed, p, c);
  }

  lemma DerivedComposes(s: State, uid: nat, was: Derived, copy: Derived)
    requires DerivedBacked(s, uid, was)
    ensures MirrorDerived(s.kind, was, copy) in {MirrorDerived(s.kind, NO_DERIVED, copy), NO_DERIVED}
  {
  }

  lemma MgmtPreserved(s: State, step: Step)
    requires Invariant(s) && Civil(s, step)
    ensures MgmtBacked(Next(s, step))
  {
    hide Ours;
    hide SourceGeneration;
    hide Desired;
    hide Reconciled;
    hide PatchMeta;
    hide MirrorStatus;
    hide Promote;
    hide CaughtUp;
    hide ConditionBacked;
    hide Origins;
    var t := Next(s, step);
    HistoriesGrow(s, step);
    if t.mgmt.Some? {
      BackedStays(s, t, t.mgmt.value.uid);
      if step.WriteStatus? && s.control.Mirroring? && Current(s, s.control.obj) {
        WriteBacked(s, s.control.obj.status, s.control.obj.uid);
      }
    }
  }

  lemma InvariantPreserved(s: State, step: Step)
    requires Invariant(s) && Civil(s, step)
    ensures Invariant(Next(s, step))
  {
    hide Next;
    hide Civil;
    hide Ownership;
    hide Origins;
    hide SeenBacked;
    hide MgmtBacked;
    OwnershipPreserved(s, step);
    OriginsPreserved(s, step);
    SeenPreserved(s, step);
    MgmtPreserved(s, step);
  }

  lemma {:induction false} RunInvariant(s: State, steps: seq<Step>)
    requires Invariant(s) && CivilRun(s, steps)
    ensures Invariant(Run(s, steps))
    decreases |steps|
  {
    hide Next;
    hide Civil;
    hide Invariant;
    if steps != [] {
      InvariantPreserved(s, steps[0]);
      RunInvariant(Next(s, steps[0]), steps[1..]);
    }
  }

  // ---- Results over every schedule ----

  /** No schedule orphans a live managed copy; once the management object is gone, so is the copy, or it is terminating. */
  lemma NoOrphanEver(kind: Kind, namespace: string, steps: seq<Step>)
    requires CivilRun(Init(kind, namespace), steps)
    ensures NoOrphan(Run(Init(kind, namespace), steps))
    ensures Run(Init(kind, namespace), steps).mgmt.None? ==> !Live(Run(Init(kind, namespace), steps).copy)
  {
    RunInvariant(Init(kind, namespace), steps);
  }

  /** A mirrored True names a generation whose pushed spec the compiler answered with exactly that condition. */
  lemma TrueWasCompiled(kind: Kind, namespace: string, steps: seq<Step>, t: string)
    requires CivilRun(Init(kind, namespace), steps) && Mirrored(t)
    ensures var s := Run(Init(kind, namespace), steps);
            s.mgmt.Some? && t in s.mgmt.value.status.conditions && s.mgmt.value.status.conditions[t].status == True ==>
              var x := s.mgmt.value.status.conditions[t];
              exists p, c :: Backs(s, s.mgmt.value.uid, x.observed, p, c) && t in c.conditions
                             && c.conditions[t].(observed := x.observed) == x
  {
    hide Run;
    hide CivilRun;
    RunInvariant(Init(kind, namespace), steps);
    var s := Run(Init(kind, namespace), steps);
    if s.mgmt.Some? && t in s.mgmt.value.status.conditions && s.mgmt.value.status.conditions[t].status == True {
      var x := s.mgmt.value.status.conditions[t];
      assert ConditionBacked(s, s.mgmt.value.uid, t, x);
      assert x != Progressing(t, x.observed);
    }
  }

  /** Mirrored derived fields are the compiler's own, for a spec pushed for this very object. */
  lemma DerivedWasCompiled(kind: Kind, namespace: string, steps: seq<Step>)
    requires CivilRun(Init(kind, namespace), steps)
    ensures var s := Run(Init(kind, namespace), steps);
            s.mgmt.Some? ==> DerivedBacked(s, s.mgmt.value.uid, s.mgmt.value.status.derived)
  {
    hide Run;
    hide CivilRun;
    RunInvariant(Init(kind, namespace), steps);
  }

  /** Network CIDRs are mirrored for attachments and pod networks only, VRF lists for what refers to destinations. */
  predicate OtherDerivedKept(kind: Kind, was: Derived, now: Derived) {
    && (kind !in {Layer2Attachment, PodNetwork} ==> was.networkIPv4 == now.networkIPv4 && was.networkIPv6 == now.networkIPv6)
    && (kind in {VRF, Network, Destination, Collector, TrafficMirror, AnnouncementPolicy, InterfaceConfig} ==> was.vrfs == now.vrfs)
  }

  /** The same object, apart from the finalizer, Ready, Resolved and the derived fields of its kind. */
  ghost predicate ControllerKeeps(kind: Kind, was: Mgmt, now: Mgmt) {
    && OtherDerivedKept(kind, was.status.derived, now.status.derived)
    && was.uid == now.uid && was.spec == now.spec && was.meta == now.meta && was.generation == now.generation
    && was.finalizers == now.finalizers && was.deleting == now.deleting
    && was.status.owned == now.status.owned
    && SameOthers(was.status.conditions, now.status.conditions)
  }

  /** All conditions but Ready and Resolved agree. */
  ghost predicate SameOthers(was: Conditions, now: Conditions) {
    forall t :: !Mirrored(t) ==> (t in was <==> t in now) && (t in was ==> was[t] == now[t])
  }

  /**
   No controller step changes anything else on the management object, although it writes whole objects
   it read earlier; and it never makes an object vanish that is not being deleted.
   */
  lemma ControllerWritesOnlyItsOwn(kind: Kind, namespace: string, steps: seq<Step>, step: Step)
    requires CivilRun(Init(kind, namespace), steps) && ByController(step)
    ensures KeepsMgmt(Run(Init(kind, namespace), steps), Next(Run(Init(kind, namespace), steps), step))
  {
    hide Run;
    hide CivilRun;
    hide Next;
    hide KeepsMgmt;
    RunInvariant(Init(kind, namespace), steps);
    KeepsOwn(Run(Init(kind, namespace), steps), step);
  }

  ghost predicate KeepsMgmt(s: State, n: State) {
    && (s.mgmt.Some? && n.mgmt.Some? ==> ControllerKeeps(s.kind, s.mgmt.value, n.mgmt.value))
    && (s.mgmt.Some? && n.mgmt.None? ==> s.mgmt.value.deleting)
    && (s.mgmt.None? ==> n.mgmt.None?)
  }

  lemma KeepsOwn(s: State, step: Step)
    requires Ownership(s) && ByController(step)
    ensures KeepsMgmt(s, Next(s, step))
  {
    hide Ownership;
    hide Ours;
    hide SourceGeneration;
    hide Desired;
    hide Reconciled;
    hide PatchMeta;
    hide Promote;
    hide CaughtUp;
    if step.WriteStatus? {
      WriteKeeps(s);
    } else if step.RemoveFinalizer? {
      ReleaseKeeps(s);
    } else if step.AddFinalizer? {
      MarkKeeps(s);
    } else {
      hide Live;
      assert Next(s, step).mgmt == s.mgmt;
    }
  }

  lemma WriteKeeps(s: State)
    requires Ownership(s)
    ensures KeepsMgmt(s, DoWrite(s))
  {
    if s.control.Mirroring? {
      MirrorKeeps(s.kind, s.control.obj.status, s.control.seen);
    }
    KeepsItself(s);
    hide MirrorStatus;
    hide OtherDerivedKept;
    hide SameOthers;
    hide Live;
    hide Held;
    hide Cleared;
  }

  lemma KeepsItself(s: State)
    ensures s.mgmt.Some? ==> ControllerKeeps(s.kind, s.mgmt.value, s.mgmt.value)
  {
  }

  lemma ReleaseKeeps(s: State)
    requires Ownership(s)
    ensures KeepsMgmt(s, DoRelease(s))
  {
    hide Live;
  }

  lemma MarkKeeps(s: State)
    requires Ownership(s)
    ensures KeepsMgmt(s, DoMark(s))
  {
    hide Live;
  }

  /** Mirroring touches Ready, Resolved and the derived fields of the kind. */
  lemma MirrorKeeps(kind: Kind, status: Status, seen: Seen)
    ensures var n := MirrorStatus(kind, status, seen);
            && OtherDerivedKept(kind, status.derived, n.derived) && n.owned == status.owned
            && SameOthers(status.conditions, n.conditions)
  {
  }

  /** deleteRemote does not ask whose the copy is: an unmanaged copy changes exactly when its namesake is being deleted. */
  lemma ForeignCopyChangesIff(s: State, step: Step)
    requires ByController(step) && s.copy.Some? && !Ours(s.copy.value.meta)
    requires s.control.Fetched? ==> s.control.existing == s.copy
    ensures Next(s, step).copy != s.copy <==>
            && step.DeleteRemote? && s.control.Listed? && s.control.obj.deleting && s.control.obj.finalizer
            && (!s.copy.value.deleting || s.copy.value.finalizers == {})
  {
    hide Ours;
    hide SourceGeneration;
    hide Desired;
    hide Reconciled;
    hide PatchMeta;
    hide MirrorStatus;
    hide Promote;
    hide CaughtUp;
  }

  /** A user's object, a namesake that someone else created on the workload cluster, and the deletion of the first. */
  function NamesakeRun(meta: Meta, spec: Spec, foreign: Meta, other: Spec): seq<Step> {
    [UserCreate(meta, spec, false, {}), CopyCreate(foreign, other, {}), List(None), AddFinalizer, Stop,
     UserDelete, List(None)]
  }

  /** The namesake stands until the controller deletes it, although it never was the controller's. */
  lemma ForeignCopyIsDeleted(kind: Kind, namespace: string, meta: Meta, spec: Spec, foreign: Meta, other: Spec)
    requires !Ours(foreign) && SourceGeneration(foreign).None?
    ensures var steps := NamesakeRun(meta, spec, foreign, other);
            var s := Run(Init(kind, namespace), steps);
            && CivilRun(Init(kind, namespace), steps + [DeleteRemote])
            && s.copy == Some(Copy(1, foreign, other, {}, false, map[], NO_DERIVED, 0))
            && Next(s, DeleteRemote).copy.None?
  {
    hide Ours;
    hide SourceGeneration;
    var steps, s0 := NamesakeRun(meta, spec, foreign, other), Init(kind, namespace);
    var copy, obj := Copy(1, foreign, other, {}, false, map[], NO_DERIVED, 0), Mgmt(0, 0, 1, meta, spec, false, {}, false, NO_STATUS);
    var s2 := s0.(mgmt := Some(obj), copy := Some(copy), clock := 1);
    FirstStep(s0, steps);
    FirstStep(Next(s0, steps[0]), steps[1..]);
    assert Next(Next(s0, steps[0]), steps[1]) == s2;
    NamesakeGoes(s2, obj, steps[2..]);
  }

  lemma NamesakeGoes(s: State, obj: Mgmt, steps: seq<Step>)
    requires s.mgmt == Some(obj) && s.copy.Some? && s.control == Idle && !obj.finalizer && !obj.deleting
    requires !s.copy.value.deleting && s.copy.value.finalizers == {}
    requires steps == [List(None), AddFinalizer, Stop, UserDelete, List(None)]
    ensures var n := Run(s, steps);
            CivilRun(s, steps + [DeleteRemote]) && n.copy == s.copy && Next(n, DeleteRemote).copy.None?
  {
    var s3 := Next(Next(Next(s, List(None)), AddFinalizer), Stop);
    MarksAnew(s, obj);
    DeletesNamesake(s3, s3.mgmt.value);
    hide Next;
    FirstStep(s, steps);
    FirstStep(Next(s, List(None)), steps[1..]);
    FirstStep(Next(Next(s, List(None)), AddFinalizer), steps[2..]);
    FirstStep(s3, steps[3..]);
    FirstStep(Next(s3, UserDelete), steps[4..]);
    assert ([] + [DeleteRemote])[1..] == [] && steps[5..] == [];
  }

  lemma MarksAnew(s: State, obj: Mgmt)
    requires s.mgmt == Some(obj) && s.control == Idle && !obj.finalizer && !obj.deleting
    ensures var n := Next(Next(Next(s, List(None)), AddFinalizer), Stop);
            && n.mgmt.Some? && n.mgmt.value.finalizer && !n.mgmt.value.deleting
            && n.control == Idle && n.copy == s.copy
  {
  }

  lemma DeletesNamesake(s: State, obj: Mgmt)
    requires s.mgmt == Some(obj) && s.copy.Some? && s.control == Idle && obj.finalizer && !obj.deleting
    requires !s.copy.value.deleting && s.copy.value.finalizers == {}
    ensures var n := Next(Next(s, UserDelete), List(None));
            n.copy == s.copy && Next(n, DeleteRemote).copy.None?
  {
  }

  lemma FirstStep(s: State, steps: seq<Step>)
    requires steps != []
    ensures Run(s, steps) == Run(Next(s, steps[0]), steps[1..])
    ensures CivilRun(s, steps + [DeleteRemote])
            <==> Civil(s, steps[0]) && CivilRun(Next(s, steps[0]), steps[1..] + [DeleteRemote])
  {
    hide Next;
    hide Civil;
    assert (steps + [DeleteRemote])[1..] == steps[1..] + [DeleteRemote];
  }

  // ---- A pass without interference ----

  /** The minimal patch, applied to what was read, is the merge. */
  lemma PatchIsMerge(before: Keys, after: Keys)
    ensures PatchKeys(before, after, before) == after
  {
  }

  /** Applying to an undisturbed copy delivers the whole desired object; applying again changes nothing. */
  lemma ApplyDelivers(s: State)
    requires s.control.Fetched? && s.control.existing == s.copy
    requires s.copy.Some? ==> Ours(s.copy.value.meta)
    requires Built(DesiredMeta(s, s.control.obj))
    ensures var n := DoApply(s);
            var c := n.copy.value;
            var d := DesiredMeta(s, s.control.obj);
            && n.control == Applied(s.control.obj) && n.copy.Some?
            && c.spec == DesiredSpec(s, s.control.obj, s.control.granted)
            && c.meta == (if s.copy.None? then d else Reconciled(s.copy.value.meta, d))
            && (s.copy.Some? ==> c.conditions == s.copy.value.conditions && c.observed == s.copy.value.observed)
            && DoApply(n.(control := s.control.(existing := n.copy))).copy == n.copy
  {
    hide Ours;
    hide Reconciled;
    hide PatchKeys;
    hide Desired;
    hide Built;
    hide Promote;
    var d := DesiredMeta(s, s.control.obj);
    DesiredStamps(s.control.obj.meta, s.namespace, s.control.obj.generation);
    if s.copy.Some? {
      var m := s.copy.value.meta;
      PatchIsMergeMeta(m, Reconciled(m, d));
      ReconciledOurs(m, d);
      ReconcileTwice(m, d);
      PatchIsMergeMeta(Reconciled(m, d), Reconciled(m, d));
    } else {
      ReconcileOwn(d);
      PatchIsMergeMeta(d, d);
    }
  }

  lemma PatchIsMergeMeta(before: Meta, after: Meta)
    ensures PatchMeta(before, after, before) == after
  {
    PatchIsMerge(before.labels, after.labels);
    PatchIsMerge(before.annotations, after.annotations);
  }

  lemma ReconciledOurs(m: Meta, d: Meta)
    requires Ours(d)
    ensures Ours(Reconciled(m, d))
  {
    hide IsGitOps;
    hide Previous;
  }

  /** One forward pass from the listing to the applied copy. */
  function ForwardPass(s: State, granted: Option<Allocation>): State {
    Next(Next(Next(Next(s, List(granted)), AddFinalizer), FetchRemote), ApplyRemote)
  }

  /** An undisturbed forward pass ends with a managed copy that carries the desired spec and its generation. */
  lemma ForwardPassDelivers(s: State, granted: Option<Allocation>)
    requires s.control.Idle? && s.mgmt.Some? && !s.mgmt.value.deleting
    requires s.copy.Some? ==> Ours(s.copy.value.meta)
    ensures var n := ForwardPass(s, granted);
            var m := s.mgmt.value;
            && n.copy.Some? && Ours(n.copy.value.meta)
            && SourceGeneration(n.copy.value.meta) == Some(Itoa(m.generation))
            && n.copy.value.spec == Promote(s.kind, m.spec, m.status.owned.addresses, granted)
            && (s.copy.None? ==> n.copy.value.meta == Desired(m.meta, s.namespace, m.generation))
            && (s.copy.Some? ==> n.copy.value.meta == Reconciled(s.copy.value.meta, Desired(m.meta, s.namespace, m.generation)))
            && n.mgmt.Some? && n.mgmt.value.finalizer && n.control == Applied(n.mgmt.value)
            && ControllerKeeps(s.kind, m, n.mgmt.value) && n.mgmt.value.status == m.status && n.kind == s.kind
  {
    hide Ours;
    hide SourceGeneration;
    hide Reconciled;
    hide PatchMeta;
    hide Desired;
    hide Promote;
    var m := s.mgmt.value;
    var d := Desired(m.meta, s.namespace, m.generation);
    DesiredStamps(m.meta, s.namespace, m.generation);
    if s.copy.Some? {
      PatchIsMergeMeta(s.copy.value.meta, Reconciled(s.copy.value.meta, d));
      ReconciledOurs(s.copy.value.meta, d);
      ReconciledStamp(s.copy.value.meta, d);
    }
  }

  lemma ReconciledStamp(m: Meta, d: Meta)
    requires SourceGeneration(d).Some?
    ensures SourceGeneration(Reconciled(m, d)) == SourceGeneration(d)
  {
    hide IsGitOps;
    hide Previous;
  }

  const WITH_VRFS := {Layer2Attachment, PodNetwork, Inbound, Outbound, BGPPeering, NodeAttachment}
  const WITH_NETWORKS := {Layer2Attachment, PodNetwork}

  /** Ready and Resolved are the compiler's, for this generation; so are the derived fields of the kind; the rest is as before. */
  ghost predicate Answered(kind: Kind, was: Status, now: Status, conditions: Conditions, derived: Derived, generation: nat) {
    && (forall t :: t in {READY, RESOLVED} && t in conditions ==>
          t in now.conditions && now.conditions[t]
          == Condition(conditions[t].status, conditions[t].reason, conditions[t].message, generation))
    && (forall t :: t !in {READY, RESOLVED} || t !in conditions ==> SameCondition(was.conditions, now.conditions, t))
    && now.owned == was.owned
    && now.derived.vrfs == (if kind in WITH_VRFS then derived else was.derived).vrfs
    && now.derived.networkIPv4 == (if kind in WITH_NETWORKS then derived else was.derived).networkIPv4
    && now.derived.networkIPv6 == (if kind in WITH_NETWORKS then derived else was.derived).networkIPv6
  }

  /** Ready is False and Resolved Unknown for this generation; the rest is as before. */
  ghost predicate Pending(was: Status, now: Status, generation: nat) {
    && READY in now.conditions && now.conditions[READY].status == False && now.conditions[READY].observed == generation
    && RESOLVED in now.conditions && now.conditions[RESOLVED].status == Unknown && now.conditions[RESOLVED].observed == generation
    && (forall t :: t !in {READY, RESOLVED} ==> SameCondition(was.conditions, now.conditions, t))
    && now.owned == was.owned && now.derived == was.derived
  }

  predicate SameCondition(was: Conditions, now: Conditions, t: string) {
    (t in now <==> t in was) && (t in was ==> now[t] == was[t])
  }

  /** The copy carries the spec pushed for this generation, and the compiler has seen it. */
  predicate UpToDate(copy: Copy, generation: nat) {
    && SOURCE_GENERATION in copy.meta.annotations && copy.meta.annotations[SOURCE_GENERATION] == Itoa(generation)
    && copy.observed == copy.generation
  }

  /** Undisturbed, the way back reports the compiler's answer exactly when the copy has been observed. */
  lemma StatusBack(s: State)
    requires s.mgmt.Some? && s.mgmt.value.finalizer && s.control == Applied(s.mgmt.value) && s.copy.Some?
    ensures var m, c := s.mgmt.value, s.copy.value;
            var n := Next(Next(s, ReadBack), WriteStatus);
            && n.control.Idle? && n.mgmt.Some? && n.copy == s.copy
            && if UpToDate(c, m.generation)
               then Answered(s.kind, m.status, n.mgmt.value.status, c.conditions, c.derived, m.generation)
               else Pending(m.status, n.mgmt.value.status, m.generation)
  {
    var m, c := s.mgmt.value, s.copy.value;
    assert CaughtUp(c, m.generation) <==> UpToDate(c, m.generation);
    var seen := Seen(c.conditions, c.derived, UpToDate(c, m.generation), m.generation);
    hide SourceGeneration;
    hide CaughtUp;
    hide UpToDate;
    assert Next(s, ReadBack) == s.(control := Mirroring(m, seen, 0));
    MirrorAnswers(s.kind, m.status, seen);
    hide Answered;
    hide Pending;
    WritesBack(s.(control := Mirroring(m, seen, 0)));
    hide Next;
  }

  lemma WritesBack(s: State)
    requires s.control.Mirroring? && s.mgmt == Some(s.control.obj) && s.mgmt.value.finalizer
    ensures var n := Next(s, WriteStatus);
            && n.control.Idle? && n.mgmt.Some? && n.copy == s.copy
            && n.mgmt.value.status == MirrorStatus(s.kind, s.mgmt.value.status, s.control.seen)
  {
    hide MirrorStatus;
  }

  lemma MirrorAnswers(kind: Kind, status: Status, seen: Seen)
    ensures seen.caughtUp ==>
              Answered(kind, status, MirrorStatus(kind, status, seen), seen.conditions, seen.derived, seen.generation)
    ensures !seen.caughtUp ==> Pending(status, MirrorStatus(kind, status, seen), seen.generation)
  {
    DerivedAnswers(kind, status.derived, seen.derived);
    hide MirrorDerived;
    hide WITH_VRFS;
    hide WITH_NETWORKS;
    assert READY != RESOLVED;
    hide READY;
    hide RESOLVED;
  }

  lemma DerivedAnswers(kind: Kind, was: Derived, copy: Derived)
    ensures MirrorDerived(kind, was, copy).vrfs == (if kind in WITH_VRFS then copy else was).vrfs
    ensures MirrorDerived(kind, was, copy).networkIPv4 == (if kind in WITH_NETWORKS then copy else was).networkIPv4
    ensures MirrorDerived(kind, was, copy).networkIPv6 == (if kind in WITH_NETWORKS then copy else was).networkIPv6
  {
  }

  /** Once the compiler has answered, the rest of the pass reports its answer for this generation. */
  lemma PassReports(s: State, granted: Option<Allocation>, conditions: Conditions, derived: Derived)
    requires s.control.Idle? && s.mgmt.Some? && !s.mgmt.value.deleting
    requires s.copy.Some? ==> Ours(s.copy.value.meta)
    ensures var m := s.mgmt.value;
            var n := Next(Next(Next(ForwardPass(s, granted), Compile(conditions, derived)), ReadBack), WriteStatus);
            && n.control.Idle? && n.mgmt.Some?
            && Answered(s.kind, m.status, n.mgmt.value.status, conditions, derived, m.generation)
  {
    ForwardPassDelivers(s, granted);
    var f := ForwardPass(s, granted);
    hide ForwardPass;
    hide Next;
    hide Answered;
    hide Reconciled;
    hide Desired;
    hide Promote;
    CompiledReports(f, conditions, derived);
    hide SourceGeneration;
    hide Ours;
  }

  lemma CompiledReports(s: State, conditions: Conditions, derived: Derived)
    requires s.mgmt.Some? && s.mgmt.value.finalizer && s.control == Applied(s.mgmt.value)
    requires s.copy.Some? && SourceGeneration(s.copy.value.meta) == Some(Itoa(s.mgmt.value.generation))
    ensures var m := s.mgmt.value;
            var n := Next(Next(Next(s, Compile(conditions, derived)), ReadBack), WriteStatus);
            && n.control.Idle? && n.mgmt.Some?
            && Answered(s.kind, m.status, n.mgmt.value.status, conditions, derived, m.generation)
  {
    var c := Next(s, Compile(conditions, derived));
    assert c.control == s.control && c.mgmt == s.mgmt && c.kind == s.kind && c.copy.Some?;
    assert UpToDate(c.copy.value, s.mgmt.value.generation);
    assert c.copy.value.conditions == conditions && c.copy.value.derived == derived;
    hide *;
    StatusBack(c);
  }

  /** Until it has answered, the object is not ready for this generation. */
  lemma PassWaits(s: State, granted: Option<Allocation>)
    requires s.control.Idle? && s.mgmt.Some? && !s.mgmt.value.deleting
    requires s.copy.Some? ==> Ours(s.copy.value.meta)
    ensures var m, f := s.mgmt.value, ForwardPass(s, granted);
            var n := Next(Next(f, ReadBack), WriteStatus);
            && f.copy.Some? && n.control.Idle? && n.mgmt.Some?
            && if f.copy.value.observed == f.copy.value.generation
               then Answered(s.kind, m.status, n.mgmt.value.status, f.copy.value.conditions, f.copy.value.derived, m.generation)
               else Pending(m.status, n.mgmt.value.status, m.generation)
  {
    ForwardPassDelivers(s, granted);
    var f := ForwardPass(s, granted);
    hide ForwardPass;
    hide Next;
    hide Answered;
    hide Pending;
    hide Reconciled;
    hide Desired;
    hide Promote;
    assert UpToDate(f.copy.value, f.mgmt.value.generation) <==> f.copy.value.observed == f.copy.value.generation;
    hide UpToDate;
    StatusBack(f);
    hide SourceGeneration;
    hide Ours;
  }

  /** A status write on an outdated object is not lost: refetched, what was seen is written onto the current one. */
  lemma RetryReports(s: State)
    requires s.control.Mirroring? && s.control.attempt < 2 && s.mgmt.Some? && s.mgmt.value.finalizer
    requires s.mgmt.value.version != s.control.obj.version
    requires MirrorStatus(s.kind, s.control.obj.status, s.control.seen) != s.control.obj.status
    ensures var m, seen := s.mgmt.value, s.control.seen;
            var n := Next(Next(Next(s, WriteStatus), Refetch), WriteStatus);
            && n.control.Idle? && n.mgmt.Some?
            && if seen.caughtUp then Answered(s.kind, m.status, n.mgmt.value.status, seen.conditions, seen.derived, seen.generation)
               else Pending(m.status, n.mgmt.value.status, seen.generation)
  {
    var m, seen := s.mgmt.value, s.control.seen;
    var again := s.(control := Mirroring(m, seen, s.control.attempt + 1));
    MirrorAnswers(s.kind, m.status, seen);
    hide Answered;
    hide Pending;
    hide MirrorStatus;
    assert Next(Next(s, WriteStatus), Refetch) == again;
    WritesBack(again);
  }

  /** An undisturbed deletion pass: the copy is gone, or terminating if others hold it, and the finalizer is released. */
  lemma DeletionPassFinishes(s: State, granted: Option<Allocation>)
    requires s.control.Idle? && s.mgmt.Some? && s.mgmt.value.deleting && s.mgmt.value.finalizer
    ensures var n := Next(Next(Next(s, List(granted)), DeleteRemote), RemoveFinalizer);
            && n.control.Idle?
            && (s.copy.None? || s.copy.value.finalizers == {} ==> n.copy.None?)
            && (n.copy.Some? ==> n.copy.value.deleting)
            && (s.mgmt.value.finalizers == {} ==> n.mgmt.None?)
            && (n.mgmt.Some? ==> !n.mgmt.value.finalizer)
  {
    hide Ours;
    hide SourceGeneration;
    hide MirrorStatus;
    hide Desired;
    hide Promote;
  }
}
