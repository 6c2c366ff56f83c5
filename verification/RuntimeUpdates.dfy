/**
 The revision-aware update controller: a replica of an authoritative log that is fed
 snapshots and ordered events which may be lost, duplicated and reordered.
 */
module RuntimeUpdates {
  import opened Outcomes
  import opened RuntimeValues
  import opened Distinctness

  const MAX_SAFE_RUNTIME_REVISION: int := 9_007_199_254_740_991

  datatype Target = Target(namespace: string, cache: string)

  datatype Operation = Upsert | Delete | Replace | Invalidate | Resync

  datatype Batch = Batch(
    namespace: string, cache: string, revision: u64, operation: Operation, entries: Values, keys: seq<Key>)

  datatype Outcome =
    | Applied(revision: u64)
    | Duplicate(revision: u64)
    | StaleSnapshotIgnored(current: u64, incoming: u64)
    | ReconcileRequired(current: u64, incoming: u64)

  datatype Inner = Inner(revision: u64, stale: bool, backendKeys: set<Key>)

  /** What the controller and its values hold together. */
  datatype Replica = Replica(overrides: Values, inner: Inner)

  datatype Config = Config(mutable: set<Key>, baseline: Values, target: Option<Target>)

  const EMPTY := Replica(map[], Inner(0, false, {}))

  // ----- Shape validation

  function ValidateTarget(target: Option<Target>, namespace: string, cache: string): Option<ValueError> {
    if target == Some(Target(namespace, cache)) then None else Some(InvalidConfig)
  }

  function ValidateSnapshot(revision: u64, entries: Values): Option<ValueError> {
    if revision > MAX_SAFE_RUNTIME_REVISION || (revision == 0 && |entries| != 0) then Some(InvalidConfig)
    else if |entries| > MAX_RUNTIME_KEYS then Some(InvalidConfig)
    else None
  }

  predicate ValidShape(batch: Batch) {
    match batch.operation
    case Upsert => batch.entries != map[] && batch.keys == []
    case Delete => batch.entries == map[] && batch.keys != []
    case Replace => batch.keys == []
    case Invalidate | Resync => batch.entries == map[] && batch.keys == []
  }

  function ValidateBatchShape(batch: Batch): Option<ValueError> {
    if batch.revision == 0 || batch.revision > MAX_SAFE_RUNTIME_REVISION then Some(InvalidConfig)
    else if |batch.entries| > MAX_RUNTIME_KEYS || |batch.keys| > MAX_RUNTIME_KEYS then Some(InvalidConfig)
    else if !ValidShape(batch) then Some(InvalidConfig)
    else if |Members(batch.keys)| != |batch.keys| then Some(InvalidConfig)
    else None
  }

  // ----- Admission

  datatype Admission = Rejected(next: Inner, outcome: Outcome) | Admitted

  function Admit(inner: Inner, batch: Batch): Admission {
    if batch.revision <= inner.revision then Rejected(inner, Duplicate(inner.revision))
    else if inner.stale then Rejected(inner, ReconcileRequired(inner.revision, batch.revision))
    else if batch.revision != SaturatingIncrement(inner.revision) || batch.operation.Resync? then
      Rejected(inner.(stale := true), ReconcileRequired(inner.revision, batch.revision))
    else Admitted
  }

  function BackendKeysAfter(inner: Inner, batch: Batch): set<Key>
    requires !batch.operation.Resync?
  {
    match batch.operation
    case Upsert => inner.backendKeys + batch.entries.Keys
    case Delete => set k | k in inner.backendKeys && k !in batch.keys
    case Replace => batch.entries.Keys
    case Invalidate => {}
  }

  // ----- The reducer as a value

  /** The overrides an event asks for, ignoring the allowlist. */
  function Effect(overrides: Values, batch: Batch): Values
    requires !batch.operation.Resync?
  {
    match batch.operation
    case Upsert => overrides + batch.entries
    case Delete => overrides - Members(batch.keys)
    case Replace => batch.entries
    case Invalidate => map[]
  }

  /** Whether the allowlist admits every key and value of an event. */
  predicate Allowed(mutable: set<Key>, batch: Batch) {
    && ValidEntries(mutable, batch.entries)
    && forall k | k in batch.keys :: ValidUpdate(mutable, k, None)
  }

  function SnapshotStep(config: Config, r: Replica, namespace: string, cache: string, revision: u64, entries: Values)
    : (Replica, Result<Outcome, ValueError>)
  {
    if ValidateTarget(config.target, namespace, cache).Some? then (r, Err(InvalidConfig))
    else if ValidateSnapshot(revision, entries).Some? then (r, Err(InvalidConfig))
    else if revision < r.inner.revision then (r, Ok(StaleSnapshotIgnored(r.inner.revision, revision)))
    else if !ValidEntries(config.mutable, entries) then (r, Err(UpdateRejected))
    else (Replica(entries, Inner(revision, false, entries.Keys)), Ok(Applied(revision)))
  }

  function BatchStep(config: Config, r: Replica, batch: Batch): (Replica, Result<Outcome, ValueError>) {
    if ValidateTarget(config.target, batch.namespace, batch.cache).Some? then (r, Err(InvalidConfig))
    else if ValidateBatchShape(batch).Some? then (r, Err(InvalidConfig))
    else match Admit(r.inner, batch)
      case Rejected(next, outcome) => (r.(inner := next), Ok(outcome))
      case Admitted =>
        if !Allowed(config.mutable, batch) then (r, Err(UpdateRejected))
        else (Replica(Effect(r.overrides, batch), Inner(batch.revision, false, BackendKeysAfter(r.inner, batch))),
              Ok(Applied(batch.revision)))
  }

  // ----- The controller object

  class Controller {
    const values: Handle
    const target: Option<Target>
    var state: Inner

    ghost predicate Valid()
      reads this, values
    {
      values.Valid()
    }

    ghost function Content(): Replica
      reads this, values
    {
      Replica(values.overrides, state)
    }

    ghost function Settings(): Config
      reads this, values
    {
      Config(values.mutable, values.baseline, target)
    }

    constructor (values: Handle, target: Option<Target>)
      requires values.Valid()
      ensures Valid() && this.values == values && this.target == target && state == EMPTY.inner
    {
      this.values, this.target, this.state := values, target, Inner(0, false, {});
    }

    method ApplySnapshot(namespace: string, cache: string, revision: u64, entries: Values)
      returns (result: Result<Outcome, ValueError>)
      requires Valid()
      modifies this, values
      ensures Valid() && Settings() == old(Settings())
      ensures (Content(), result) == SnapshotStep(Settings(), old(Content()), namespace, cache, revision, entries)
    {
      var refusal := ValidateTarget(target, namespace, cache);
      if refusal.Some? {
        return Err(refusal.value);
      }
      refusal := ValidateSnapshot(revision, entries);
      if refusal.Some? {
        return Err(refusal.value);
      }
      if revision < state.revision {
        return Ok(StaleSnapshotIgnored(state.revision, revision));
      }
      var error := values.ReplaceOverrides(entries);
      if error.Some? {
        return Err(error.value);
      }
      state := Inner(revision, false, entries.Keys);
      result := Ok(Applied(revision));
    }

    method ApplyBatch(batch: Batch) returns (result: Result<Outcome, ValueError>)
      requires Valid()
      modifies this, values
      ensures Valid() && Settings() == old(Settings())
      ensures (Content(), result) == BatchStep(Settings(), old(Content()), batch)
    {
      var refusal := ValidateTarget(target, batch.namespace, batch.cache);
      if refusal.Some? {
        return Err(refusal.value);
      }
      refusal := ValidateBatchShape(batch);
      if refusal.Some? {
        return Err(refusal.value);
      }
      var admission := Admit(state, batch);
      if admission.Rejected? {
        state := admission.next;
        return Ok(admission.outcome);
      }
      var error := ApplyValues(batch);
      if error.Some? {
        return Err(error.value);
      }
      state := Inner(batch.revision, false, BackendKeysAfter(state, batch));
      result := Ok(Applied(batch.revision));
    }

    /** The value effect of an admitted event; its `resync` arm is never reached. */
    method ApplyValues(batch: Batch) returns (error: Option<ValueError>)
      requires Valid() && ValidateBatchShape(batch).None? && !batch.operation.Resync?
      modifies values
      ensures Valid()
      ensures error == if Allowed(values.mutable, batch) then None else Some(UpdateRejected)
      ensures values.overrides ==
              if error.None? then Effect(old(values.overrides), batch) else old(values.overrides)
    {
      match batch.operation
      case Upsert =>
        var patch := UpsertPatch(batch.entries);
        PatchSetsEntries(values.mutable, values.overrides, batch.entries, patch);
        error := values.ApplyPatch(patch);
      case Delete =>
        var patch := seq(|batch.keys|, i requires 0 <= i < |batch.keys| => Update(batch.keys[i], None));
        PatchRemovesKeys(values.mutable, values.overrides, batch.keys, patch);
        error := values.ApplyPatch(patch);
      case Replace => error := values.ReplaceOverrides(batch.entries);
      case Invalidate => error := values.ReplaceOverrides(map[]);
    }
  }

  /** The patch that sets every entry, in whatever order the entries are visited. */
  method UpsertPatch(entries: Values) returns (patch: seq<Update>)
    ensures |patch| == |entries| && DistinctKeys(patch)
    ensures forall i | 0 <= i < |patch| :: patch[i].key in entries && patch[i].value == Some(entries[patch[i].key])
    ensures forall k | k in entries :: Names(patch, k)
  {
    patch := [];
    var keys := entries.Keys;
    while keys != {}
      invariant keys <= entries.Keys && |patch| + |keys| == |entries| && DistinctKeys(patch)
      invariant forall i | 0 <= i < |patch| ::
                  patch[i].key in entries && patch[i].key !in keys && patch[i].value == Some(entries[patch[i].key])
      invariant forall k | k in entries && k !in keys :: Names(patch, k)
      decreases |keys|
    {
      var k :| k in keys;
      var before := patch;
      patch := patch + [Update(k, Some(entries[k]))];
      keys := keys - {k};
      assert patch[|before|].key == k;
      forall q | q in entries && q !in keys
        ensures Names(patch, q)
      {
        if q != k {
          var i :| 0 <= i < |before| && before[i].key == q;
          assert patch[i].key == q;
        }
      }
    }
    assert entries.Keys - keys == entries.Keys;
  }

  /** Whether a patch is accepted depends only on its updates being allowed, once keys are distinct. */
  lemma DistinctPatchIsAcceptedIff(mutable: set<Key>, patch: seq<Update>)
    requires |patch| <= MAX_RUNTIME_KEYS && DistinctKeys(patch)
    ensures ValidatePatch(mutable, patch) ==
            if forall u | u in patch :: ValidUpdate(mutable, u.key, u.value) then None else Some(UpdateRejected)
  {
    hide ValidUpdate, DistinctKeys;
    ValidatePatchIff(mutable, patch);
    CheckUpdatesRejects(mutable, patch, {});
  }

  lemma PatchSetsEntries(mutable: set<Key>, overrides: Values, entries: Values, patch: seq<Update>)
    requires |entries| <= MAX_RUNTIME_KEYS && |patch| == |entries| && DistinctKeys(patch)
    requires forall i | 0 <= i < |patch| :: patch[i].key in entries && patch[i].value == Some(entries[patch[i].key])
    requires forall k | k in entries :: Names(patch, k)
    ensures ValidatePatch(mutable, patch) == if ValidEntries(mutable, entries) then None else Some(UpdateRejected)
    ensures Patched(overrides, patch) == overrides + entries
  {
    hide ValidUpdate, ValidatePatch, Patched, DistinctKeys;
    DistinctPatchIsAcceptedIff(mutable, patch);
    if forall u | u in patch :: ValidUpdate(mutable, u.key, u.value) {
      forall k | k in entries
        ensures ValidUpdate(mutable, k, Some(entries[k]))
      {
        var i :| 0 <= i < |patch| && patch[i].key == k;
        assert patch[i] in patch;
      }
    }
    PatchedLookup(overrides, patch);
    assert PatchResult(overrides, patch, overrides + entries);
    PatchResultIsUnique(overrides, patch, Patched(overrides, patch), overrides + entries);
  }

  lemma PatchRemovesKeys(mutable: set<Key>, overrides: Values, keys: seq<Key>, patch: seq<Update>)
    requires |keys| <= MAX_RUNTIME_KEYS && |Members(keys)| == |keys|
    requires |patch| == |keys| && forall i | 0 <= i < |keys| :: patch[i] == Update(keys[i], None)
    ensures ValidatePatch(mutable, patch) ==
            if forall k | k in keys :: ValidUpdate(mutable, k, None) then None else Some(UpdateRejected)
    ensures Patched(overrides, patch) == overrides - Members(keys)
  {
    hide ValidUpdate, ValidatePatch, Patched;
    FullCardinalityIsDistinct(keys);
    DistinctPatchIsAcceptedIff(mutable, patch);
    forall k
      ensures Names(patch, k) <==> k in keys
      ensures k in keys <==> Update(k, None) in patch
    {
      if k in keys {
        var i :| 0 <= i < |keys| && keys[i] == k;
        assert patch[i].key == k;
      }
    }
    PatchedLookup(overrides, patch);
    assert PatchResult(overrides, patch, overrides - Members(keys));
    PatchResultIsUnique(overrides, patch, Patched(overrides, patch), overrides - Members(keys));
  }

  /** A fold over updates only ever rejects with `UpdateRejected`. */
  lemma {:induction false} CheckUpdatesRejects(mutable: set<Key>, updates: seq<Update>, seen: set<Key>)
    ensures CheckUpdates(mutable, updates, seen).Some? ==> CheckUpdates(mutable, updates, seen) == Some(UpdateRejected)
  {
    if |updates| > 0 {
      CheckUpdatesRejects(mutable, updates[1..], seen + {updates[0].key});
    }
  }

  // ----- Runs

  datatype Delivery =
    | SnapshotDelivery(namespace: string, cache: string, revision: u64, entries: Values)
    | BatchDelivery(batch: Batch)
    | LocalPatch(updates: seq<Update>)

  function Deliver(config: Config, r: Replica, d: Delivery): (Replica, Result<Outcome, ValueError>) {
    match d
    case SnapshotDelivery(namespace, cache, revision, entries) =>
      SnapshotStep(config, r, namespace, cache, revision, entries)
    case BatchDelivery(batch) => BatchStep(config, r, batch)
    case LocalPatch(updates) =>
      if ValidatePatch(config.mutable, updates).None? then
        (r.(overrides := Patched(r.overrides, updates)), Ok(Applied(r.inner.revision)))
      else (r, Err(ValidatePatch(config.mutable, updates).value))
  }

  function DeliverAll(config: Config, ds: seq<Delivery>): Replica {
    if |ds| == 0 then EMPTY
    else Deliver(config, DeliverAll(config, ds[..|ds| - 1]), ds[|ds| - 1]).0
  }

  // ----- What a delivery is answered with

  /** A key and value that the allowlist admits: listed, well named, not sensitive, bounded. */
  ghost predicate EntriesAllowed(config: Config, entries: Values) {
    forall k | k in entries :: k in config.mutable && ValidKey(k) && |entries[k]| <= 16384
  }

  /** The keyspace is the controller's own. */
  predicate ForUs(config: Config, namespace: string, cache: string) {
    config.target.Some? && config.target.value.namespace == namespace && config.target.value.cache == cache
  }

  /**
   A snapshot is applied, and then repairs everything, exactly when it is ours, well formed,
   allowed and not older than what the controller has; an older one is ignored; anything
   else is an error that changes nothing.
   */
  lemma SnapshotOutcome(config: Config, r: Replica, namespace: string, cache: string, n: u64, entries: Values)
    ensures var (next, result) := Deliver(config, r, SnapshotDelivery(namespace, cache, n, entries));
            var wellFormed :=
              && ForUs(config, namespace, cache) && n <= 9_007_199_254_740_991
              && (n == 0 ==> entries == map[]) && |entries| <= 64;
            && (result == Ok(Applied(n)) <==> wellFormed && n >= r.inner.revision && EntriesAllowed(config, entries))
            && (result == Ok(Applied(n)) ==>
                  && next.overrides == entries && next.inner.revision == n
                  && next.inner.backendKeys == entries.Keys && !next.inner.stale)
            && (result == Ok(StaleSnapshotIgnored(r.inner.revision, n)) <==> wellFormed && n < r.inner.revision)
            && (result == Err(InvalidConfig) <==> !wellFormed)
            && (result == Err(UpdateRejected) <==> wellFormed && n >= r.inner.revision && !EntriesAllowed(config, entries))
            && (result != Ok(Applied(n)) ==> next == r)
  {
    hide ValidKey;
    assert |entries| == 0 <==> entries == map[];
  }

  /** The shape that each operation asks of an event. */
  ghost predicate WellShaped(batch: Batch) {
    && 1 <= batch.revision <= 9_007_199_254_740_991
    && |batch.entries| <= 64 && |batch.keys| <= 64 && Distinct(batch.keys)
    && match batch.operation
       case Upsert => batch.entries != map[] && batch.keys == []
       case Delete => batch.entries == map[] && batch.keys != []
       case Replace => batch.keys == []
       case Invalidate => batch.entries == map[] && batch.keys == []
       case Resync => batch.entries == map[] && batch.keys == []
  }

  /**
   An event is applied exactly when it is ours, well shaped, allowed and the very next one
   after a state that is not stale; old ones are duplicates; a gap, a stale controller and
   a resync ask for a snapshot and leave the values alone.
   */
  lemma BatchOutcome(config: Config, r: Replica, batch: Batch)
    ensures var (next, result) := Deliver(config, r, BatchDelivery(batch));
            var ours := ForUs(config, batch.namespace, batch.cache) && WellShaped(batch);
            var following := batch.revision == r.inner.revision + 1 && !r.inner.stale && !batch.operation.Resync?;
            var allowed := EntriesAllowed(config, batch.entries) && forall k | k in batch.keys :: k in config.mutable && ValidKey(k);
            && (result == Ok(Duplicate(r.inner.revision)) <==> ours && batch.revision <= r.inner.revision)
            && (result == Ok(ReconcileRequired(r.inner.revision, batch.revision)) <==>
                  ours && batch.revision > r.inner.revision && !following)
            && (result == Ok(Applied(batch.revision)) <==> ours && following && allowed)
            && (result == Err(UpdateRejected) <==> ours && following && !allowed)
            && (result == Err(InvalidConfig) <==> !ours)
            && (result == Ok(Applied(batch.revision)) ==> next.inner.revision == batch.revision && !next.inner.stale)
            && (result == Ok(ReconcileRequired(r.inner.revision, batch.revision)) ==>
                  next.overrides == r.overrides && next.inner == Inner(r.inner.revision, true, r.inner.backendKeys))
            && (result.Err? || result.value.Duplicate? ==> next == r)
  {
    hide ValidKey;
    FullCardinalityIsDistinct(batch.keys);
    ShapeIff(batch);
    hide ValidateBatchShape, WellShaped;
    AllowedIff(config, batch);
    hide Allowed, EntriesAllowed;
  }

  lemma ShapeIff(batch: Batch)
    ensures ValidateBatchShape(batch).None? <==> WellShaped(batch)
    ensures ValidateBatchShape(batch).Some? ==> ValidateBatchShape(batch) == Some(InvalidConfig)
  {
    hide Members, Distinct;
    FullCardinalityIsDistinct(batch.keys);
  }

  lemma AllowedIff(config: Config, batch: Batch)
    ensures Allowed(config.mutable, batch) <==>
            EntriesAllowed(config, batch.entries) && forall k | k in batch.keys :: k in config.mutable && ValidKey(k)
  {
    hide ValidKey;
  }

  // ----- Agreement with the authoritative log

  /**
   A delivery for this controller's keyspace tells the truth about the log whose state
   after revision `n` is `log[n]`. Deliveries for other keyspaces may say anything.
   */
  ghost predicate Truthful(config: Config, log: seq<Values>, d: Delivery) {
    match d
    case SnapshotDelivery(namespace, cache, revision, entries) =>
      config.target == Some(Target(namespace, cache)) ==> revision < |log| && entries == log[revision]
    case BatchDelivery(batch) =>
      config.target == Some(Target(batch.namespace, batch.cache)) && batch.revision > 0 ==>
        && batch.revision < |log|
        && (!batch.operation.Resync? ==> Effect(log[batch.revision - 1], batch) == log[batch.revision])
    case LocalPatch(_) => false
  }

  ghost predicate Mirrors(r: Replica, log: seq<Values>) {
    && r.inner.revision < |log|
    && r.overrides == log[r.inner.revision]
    && r.inner.backendKeys == r.overrides.Keys
  }

  /** The backend keys follow the overrides through every admitted event. */
  lemma EffectKeys(inner: Inner, overrides: Values, batch: Batch)
    requires !batch.operation.Resync? && inner.backendKeys == overrides.Keys
    ensures BackendKeysAfter(inner, batch) == Effect(overrides, batch).Keys
  {
  }

  lemma DeliveryKeepsMirror(config: Config, log: seq<Values>, r: Replica, d: Delivery)
    requires Mirrors(r, log) && Truthful(config, log, d)
    ensures Mirrors(Deliver(config, r, d).0, log)
  {
    hide ValidEntries, Allowed, Effect, BackendKeysAfter, ValidateBatchShape;
    if d.BatchDelivery? && !d.batch.operation.Resync? {
      EffectKeys(r.inner, r.overrides, d.batch);
    }
    if d.BatchDelivery? && ValidateBatchShape(d.batch).None? {
      ShapeBoundsRevision(d.batch);
    }
  }

  lemma ShapeBoundsRevision(batch: Batch)
    requires ValidateBatchShape(batch).None?
    ensures 0 < batch.revision <= MAX_SAFE_RUNTIME_REVISION
  {
  }

  /**
   Fed any schedule of lost, duplicated and reordered truthful events and snapshots, the
   overrides always equal the log's state at the controller's revision, the backend keys
   are exactly their keys, and a lookup finds that value or else the baseline.
   */
  lemma {:induction false} ReplicaMirrorsLog(config: Config, log: seq<Values>, ds: seq<Delivery>)
    requires |log| > 0 && log[0] == map[]
    requires forall i | 0 <= i < |ds| :: Truthful(config, log, ds[i])
    ensures var r := DeliverAll(config, ds);
            && Mirrors(r, log)
            && forall k :: Lookup(Layered(config.baseline, r.overrides), k) ==
                 if k in log[r.inner.revision] then Some(log[r.inner.revision][k]) else Lookup(config.baseline, k)
  {
    hide Deliver;
    if |ds| > 0 {
      var n := |ds| - 1;
      ReplicaMirrorsLog(config, log, ds[..n]);
      DeliveryKeepsMirror(config, log, DeliverAll(config, ds[..n]), ds[n]);
    }
  }

  /** A batch that a controller in step with the log will apply. */
  ghost predicate InSequence(config: Config, batch: Batch, revision: int) {
    && config.target == Some(Target(batch.namespace, batch.cache))
    && ValidateBatchShape(batch).None? && !batch.operation.Resync?
    && Allowed(config.mutable, batch)
    && batch.revision == revision
  }

  function Replay(config: Config, r: Replica, batches: seq<Batch>): Replica {
    if |batches| == 0 then r
    else BatchStep(config, Replay(config, r, batches[..|batches| - 1]), batches[|batches| - 1]).0
  }

  /** The plain map meaning of a sequence of events. */
  function EffectOfAll(overrides: Values, batches: seq<Batch>): Values
    requires forall i | 0 <= i < |batches| :: !batches[i].operation.Resync?
  {
    if |batches| == 0 then overrides
    else Effect(EffectOfAll(overrides, batches[..|batches| - 1]), batches[|batches| - 1])
  }

  /**
   From any state that is not stale, an unbroken sequence of events is applied in full:
   the revision is the last one and the overrides are the events' meaning in order.
   */
  lemma {:induction false} UnbrokenSequenceCatchesUp(config: Config, r: Replica, batches: seq<Batch>)
    requires !r.inner.stale
    requires forall i | 0 <= i < |batches| :: InSequence(config, batches[i], r.inner.revision + 1 + i)
    ensures forall i | 0 <= i < |batches| :: !batches[i].operation.Resync?
    ensures var end := Replay(config, r, batches);
            && !end.inner.stale && end.inner.revision == r.inner.revision + |batches|
            && end.overrides == EffectOfAll(r.overrides, batches)
            && (r.inner.backendKeys == r.overrides.Keys ==> end.inner.backendKeys == end.overrides.Keys)
  {
    hide Effect, BackendKeysAfter, Allowed;
    if |batches| > 0 {
      var n := |batches| - 1;
      UnbrokenSequenceCatchesUp(config, r, batches[..n]);
      assert InSequence(config, batches[n], r.inner.revision + 1 + n);
      var before := Replay(config, r, batches[..n]);
      if before.inner.backendKeys == before.overrides.Keys {
        EffectKeys(before.inner, before.overrides, batches[n]);
      }
    }
  }

  // ----- Bounds and atomicity, local patches included

  ghost predicate Bounded(config: Config, r: Replica) {
    && r.overrides.Keys <= config.mutable
    && r.inner.backendKeys <= config.mutable
    && r.inner.revision <= MAX_SAFE_RUNTIME_REVISION
  }

  lemma DeliveryKeepsBounds(config: Config, r: Replica, d: Delivery)
    requires Bounded(config, r)
    ensures Bounded(config, Deliver(config, r, d).0)
  {
    hide ValidKey;
    if d.LocalPatch? && ValidatePatch(config.mutable, d.updates).None? {
      ValidatePatchIff(config.mutable, d.updates);
      PatchStaysAllowed(config.mutable, r.overrides, d.updates);
    }
  }

  /** In every run the keys stay inside the allowlist, so at most 64, and the revision stays safe. */
  lemma {:induction false} ReplicaStaysBounded(config: Config, ds: seq<Delivery>)
    requires |config.mutable| <= MAX_RUNTIME_KEYS
    ensures var r := DeliverAll(config, ds);
            && Bounded(config, r)
            && |r.overrides.Keys| <= MAX_RUNTIME_KEYS && |r.inner.backendKeys| <= MAX_RUNTIME_KEYS
  {
    hide Deliver;
    if |ds| > 0 {
      var n := |ds| - 1;
      ReplicaStaysBounded(config, ds[..n]);
      DeliveryKeepsBounds(config, DeliverAll(config, ds[..n]), ds[n]);
    }
    SubsetIsSmaller(DeliverAll(config, ds).overrides.Keys, config.mutable);
    SubsetIsSmaller(DeliverAll(config, ds).inner.backendKeys, config.mutable);
  }

  lemma {:induction false} SubsetIsSmaller(a: set<Key>, b: set<Key>)
    requires a <= b
    ensures |a| <= |b|
    decreases a
  {
    if a != {} {
      var x :| x in a;
      SubsetIsSmaller(a - {x}, b - {x});
    }
  }

  /**
   Of every call: an error changes nothing, the revision never falls, only an applied
   snapshot clears `stale`, and a duplicate or ignored delivery changes nothing.
   */
  lemma DeliveryIsAtomic(config: Config, r: Replica, d: Delivery)
    ensures var (next, result) := Deliver(config, r, d);
            && (result.Err? ==> next == r)
            && next.inner.revision >= r.inner.revision
            && (r.inner.stale && !next.inner.stale ==> d.SnapshotDelivery? && result == Ok(Applied(d.revision)))
            && (result.Ok? && (result.value.Duplicate? || result.value.StaleSnapshotIgnored?) ==> next == r)
            && (result.Ok? && result.value.ReconcileRequired? ==>
                  next == r.(inner := r.inner.(stale := true)))
  {
    hide ValidEntries, Allowed;
  }
}
