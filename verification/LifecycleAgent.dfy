/**
 `reconcile_once` and `recover_freeze_transition` as the imperative code the source
 has: straight-line calls on the store, the host, the product and the effects. Each
 method is proved to make exactly the calls of the controller automaton and to end
 with its outcome, so what is proved of the automaton's traces holds of the code.
 */
module LifecycleAgents {
  import opened Outcomes
  import opened LifecycleRecords
  import opened LifecyclePolicies
  import opened LifecycleControllers

  /**
   The store, host, product and effects as one controller call sees them. What each
   call answers is an arbitrary function of how many calls were made before it, so a
   session ranges over every possible outside world.
   */
  class Session {
    const loads: nat -> Option<Record>
    const replacements: nat -> bool
    const observations: nat -> Option<Activity>
    const quiesces: nat -> Option<QuiesceOutcome>
    const reopens: nat -> bool
    const admissions: nat -> bool
    const freezes: nat -> bool
    const thaws: nat -> bool
    const checkpoints: nat -> Option<Checkpoint>
    const restores: nat -> bool
    const samples: nat -> Option<(bool, bool)>

    var calls: nat
    ghost const job: Job
    ghost var trace: seq<Exchange>
    ghost var pc: Pc

    constructor (ghost job: Job, loads: nat -> Option<Record>, replacements: nat -> bool,
                 observations: nat -> Option<Activity>, quiesces: nat -> Option<QuiesceOutcome>,
                 reopens: nat -> bool, admissions: nat -> bool, freezes: nat -> bool, thaws: nat -> bool,
                 checkpoints: nat -> Option<Checkpoint>, restores: nat -> bool,
                 samples: nat -> Option<(bool, bool)>)
      ensures Valid() && trace == [] && pc == Loading && this.job == job
    {
      this.loads, this.replacements, this.observations, this.quiesces := loads, replacements, observations, quiesces;
      this.reopens, this.admissions, this.freezes, this.thaws := reopens, admissions, freezes, thaws;
      this.checkpoints, this.restores, this.samples := checkpoints, restores, samples;
      this.calls, this.job, this.trace, this.pc := 0, job, [], Loading;
    }

    /** The calls made so far are the automaton's, which now stands at `pc`. */
    ghost predicate Valid()
      reads this
    {
      calls == |trace| && Follow(job, trace) == Some(pc)
    }

    /** The automaton is about to make `call`. */
    ghost predicate Expects(call: Call)
      reads this
    {
      Valid() && !pc.Finished? && NextCall(job, pc) == call
    }

    /** Records one exchange; every call below goes through it. */
    method Note(ghost call: Call, ghost reply: Reply)
      requires Expects(call) && Fits(call, reply)
      modifies this
      ensures Valid() && calls == old(calls) + 1
      ensures trace == old(trace) + [Exchange(call, reply)]
      ensures pc == Resume(job, old(pc), reply)
    {
      FollowExtends(job, trace, Exchange(call, reply));
      pc := Resume(job, pc, reply);
      trace := trace + [Exchange(call, reply)];
      calls := calls + 1;
    }

    method Load(workloadId: string) returns (r: Option<Record>)
      requires Expects(LoadCall) && workloadId == job.scope.workloadId
      modifies this
      ensures r == loads(old(calls))
      ensures Valid() && calls == old(calls) + 1
      ensures pc == Resume(job, old(pc), if r.Some? then Loaded(r.value) else Failed)
    {
      r := loads(calls);
      Note(LoadCall, if r.Some? then Loaded(r.value) else Failed);
    }

    method Replace(expected: Record, next: Record) returns (ok: bool)
      requires Expects(ReplaceCall(expected, next))
      modifies this
      ensures ok == replacements(old(calls))
      ensures Valid() && calls == old(calls) + 1
      ensures pc == Resume(job, old(pc), if ok then Done else Failed)
    {
      ok := replacements(calls);
      Note(ReplaceCall(expected, next), if ok then Done else Failed);
    }

    method Observe() returns (r: Option<Activity>)
      requires Expects(ObserveCall)
      modifies this
      ensures r == observations(old(calls))
      ensures Valid() && calls == old(calls) + 1
      ensures pc == Resume(job, old(pc), if r.Some? then Active(r.value) else Failed)
    {
      r := observations(calls);
      Note(ObserveCall, if r.Some? then Active(r.value) else Failed);
    }

    method Quiesce() returns (r: Option<QuiesceOutcome>)
      requires Expects(QuiesceCall)
      modifies this
      ensures r == quiesces(old(calls))
      ensures Valid() && calls == old(calls) + 1
      ensures pc == Resume(job, old(pc), if r.Some? then Quiesced(r.value) else Failed)
    {
      r := quiesces(calls);
      Note(QuiesceCall, if r.Some? then Quiesced(r.value) else Failed);
    }

    method CancelQuiesce() returns (ok: bool)
      requires Expects(ReopenCall)
      modifies this
      ensures ok == reopens(old(calls))
      ensures Valid() && calls == old(calls) + 1
      ensures pc == Resume(job, old(pc), if ok then Done else Failed)
    {
      ok := reopens(calls);
      Note(ReopenCall, if ok then Done else Failed);
    }

    method VerifyReady() returns (ok: bool)
      requires Expects(AdmitCall)
      modifies this
      ensures ok == admissions(old(calls))
      ensures Valid() && calls == old(calls) + 1
      ensures pc == Resume(job, old(pc), if ok then Done else Failed)
    {
      ok := admissions(calls);
      Note(AdmitCall, if ok then Done else Failed);
    }

    method Freeze() returns (ok: bool)
      requires Expects(FreezeCall)
      modifies this
      ensures ok == freezes(old(calls))
      ensures Valid() && calls == old(calls) + 1
      ensures pc == Resume(job, old(pc), if ok then Done else Failed)
    {
      ok := freezes(calls);
      Note(FreezeCall, if ok then Done else Failed);
    }

    method Thaw() returns (ok: bool)
      requires Expects(ThawCall)
      modifies this
      ensures ok == thaws(old(calls))
      ensures Valid() && calls == old(calls) + 1
      ensures pc == Resume(job, old(pc), if ok then Done else Failed)
    {
      ok := thaws(calls);
      Note(ThawCall, if ok then Done else Failed);
    }

    method CheckpointAndTerminate() returns (r: Option<Checkpoint>)
      requires Expects(CheckpointCall)
      modifies this
      ensures r == checkpoints(old(calls))
      ensures Valid() && calls == old(calls) + 1
      ensures pc == Resume(job, old(pc), if r.Some? then Artifact(r.value) else Failed)
    {
      r := checkpoints(calls);
      Note(CheckpointCall, if r.Some? then Artifact(r.value) else Failed);
    }

    method Restore(checkpoint: Checkpoint) returns (ok: bool)
      requires Expects(RestoreCall(checkpoint))
      modifies this
      ensures ok == restores(old(calls))
      ensures Valid() && calls == old(calls) + 1
      ensures pc == Resume(job, old(pc), if ok then Done else Failed)
    {
      ok := restores(calls);
      Note(RestoreCall(checkpoint), if ok then Done else Failed);
    }

    method FreezeStatus() returns (r: Option<(bool, bool)>)
      requires Expects(SampleCall)
      modifies this
      ensures r == samples(old(calls))
      ensures Valid() && calls == old(calls) + 1
      ensures pc == Resume(job, old(pc), if r.Some? then Status(r.value.0, r.value.1) else Failed)
    {
      r := samples(calls);
      Note(SampleCall, if r.Some? then Status(r.value.0, r.value.1) else Failed);
    }
  }

  // ----- Publication

  /** `None` once `next` is durable; otherwise how the call ends. */
  method PersistRecord(s: Session, current: Record, next: Record, ghost point: Point)
    returns (failure: Option<Outcome>)
    requires s.Valid() && Target(point).Some?
    requires next == Proposal(s.job, point, current)
    requires s.pc == Persist(s.job, point, current)
    modifies s
    ensures s.Valid()
    ensures failure.None? ==> s.pc == AfterPublish(s.job, point, next)
    ensures failure.Some? ==> s.pc == Finished(failure.value)
  {
    if ValidateUpdate(current, next).Some? {
      return Some(InvalidRecord);
    }
    var ok := s.Replace(current, next);
    return if ok then None else Some(RecordFailure);
  }

  // ----- Reconciliation

  method ReconcileOnce(s: Session, scope: Scope, fence: u64, policy: Policy) returns (outcome: Outcome)
    requires s.Valid() && s.pc == Loading
    requires s.job == Job(Reconcile, scope, fence, policy)
    modifies s
    ensures s.Valid() && s.pc == Finished(outcome)
  {
    var loaded := s.Load(scope.workloadId);
    if loaded.None? {
      return RecordFailure;
    }
    var current := loaded.value;
    if Validate(current).Some? {
      return InvalidRecord;
    }
    var refusal := ValidateAuthority(scope, fence, current);
    if refusal.Some? {
      return refusal.value;
    }
    if policy.strategy != current.strategy {
      return InvalidRecord;
    }

    match current.state {
      case Quiescing =>
        outcome := RecoverQuiesce(s, fence, current);
        return;
      case Running | Frozen | Hibernated =>
      case _ =>
        return RecoveryRequired(current.state);
    }

    var observed := s.Observe();
    if observed.None? {
      return HostFailure;
    }
    var decision := Decide(ToPolicyState(current), policy, Observed(observed.value));
    if decision.None? {
      return InvalidTransition;
    }
    match decision.value.action
    case NoAction => outcome := NoChange;
    case BeginQuiesce => outcome := SuspendFromRunning(s, fence, policy, current);
    case RequestThaw => outcome := ResumeFrozen(s, fence, current);
    case RequestRestore => outcome := RestoreHibernated(s, fence, current);
    case _ => outcome := InvalidTransition;
  }

  function ValidateAuthority(scope: Scope, fence: u64, record: Record): Option<Outcome> {
    if record.assignedNode != scope.node || record.placementEpoch != scope.placementEpoch then
      Some(StalePlacement)
    else if record.runtimeEpoch != scope.runtimeEpoch then Some(StaleRuntime)
    else if fence < record.fencingToken then Some(StaleFence)
    else None
  }

  method RecoverQuiesce(s: Session, fence: u64, current: Record) returns (outcome: Outcome)
    requires s.Valid() && s.job.fence == fence
    requires s.pc == At(CancelRecovered, current)
    modifies s
    ensures s.Valid() && s.pc == Finished(outcome)
  {
    var reopened := s.CancelQuiesce();
    if !reopened {
      return ProductFailure;
    }
    var running := NextRecord(current, fence, Running, None);
    var failure := PersistRecord(s, current, running, PublishRecovered);
    return if failure.Some? then failure.value else RecoveredQuiesce;
  }

  method SuspendFromRunning(s: Session, fence: u64, policy: Policy, current: Record)
    returns (outcome: Outcome)
    requires s.Valid() && s.job.fence == fence && s.job.policy == policy && s.job.kind == Reconcile
    requires s.pc == Persist(s.job, PublishQuiescing, current)
    modifies s
    ensures s.Valid() && s.pc == Finished(outcome)
  {
    var quiescing := NextRecord(current, fence, Quiescing, None);
    var failure := PersistRecord(s, current, quiescing, PublishQuiescing);
    if failure.Some? {
      return failure.value;
    }
    var quiesced := s.Quiesce();
    if quiesced.None? {
      return ProductFailure;
    }
    if quiesced.value.DemandReturned? {
      outcome := CancelSuspendForDemand(s, fence, quiescing);
      return;
    }
    outcome := SuspendDrained(s, fence, policy, quiescing);
  }

  /** The product says it drained; the trusted host is asked again before any intent. */
  method SuspendDrained(s: Session, fence: u64, policy: Policy, quiescing: Record)
    returns (outcome: Outcome)
    requires s.Valid() && s.job.fence == fence && s.job.policy == policy && s.job.kind == Reconcile
    requires s.pc == At(SecondObserve, quiescing)
    modifies s
    ensures s.Valid() && s.pc == Finished(outcome)
  {
    var observed := s.Observe();
    if observed.None? {
      return HostFailure;
    }
    if observed.value.HasDemand() {
      outcome := CancelSuspendForDemand(s, fence, quiescing);
      return;
    }
    var decision := Decide(PolicyQuiescing(policy.strategy), policy, QuiesceSucceeded);
    if decision.None? {
      return InvalidTransition;
    }
    match decision.value.action
    case RequestFreeze => outcome := FreezeQuiesced(s, fence, quiescing);
    case CheckpointAndTerminate => outcome := HibernateQuiesced(s, fence, quiescing);
    case _ => outcome := InvalidTransition;
  }

  method FreezeQuiesced(s: Session, fence: u64, quiescing: Record) returns (outcome: Outcome)
    requires s.Valid() && s.job.fence == fence && s.job.kind == Reconcile
    requires s.pc == Persist(s.job, PublishFreezing, quiescing)
    modifies s
    ensures s.Valid() && s.pc == Finished(outcome)
  {
    var intent := NextRecord(quiescing, fence, Freezing, None);
    var failure := PersistRecord(s, quiescing, intent, PublishFreezing);
    if failure.Some? {
      return failure.value;
    }
    var ok := s.Freeze();
    if !ok {
      return EffectFailure;
    }
    var frozen := NextRecord(intent, fence, Frozen, None);
    failure := PersistRecord(s, intent, frozen, PublishFrozen);
    return if failure.Some? then failure.value else Suspended;
  }

  method HibernateQuiesced(s: Session, fence: u64, quiescing: Record) returns (outcome: Outcome)
    requires s.Valid() && s.job.fence == fence && s.job.kind == Reconcile
    requires s.pc == Persist(s.job, PublishCheckpointing, quiescing)
    modifies s
    ensures s.Valid() && s.pc == Finished(outcome)
  {
    var intent := NextRecord(quiescing, fence, Checkpointing, None);
    var failure := PersistRecord(s, quiescing, intent, PublishCheckpointing);
    if failure.Some? {
      return failure.value;
    }
    var checkpoint := s.CheckpointAndTerminate();
    if checkpoint.None? {
      return EffectFailure;
    }
    var hibernated := NextRecord(intent, fence, Hibernated, checkpoint);
    failure := PersistRecord(s, intent, hibernated, PublishHibernated(checkpoint.value));
    return if failure.Some? then failure.value else Suspended;
  }

  method CancelSuspendForDemand(s: Session, fence: u64, quiescing: Record) returns (outcome: Outcome)
    requires s.Valid() && s.job.fence == fence
    requires s.pc == At(CancelDemand, quiescing)
    modifies s
    ensures s.Valid() && s.pc == Finished(outcome)
  {
    var reopened := s.CancelQuiesce();
    if !reopened {
      return ProductFailure;
    }
    var running := NextRecord(quiescing, fence, Running, None);
    var failure := PersistRecord(s, quiescing, running, PublishCancelled);
    return if failure.Some? then failure.value else DemandCancelledSuspend;
  }

  method ResumeFrozen(s: Session, fence: u64, current: Record) returns (outcome: Outcome)
    requires s.Valid() && s.job.fence == fence && s.job.kind == Reconcile
    requires s.pc == Persist(s.job, PublishThawing, current)
    modifies s
    ensures s.Valid() && s.pc == Finished(outcome)
  {
    var thawing := NextRecord(current, fence, Thawing, None);
    var failure := PersistRecord(s, current, thawing, PublishThawing);
    if failure.Some? {
      return failure.value;
    }
    var thawed := s.Thaw();
    if !thawed {
      return EffectFailure;
    }
    outcome := FinishRunning(s, fence, thawing, Resumed);
  }

  method RestoreHibernated(s: Session, fence: u64, current: Record) returns (outcome: Outcome)
    requires s.Valid() && s.job.fence == fence && s.job.kind == Reconcile
    requires s.pc == if current.checkpoint.None? then Finished(InvalidRecord)
                     else Persist(s.job, PublishRestoring(current.checkpoint.value), current)
    modifies s
    ensures s.Valid() && s.pc == Finished(outcome)
  {
    if current.checkpoint.None? {
      return InvalidRecord;
    }
    var checkpoint := current.checkpoint.value;
    var restoring := NextRecord(current, fence, Restoring, Some(checkpoint));
    var failure := PersistRecord(s, current, restoring, PublishRestoring(checkpoint));
    if failure.Some? {
      return failure.value;
    }
    var restored := s.Restore(checkpoint);
    if !restored {
      return EffectFailure;
    }
    outcome := FinishRunning(s, fence, restoring, Resumed);
  }

  /** Reopen the product, let the host admit it, publish `running`. */
  method FinishRunning(s: Session, fence: u64, current: Record, success: Outcome) returns (outcome: Outcome)
    requires s.Valid() && s.job.fence == fence
    requires success == if s.job.kind.Reconcile? then Resumed else RecoveredRunning
    requires s.pc == At(Reopen, current)
    modifies s
    ensures s.Valid() && s.pc == Finished(outcome)
  {
    var reopened := s.CancelQuiesce();
    if !reopened {
      return ProductFailure;
    }
    var ready := s.VerifyReady();
    if !ready {
      return HostFailure;
    }
    var running := NextRecord(current, fence, Running, None);
    var failure := PersistRecord(s, current, running, PublishRunning);
    return if failure.Some? then failure.value else success;
  }

  // ----- Freeze recovery

  method RecoverFreezeTransition(s: Session, scope: Scope, fence: u64, policy: Policy)
    returns (outcome: Outcome)
    requires s.Valid() && s.pc == Loading
    requires s.job == Job(RecoverFreeze, scope, fence, policy)
    modifies s
    ensures s.Valid() && s.pc == Finished(outcome)
  {
    var loaded := s.Load(scope.workloadId);
    if loaded.None? {
      return RecordFailure;
    }
    var current := loaded.value;
    if Validate(current).Some? {
      return InvalidRecord;
    }
    var refusal := ValidateRecoveryAuthority(scope, fence, policy, current);
    if refusal.Some? {
      return refusal.value;
    }
    var status := s.FreezeStatus();
    if status.None? {
      return EffectFailure;
    }
    var (populated, frozen) := status.value;
    if !populated {
      return EffectFailure;
    }
    match current.state
    case Freezing => outcome := RecoverFreezing(s, fence, current, frozen);
    case Thawing => outcome := RecoverThawing(s, fence, current, frozen);
    case _ => outcome := RecoveryRequired(current.state);
  }

  function ValidateRecoveryAuthority(scope: Scope, fence: u64, policy: Policy, record: Record): Option<Outcome> {
    if || record.workloadId != scope.workloadId
       || record.assignedNode != scope.node
       || record.placementEpoch != scope.placementEpoch
       || record.runtimeEpoch != scope.runtimeEpoch
    then Some(StalePlacement)
    else if fence < record.fencingToken then Some(StaleFence)
    else if policy.strategy != Freeze || record.strategy != Freeze then Some(InvalidRecord)
    else None
  }

  method RecoverFreezing(s: Session, fence: u64, current: Record, frozen: bool) returns (outcome: Outcome)
    requires s.Valid() && s.job.fence == fence && s.job.kind == RecoverFreeze
    requires current.state == Freezing && s.pc == AfterSample(s.job, current, true, frozen)
    modifies s
    ensures s.Valid() && s.pc == Finished(outcome)
  {
    var failure;
    if frozen {
      var suspended := NextRecord(current, fence, Frozen, None);
      failure := PersistRecord(s, current, suspended, PublishFrozen);
      return if failure.Some? then failure.value else RecoveredFrozen;
    }
    var thawing := NextRecord(current, fence, Thawing, None);
    failure := PersistRecord(s, current, thawing, PublishCancelThaw);
    if failure.Some? {
      return failure.value;
    }
    // A freeze request may have been accepted without having settled; this cancels it.
    var thawed := s.Thaw();
    if !thawed {
      return EffectFailure;
    }
    outcome := FinishRunning(s, fence, thawing, RecoveredRunning);
  }

  method RecoverThawing(s: Session, fence: u64, current: Record, frozen: bool) returns (outcome: Outcome)
    requires s.Valid() && s.job.fence == fence && s.job.kind == RecoverFreeze
    requires current.state == Thawing && s.pc == AfterSample(s.job, current, true, frozen)
    modifies s
    ensures s.Valid() && s.pc == Finished(outcome)
  {
    if frozen {
      var thawed := s.Thaw();
      if !thawed {
        return EffectFailure;
      }
    }
    outcome := FinishRunning(s, fence, current, RecoveredRunning);
  }
}
