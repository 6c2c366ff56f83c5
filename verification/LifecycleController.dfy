/**
 One controller call, `reconcile_once` or freeze recovery, as an automaton over its
 external calls. Between two calls the controller is at a program counter `Pc`;
 `NextCall` is the call it makes there and `Resume` is what it does with the reply.

 Every error reply ends the call, so a failed call and a call that was cut short
 differ only in what the outside world did with it.
 */
module LifecycleControllers {
  import opened Outcomes
  import opened LifecycleRecords
  import opened LifecyclePolicies

  datatype Scope = Scope(workloadId: string, node: string, placementEpoch: u64, runtimeEpoch: u64)

  datatype Kind = Reconcile | RecoverFreeze

  /** One call of a controller that holds the fence `fence`. */
  datatype Job = Job(kind: Kind, scope: Scope, fence: u64, policy: Policy)

  // ----- External calls and their replies

  datatype Call =
    | LoadCall
    | ReplaceCall(expected: Record, next: Record)
    | ObserveCall
    | QuiesceCall
    | ReopenCall
    | AdmitCall
    | FreezeCall
    | ThawCall
    | CheckpointCall
    | RestoreCall(checkpoint: Checkpoint)
    | SampleCall

  datatype QuiesceOutcome = Drained | DemandReturned

  datatype Reply =
    | Failed
    | Done
    | Loaded(record: Record)
    | Active(activity: Activity)
    | Quiesced(quiesce: QuiesceOutcome)
    | Artifact(checkpoint: Checkpoint)
    | Status(populated: bool, frozen: bool)

  predicate Fits(call: Call, reply: Reply) {
    || reply.Failed?
    || match call
       case LoadCall => reply.Loaded?
       case ObserveCall => reply.Active?
       case QuiesceCall => reply.Quiesced?
       case CheckpointCall => reply.Artifact?
       case SampleCall => reply.Status?
       case _ => reply.Done?
  }

  // ----- Outcomes

  datatype Outcome =
    | NoChange
    | Suspended
    | Resumed
    | DemandCancelledSuspend
    | RecoveredQuiesce
    | RecoveredFrozen
    | RecoveredRunning
    | RecordFailure
    | HostFailure
    | ProductFailure
    | EffectFailure
    | InvalidRecord
    | StalePlacement
    | StaleRuntime
    | StaleFence
    | InvalidTransition
    | RecoveryRequired(state: State)

  // ----- Program counters

  /** Where a controller stands once it has loaded a record, named by the call it makes next. */
  datatype Point =
    | CancelRecovered        // recover_quiesce
    | PublishRecovered
    | FirstObserve           // reconcile_once
    | PublishQuiescing       // suspend_from_running
    | AskQuiesce
    | SecondObserve
    | CancelDemand           // cancel_suspend_for_demand
    | PublishCancelled
    | PublishFreezing
    | DoFreeze
    | PublishFrozen          // also recover_freezing
    | PublishCheckpointing
    | DoCheckpoint
    | PublishHibernated(artifact: Checkpoint)
    | PublishThawing         // resume_frozen
    | DoThaw
    | PublishRestoring(artifact: Checkpoint)   // restore_hibernated
    | DoRestore(artifact: Checkpoint)
    | Reopen                 // resume_frozen, restore_hibernated and finish_running
    | VerifyReady
    | PublishRunning
    | TakeSample             // recover_freeze_transition
    | PublishCancelThaw      // recover_freezing
    | CancelPendingFreeze
    | FinishThaw             // recover_thawing

  /** `base` is the record the controller last loaded or published. */
  datatype Pc =
    | Loading
    | At(point: Point, base: Record)
    | Finished(outcome: Outcome)

  // ----- Publication

  /** The state a publishing point writes. */
  function Target(point: Point): Option<State> {
    match point
    case PublishRecovered | PublishCancelled | PublishRunning => Some(Running)
    case PublishQuiescing => Some(Quiescing)
    case PublishFreezing => Some(Freezing)
    case PublishFrozen => Some(Frozen)
    case PublishCheckpointing => Some(Checkpointing)
    case PublishHibernated(_) => Some(Hibernated)
    case PublishThawing | PublishCancelThaw => Some(Thawing)
    case PublishRestoring(_) => Some(Restoring)
    case _ => None
  }

  function NextRecord(current: Record, fence: u64, state: State, checkpoint: Option<Checkpoint>): Record {
    current.(
      fencingToken := fence,
      revision := SaturatingIncrement(current.revision),
      state := state,
      checkpoint := checkpoint)
  }

  /** The checkpoint a publishing point writes. */
  function TargetCheckpoint(point: Point): Option<Checkpoint> {
    match point
    case PublishHibernated(artifact) => Some(artifact)
    case PublishRestoring(artifact) => Some(artifact)
    case _ => None
  }

  /** The record a publishing point proposes on top of `base`. */
  function Proposal(job: Job, point: Point, base: Record): Record
    requires Target(point).Some?
  {
    NextRecord(base, job.fence, Target(point).value, TargetCheckpoint(point))
  }

  /** `persist` validates the replacement before it calls the store. */
  function Persist(job: Job, point: Point, base: Record): Pc
    requires Target(point).Some?
  {
    if Accepts(base, Proposal(job, point, base)) then At(point, base)
    else Finished(InvalidRecord)
  }

  // ----- Authority

  /** `None` when the loaded record lets this call go on. */
  function Refusal(job: Job, record: Record): Option<Outcome> {
    if Validate(record).Some? then Some(InvalidRecord)
    else match job.kind
      case Reconcile =>
        if record.assignedNode != job.scope.node || record.placementEpoch != job.scope.placementEpoch then
          Some(StalePlacement)
        else if record.runtimeEpoch != job.scope.runtimeEpoch then Some(StaleRuntime)
        else if job.fence < record.fencingToken then Some(StaleFence)
        else if job.policy.strategy != record.strategy then Some(InvalidRecord)
        else None
      case RecoverFreeze =>
        if || record.workloadId != job.scope.workloadId
           || record.assignedNode != job.scope.node
           || record.placementEpoch != job.scope.placementEpoch
           || record.runtimeEpoch != job.scope.runtimeEpoch
        then Some(StalePlacement)
        else if job.fence < record.fencingToken then Some(StaleFence)
        else if job.policy.strategy != Freeze || record.strategy != Freeze then Some(InvalidRecord)
        else None
  }

  // ----- The automaton

  /** What the call does once its record is loaded. */
  function AfterLoad(job: Job, record: Record): Pc {
    if Refusal(job, record).Some? then Finished(Refusal(job, record).value)
    else if job.kind.RecoverFreeze? then At(TakeSample, record)
    else match record.state
      case Quiescing => At(CancelRecovered, record)
      case Running | Frozen | Hibernated => At(FirstObserve, record)
      case _ => Finished(RecoveryRequired(record.state))
  }

  /** What `reconcile_once` does with its demand observation. */
  function AfterObserve(job: Job, base: Record, activity: Activity): Pc {
    match Decide(ToPolicyState(base), job.policy, Observed(activity))
    case None => Finished(InvalidTransition)
    case Some(decision) =>
      match decision.action
      case NoAction => Finished(NoChange)
      case BeginQuiesce => Persist(job, PublishQuiescing, base)
      case RequestThaw => Persist(job, PublishThawing, base)
      case RequestRestore =>
        if base.checkpoint.None? then Finished(InvalidRecord)
        else Persist(job, PublishRestoring(base.checkpoint.value), base)
      case _ => Finished(InvalidTransition)
  }

  /** What `suspend_from_running` does after the demand-free second observation. */
  function AfterQuiesce(job: Job, base: Record): Pc {
    match Decide(PolicyQuiescing(job.policy.strategy), job.policy, QuiesceSucceeded)
    case None => Finished(InvalidTransition)
    case Some(decision) =>
      match decision.action
      case RequestFreeze => Persist(job, PublishFreezing, base)
      case CheckpointAndTerminate => Persist(job, PublishCheckpointing, base)
      case _ => Finished(InvalidTransition)
  }

  /** What recovery does with the kernel's freeze state. */
  function AfterSample(job: Job, base: Record, populated: bool, frozen: bool): Pc {
    if !populated then Finished(EffectFailure)
    else match base.state
      case Freezing =>
        if frozen then Persist(job, PublishFrozen, base)
        else Persist(job, PublishCancelThaw, base)
      case Thawing =>
        if frozen then At(FinishThaw, base) else At(Reopen, base)
      case _ => Finished(RecoveryRequired(base.state))
  }

  /** What the call does once the record it proposed is durable. */
  function AfterPublish(job: Job, point: Point, published: Record): Pc
    requires Target(point).Some?
  {
    match point
    case PublishRecovered => Finished(RecoveredQuiesce)
    case PublishQuiescing => At(AskQuiesce, published)
    case PublishCancelled => Finished(DemandCancelledSuspend)
    case PublishFreezing => At(DoFreeze, published)
    case PublishFrozen => Finished(if job.kind.Reconcile? then Suspended else RecoveredFrozen)
    case PublishCheckpointing => At(DoCheckpoint, published)
    case PublishHibernated(_) => Finished(Suspended)
    case PublishThawing => At(DoThaw, published)
    case PublishRestoring(_) => At(DoRestore(point.artifact), published)
    case PublishCancelThaw => At(CancelPendingFreeze, published)
    case PublishRunning => Finished(if job.kind.Reconcile? then Resumed else RecoveredRunning)
  }

  function NextCall(job: Job, pc: Pc): Call
    requires !pc.Finished?
  {
    if pc.Loading? then LoadCall
    else match pc.point
      case FirstObserve | SecondObserve => ObserveCall
      case AskQuiesce => QuiesceCall
      case CancelRecovered | CancelDemand | Reopen => ReopenCall
      case VerifyReady => AdmitCall
      case DoFreeze => FreezeCall
      case DoThaw | CancelPendingFreeze | FinishThaw => ThawCall
      case DoCheckpoint => CheckpointCall
      case DoRestore(artifact) => RestoreCall(artifact)
      case TakeSample => SampleCall
      case _ => ReplaceCall(pc.base, Proposal(job, pc.point, pc.base))
  }

  /** How a failed call ends the controller. */
  function FailureOf(call: Call): Outcome {
    match call
    case LoadCall | ReplaceCall(_, _) => RecordFailure
    case ObserveCall | AdmitCall => HostFailure
    case QuiesceCall | ReopenCall => ProductFailure
    case _ => EffectFailure
  }

  function Resume(job: Job, pc: Pc, reply: Reply): Pc
    requires !pc.Finished? && Fits(NextCall(job, pc), reply)
  {
    if reply.Failed? then Finished(FailureOf(NextCall(job, pc)))
    else if NextCall(job, pc).LoadCall? then AfterLoad(job, reply.record)
    else match pc.point
      case FirstObserve => AfterObserve(job, pc.base, reply.activity)
      case SecondObserve =>
        if reply.activity.HasDemand() then At(CancelDemand, pc.base) else AfterQuiesce(job, pc.base)
      case AskQuiesce =>
        At(if reply.quiesce.DemandReturned? then CancelDemand else SecondObserve, pc.base)
      case CancelRecovered => Persist(job, PublishRecovered, pc.base)
      case CancelDemand => Persist(job, PublishCancelled, pc.base)
      case DoFreeze => Persist(job, PublishFrozen, pc.base)
      case DoCheckpoint => Persist(job, PublishHibernated(reply.checkpoint), pc.base)
      case DoThaw | DoRestore(_) | CancelPendingFreeze | FinishThaw => At(Reopen, pc.base)
      case Reopen => At(VerifyReady, pc.base)
      case VerifyReady => Persist(job, PublishRunning, pc.base)
      case TakeSample => AfterSample(job, pc.base, reply.populated, reply.frozen)
      case _ => AfterPublish(job, pc.point, Proposal(job, pc.point, pc.base))
  }

  // ----- Whole traces of one controller call

  datatype Exchange = Exchange(call: Call, reply: Reply)

  /**
   Where a call stands after the exchanges `t`, or `None` when the controller would
   not have made those calls. Every prefix of a trace is the trace of a crashed call.
   */
  function Follow(job: Job, t: seq<Exchange>): Option<Pc>
    decreases |t|
  {
    if |t| == 0 then Some(Loading)
    else
      var last := |t| - 1;
      var before := Follow(job, t[..last]);
      if || before.None?
         || before.value.Finished?
         || NextCall(job, before.value) != t[last].call
         || !Fits(t[last].call, t[last].reply)
      then None
      else Some(Resume(job, before.value, t[last].reply))
  }

  lemma {:induction false} FollowExtends(job: Job, t: seq<Exchange>, e: Exchange)
    ensures Follow(job, t + [e]) ==
            (if || Follow(job, t).None?
                || Follow(job, t).value.Finished?
                || NextCall(job, Follow(job, t).value) != e.call
                || !Fits(e.call, e.reply)
             then None
             else Some(Resume(job, Follow(job, t).value, e.reply)))
  {
    assert (t + [e])[..|t|] == t;
  }

  // ----- What every program counter guarantees

  /** The durable states in which a controller can stand at `point`. */
  predicate StateFits(point: Point, state: State) {
    match point
    case CancelRecovered | PublishRecovered => state == Quiescing
    case FirstObserve => state == Running || state == Frozen || state == Hibernated
    case PublishQuiescing => state == Running
    case AskQuiesce | SecondObserve | CancelDemand | PublishCancelled => state == Quiescing
    case PublishFreezing | PublishCheckpointing => state == Quiescing
    case DoFreeze | PublishFrozen | PublishCancelThaw => state == Freezing
    case DoCheckpoint | PublishHibernated(_) => state == Checkpointing
    case PublishThawing => state == Frozen
    case DoThaw | CancelPendingFreeze | FinishThaw => state == Thawing
    case PublishRestoring(_) => state == Hibernated
    case DoRestore(_) => state == Restoring
    case Reopen | VerifyReady | PublishRunning => state == Thawing || state == Restoring
    case TakeSample => true
  }

  /** The points that only a recovery call visits. */
  predicate RecoveryOnly(point: Point) {
    point.TakeSample? || point.PublishCancelThaw? || point.CancelPendingFreeze? || point.FinishThaw?
  }

  /** The points that a recovery call can visit. */
  predicate RecoveryVisits(point: Point) {
    || RecoveryOnly(point)
    || point.PublishFrozen? || point.Reopen? || point.VerifyReady? || point.PublishRunning?
  }

  /** The points a controller reaches only by publishing `base` itself. */
  predicate OwnsBase(point: Point) {
    match point
    case AskQuiesce | SecondObserve | CancelDemand | PublishCancelled => true
    case PublishFreezing | PublishCheckpointing | DoFreeze | DoCheckpoint | PublishHibernated(_) => true
    case DoThaw | DoRestore(_) | CancelPendingFreeze => true
    case _ => false
  }

  /** What holds of a controller at `point` before the proposed replacement is checked. */
  predicate Standing(job: Job, point: Point, base: Record) {
    && Refusal(job, base).None?
    && StateFits(point, base.state)
    && (RecoveryOnly(point) ==> job.kind.RecoverFreeze?)
    && (job.kind.RecoverFreeze? ==> RecoveryVisits(point))
    && (OwnsBase(point) ==> base.fencingToken == job.fence)
    && (point.PublishFreezing? ==> base.strategy == Freeze)
    && (point.PublishCheckpointing? ==> base.strategy == Hibernate)
    && (point.PublishRestoring? || point.DoRestore? ==> base.checkpoint == Some(point.artifact))
  }

  predicate WellFormed(job: Job, pc: Pc) {
    match pc
    case Loading => true
    case Finished(outcome) => !outcome.InvalidTransition?
    case At(point, base) =>
      && Standing(job, point, base)
      && (Target(point).Some? ==> Accepts(base, Proposal(job, point, base)))
  }

  /** A published record keeps the authority its base gave the job. */
  lemma ProposalKeepsAuthority(job: Job, point: Point, base: Record)
    requires Target(point).Some?
    requires Refusal(job, base).None?
    requires Accepts(base, Proposal(job, point, base))
    ensures Refusal(job, Proposal(job, point, base)).None?
  {
  }

  lemma AfterPublishIsWellFormed(job: Job, point: Point, base: Record)
    requires Target(point).Some?
    requires WellFormed(job, At(point, base))
    ensures WellFormed(job, AfterPublish(job, point, Proposal(job, point, base)))
  {
    ProposalKeepsAuthority(job, point, base);
  }

  lemma AfterSampleIsWellFormed(job: Job, base: Record, populated: bool, frozen: bool)
    requires Standing(job, TakeSample, base)
    ensures WellFormed(job, AfterSample(job, base, populated, frozen))
  {
  }

  lemma AfterObserveIsWellFormed(job: Job, base: Record, activity: Activity)
    requires Standing(job, FirstObserve, base)
    ensures WellFormed(job, AfterObserve(job, base, activity))
  {
  }

  lemma AfterQuiesceIsWellFormed(job: Job, base: Record)
    requires Standing(job, SecondObserve, base)
    ensures WellFormed(job, AfterQuiesce(job, base))
    ensures Standing(job, CancelDemand, base)
  {
  }

  lemma AfterLoadIsWellFormed(job: Job, record: Record)
    ensures WellFormed(job, AfterLoad(job, record))
  {
  }

  /** `Persist` only ever stands at a point whose proposal is accepted. */
  lemma PersistIsWellFormed(job: Job, point: Point, base: Record)
    requires Target(point).Some? && Standing(job, point, base)
    ensures WellFormed(job, Persist(job, point, base))
  {
  }

  lemma PublishKeepsWellFormed(job: Job, pc: Pc, reply: Reply)
    requires pc.At? && Target(pc.point).Some? && WellFormed(job, pc)
    requires reply.Done?
    ensures Fits(NextCall(job, pc), reply) && WellFormed(job, Resume(job, pc, reply))
  {
    AfterPublishIsWellFormed(job, pc.point, pc.base);
  }

  /** The points whose successful call is followed by a publication. */
  predicate LeadsToPublication(point: Point) {
    point.CancelRecovered? || point.CancelDemand? || point.DoFreeze? || point.DoCheckpoint? || point.VerifyReady?
  }

  lemma LastCallKeepsWellFormed(job: Job, pc: Pc, reply: Reply)
    requires pc.At? && LeadsToPublication(pc.point) && Standing(job, pc.point, pc.base)
    requires Fits(NextCall(job, pc), reply) && !reply.Failed?
    ensures WellFormed(job, Resume(job, pc, reply))
  {
    match pc.point
    case CancelRecovered => PersistIsWellFormed(job, PublishRecovered, pc.base);
    case CancelDemand => PersistIsWellFormed(job, PublishCancelled, pc.base);
    case DoFreeze => PersistIsWellFormed(job, PublishFrozen, pc.base);
    case DoCheckpoint => PersistIsWellFormed(job, PublishHibernated(reply.checkpoint), pc.base);
    case VerifyReady => PersistIsWellFormed(job, PublishRunning, pc.base);
  }

  lemma EffectKeepsWellFormed(job: Job, pc: Pc, reply: Reply)
    requires pc.At? && Target(pc.point).None? && !LeadsToPublication(pc.point)
    requires Standing(job, pc.point, pc.base)
    requires !pc.point.FirstObserve? && !pc.point.TakeSample? && !pc.point.SecondObserve?
    requires Fits(NextCall(job, pc), reply) && !reply.Failed?
    ensures WellFormed(job, Resume(job, pc, reply))
  {
    if pc.point.AskQuiesce? {
    } else if pc.point.Reopen? {
    } else {
      assert Resume(job, pc, reply) == At(Reopen, pc.base);
    }
  }

  lemma ResumeKeepsWellFormed(job: Job, pc: Pc, reply: Reply)
    requires WellFormed(job, pc) && !pc.Finished?
    requires Fits(NextCall(job, pc), reply)
    ensures WellFormed(job, Resume(job, pc, reply))
  {
    if reply.Failed? {
    } else if pc.Loading? {
      AfterLoadIsWellFormed(job, reply.record);
    } else if Target(pc.point).Some? {
      PublishKeepsWellFormed(job, pc, reply);
    } else if pc.point.FirstObserve? {
      AfterObserveIsWellFormed(job, pc.base, reply.activity);
    } else if pc.point.TakeSample? {
      AfterSampleIsWellFormed(job, pc.base, reply.populated, reply.frozen);
    } else if pc.point.SecondObserve? {
      AfterQuiesceIsWellFormed(job, pc.base);
    } else if LeadsToPublication(pc.point) {
      LastCallKeepsWellFormed(job, pc, reply);
    } else {
      EffectKeepsWellFormed(job, pc, reply);
    }
  }

  lemma {:induction false} FollowIsWellFormed(job: Job, t: seq<Exchange>)
    requires Follow(job, t).Some?
    ensures WellFormed(job, Follow(job, t).value)
    decreases |t|
  {
    if |t| > 0 {
      var last := |t| - 1;
      FollowIsWellFormed(job, t[..last]);
      ResumeKeepsWellFormed(job, Follow(job, t[..last]).value, t[last].reply);
    }
  }
}
