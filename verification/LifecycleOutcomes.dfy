/**
 What a call ends with. For every trace: which outcome its last exchange means. For every
 trace whose calls succeed: the whole sequence of calls and the outcome, spelled out from
 the loaded record, the fields of the observed activity and the product's answer.
 */
module LifecycleOutcomes {
  import opened Outcomes
  import opened LifecycleRecords
  import opened LifecyclePolicies
  import opened LifecycleControllers
  import opened LifecycleTraces

  // ----- The protocol, spelled out

  predicate Demanding(a: Activity) {
    a.queueDepth > 0 || a.inFlight > 0
  }

  predicate IdleLongEnough(a: Activity, policy: Policy) {
    a.queueDepth == 0 && a.inFlight == 0 && a.idleForMs >= policy.minimumIdleMs
  }

  /** The record lets this controller act on it. */
  predicate Authorised(job: Job, r: Record) {
    && Valid(r)
    && r.assignedNode == job.scope.node
    && r.placementEpoch == job.scope.placementEpoch
    && r.runtimeEpoch == job.scope.runtimeEpoch
    && r.fencingToken <= job.fence
    && r.strategy == job.policy.strategy
    && (job.kind.RecoverFreeze? ==> r.workloadId == job.scope.workloadId && r.strategy == Freeze)
  }

  /** The same incarnation one revision later, in another state and under the controller's fence. */
  function Successor(job: Job, r: Record, state: State, checkpoint: Option<Checkpoint>): Record
    requires r.revision < U64_MAX
  {
    Record(r.workloadId, r.assignedNode, r.placementEpoch, r.runtimeEpoch, job.fence, r.revision + 1,
           state, r.strategy, checkpoint)
  }

  function Loads(r: Record): Exchange { Exchange(LoadCall, Loaded(r)) }

  function Observes(a: Activity): Exchange { Exchange(ObserveCall, Active(a)) }

  function Does(call: Call): Exchange { Exchange(call, Done) }

  function Publishes(a: Record, b: Record): Exchange { Exchange(ReplaceCall(a, b), Done) }

  /** Reopen the product, be admitted, publish `running` on top of `r`. */
  function FinishTrace(job: Job, r: Record): seq<Exchange>
    requires r.revision < U64_MAX
  {
    [Does(ReopenCall), Does(AdmitCall), Publishes(r, Successor(job, r, Running, None))]
  }

  function WakeTrace(job: Job, r: Record, a: Activity): seq<Exchange>
    requires r.revision < U64_MAX - 1 && (r.state == Frozen || (r.state == Hibernated && r.checkpoint.Some?))
  {
    var intent := Successor(job, r, if r.state == Frozen then Thawing else Restoring,
                            if r.state == Frozen then None else r.checkpoint);
    [Loads(r), Observes(a), Publishes(r, intent),
     Does(if r.state == Frozen then ThawCall else RestoreCall(r.checkpoint.value))]
    + FinishTrace(job, intent)
  }

  function QuiesceTrace(job: Job, r: Record, a: Activity, answer: QuiesceOutcome): seq<Exchange>
    requires r.revision < U64_MAX
  {
    [Loads(r), Observes(a), Publishes(r, Successor(job, r, Quiescing, None)), Exchange(QuiesceCall, Quiesced(answer))]
  }

  function CancelTrace(job: Job, r: Record): seq<Exchange>
    requires r.revision < U64_MAX
  {
    [Does(ReopenCall), Publishes(r, Successor(job, r, Running, None))]
  }

  function FreezeTrace(job: Job, q: Record): seq<Exchange>
    requires q.revision < U64_MAX - 1
  {
    var intent := Successor(job, q, Freezing, None);
    [Publishes(q, intent), Does(FreezeCall), Publishes(intent, Successor(job, intent, Frozen, None))]
  }

  function HibernateTrace(job: Job, q: Record, c: Checkpoint): seq<Exchange>
    requires q.revision < U64_MAX - 1
  {
    var intent := Successor(job, q, Checkpointing, None);
    [Publishes(q, intent), Exchange(CheckpointCall, Artifact(c)),
     Publishes(intent, Successor(job, intent, Hibernated, Some(c)))]
  }

  /** A call that loaded an authorised record with room for its revisions, and in which nothing failed. */
  ghost predicate Smooth(job: Job, t: seq<Exchange>) {
    && |t| > 0 && t[0].reply.Loaded? && Authorised(job, t[0].reply.record) && t[0].reply.record.revision < U64_MAX - 2
    && forall i | 0 <= i < |t| :: !t[i].reply.Failed? && (t[i].reply.Artifact? ==> ValidateCheckpoint(t[i].reply.checkpoint).None?)
  }

  // ----- The automaton, table by table

  lemma AuthorisedIff(job: Job, r: Record)
    ensures Refusal(job, r).None? <==> Authorised(job, r)
  {
  }

  lemma LoadGoes(job: Job, r: Record)
    requires Authorised(job, r)
    ensures NextCall(job, Loading) == LoadCall
    ensures Resume(job, Loading, Loaded(r)) ==
            if job.kind.RecoverFreeze? then At(TakeSample, r)
            else match r.state
              case Quiescing => At(CancelRecovered, r)
              case Running | Frozen | Hibernated => At(FirstObserve, r)
              case _ => Finished(RecoveryRequired(r.state))
  {
    hide Refusal, Validate;
    AuthorisedIff(job, r);
  }

  lemma SuccessorIsProposal(job: Job, point: Point, base: Record)
    requires Target(point).Some? && base.revision < U64_MAX
    ensures Proposal(job, point, base) == Successor(job, base, Target(point).value, TargetCheckpoint(point))
  {
  }

  /** A publication that the standing record has room for is made. */
  lemma PersistGoes(job: Job, point: Point, base: Record)
    requires Target(point).Some? && Standing(job, point, base) && base.revision < U64_MAX
    requires point.PublishHibernated? ==> ValidateCheckpoint(point.artifact).None?
    ensures Persist(job, point, base) == At(point, base)
  {
    hide Accepts, Standing;
    ProposalIsAcceptedIff(job, point, base);
  }

  lemma ObserveGoes(job: Job, r: Record, a: Activity)
    requires job.kind.Reconcile? && Standing(job, FirstObserve, r) && r.revision < U64_MAX
    ensures NextCall(job, At(FirstObserve, r)) == ObserveCall
    ensures r.state == Hibernated ==> r.checkpoint.Some?
    ensures Resume(job, At(FirstObserve, r), Active(a)) ==
            match r.state
            case Running => if IdleLongEnough(a, job.policy) then At(PublishQuiescing, r) else Finished(NoChange)
            case Frozen => if Demanding(a) then At(PublishThawing, r) else Finished(NoChange)
            case _ => if Demanding(a) then At(PublishRestoring(r.checkpoint.value), r) else Finished(NoChange)
  {
    hide Accepts, Validate, Decide, Persist;
    DecisionTable(ToPolicyState(r), job.policy, Observed(a));
    ValidIff(r);
    if r.state == Running {
      PersistGoes(job, PublishQuiescing, r);
    } else if r.state == Frozen {
      PersistGoes(job, PublishThawing, r);
    } else {
      PersistGoes(job, PublishRestoring(r.checkpoint.value), r);
    }
  }

  lemma SecondObserveGoes(job: Job, q: Record, a: Activity)
    requires job.kind.Reconcile? && Standing(job, SecondObserve, q) && q.revision < U64_MAX
    ensures NextCall(job, At(SecondObserve, q)) == ObserveCall
    ensures Resume(job, At(SecondObserve, q), Active(a)) ==
            if Demanding(a) then At(CancelDemand, q)
            else if job.policy.strategy == Freeze then At(PublishFreezing, q)
            else At(PublishCheckpointing, q)
  {
    hide Accepts, Validate, Decide, Persist;
    DecisionTable(PolicyQuiescing(job.policy.strategy), job.policy, QuiesceSucceeded);
    if job.policy.strategy == Freeze {
      PersistGoes(job, PublishFreezing, q);
    } else {
      PersistGoes(job, PublishCheckpointing, q);
    }
  }

  lemma QuiesceGoes(job: Job, q: Record, answer: QuiesceOutcome)
    ensures NextCall(job, At(AskQuiesce, q)) == QuiesceCall
    ensures Resume(job, At(AskQuiesce, q), Quiesced(answer)) ==
            At(if answer.Drained? then SecondObserve else CancelDemand, q)
  {
  }

  /** The calls that a publication follows. */
  lemma LastCallGoes(job: Job, point: Point, r: Record, reply: Reply)
    requires Standing(job, point, r) && r.revision < U64_MAX && !reply.Failed?
    requires LeadsToPublication(point) && Fits(NextCall(job, At(point, r)), reply)
    requires point.DoCheckpoint? && reply.Artifact? ==> ValidateCheckpoint(reply.checkpoint).None?
    ensures NextCall(job, At(point, r)) ==
            match point
            case CancelRecovered | CancelDemand => ReopenCall
            case DoFreeze => FreezeCall
            case DoCheckpoint => CheckpointCall
            case _ => AdmitCall
    ensures reply.Artifact? <==> point.DoCheckpoint?
    ensures Resume(job, At(point, r), reply) ==
            match point
            case CancelRecovered => At(PublishRecovered, r)
            case CancelDemand => At(PublishCancelled, r)
            case DoFreeze => At(PublishFrozen, r)
            case DoCheckpoint => At(PublishHibernated(reply.checkpoint), r)
            case _ => At(PublishRunning, r)
  {
    hide Accepts, Refusal, Persist;
    match point
    case CancelRecovered => PersistGoes(job, PublishRecovered, r);
    case CancelDemand => PersistGoes(job, PublishCancelled, r);
    case DoFreeze => PersistGoes(job, PublishFrozen, r);
    case DoCheckpoint => PersistGoes(job, PublishHibernated(reply.checkpoint), r);
    case _ => PersistGoes(job, PublishRunning, r);
  }

  /** The calls that reactivate the workload, and the reopening. */
  lemma ReactivationGoes(job: Job, point: Point, r: Record)
    requires point.DoThaw? || point.CancelPendingFreeze? || point.FinishThaw? || point.DoRestore? || point.Reopen?
    ensures NextCall(job, At(point, r)) ==
            match point
            case Reopen => ReopenCall
            case DoRestore(c) => RestoreCall(c)
            case _ => ThawCall
    ensures Resume(job, At(point, r), Done) == At(if point.Reopen? then VerifyReady else Reopen, r)
  {
  }

  lemma PublishGoes(job: Job, point: Point, r: Record)
    requires Target(point).Some? && r.revision < U64_MAX
    ensures NextCall(job, At(point, r)) ==
            ReplaceCall(r, Successor(job, r, Target(point).value, TargetCheckpoint(point)))
    ensures var next := Successor(job, r, Target(point).value, TargetCheckpoint(point));
            Resume(job, At(point, r), Done) ==
            match point
            case PublishRecovered => Finished(RecoveredQuiesce)
            case PublishCancelled => Finished(DemandCancelledSuspend)
            case PublishQuiescing => At(AskQuiesce, next)
            case PublishFreezing => At(DoFreeze, next)
            case PublishCheckpointing => At(DoCheckpoint, next)
            case PublishThawing => At(DoThaw, next)
            case PublishRestoring(c) => At(DoRestore(c), next)
            case PublishCancelThaw => At(CancelPendingFreeze, next)
            case PublishHibernated(_) => Finished(Suspended)
            case PublishFrozen => Finished(if job.kind.Reconcile? then Suspended else RecoveredFrozen)
            case _ => Finished(if job.kind.Reconcile? then Resumed else RecoveredRunning)
  {
    SuccessorIsProposal(job, point, r);
  }

  lemma SampleGoes(job: Job, r: Record, populated: bool, frozen: bool)
    requires Standing(job, TakeSample, r) && r.revision < U64_MAX
    ensures NextCall(job, At(TakeSample, r)) == SampleCall
    ensures Resume(job, At(TakeSample, r), Status(populated, frozen)) ==
            if !populated then Finished(EffectFailure)
            else match r.state
              case Freezing => At(if frozen then PublishFrozen else PublishCancelThaw, r)
              case Thawing => At(if frozen then FinishThaw else Reopen, r)
              case _ => Finished(RecoveryRequired(r.state))
  {
    hide Accepts, Refusal, Persist;
    if r.state == Freezing {
      PersistGoes(job, PublishFrozen, r);
      PersistGoes(job, PublishCancelThaw, r);
    }
  }

  // ----- Following a finished trace forwards

  lemma Forward(job: Job, t: seq<Exchange>, o: Outcome, k: nat, pc: Pc)
    requires Follow(job, t) == Some(Finished(o)) && k <= |t| && Follow(job, t[..k]) == Some(pc)
    ensures pc.Finished? ==> k == |t| && pc == Finished(o)
    ensures !pc.Finished? ==>
              && k < |t| && t[k].call == NextCall(job, pc) && Fits(t[k].call, t[k].reply)
              && Follow(job, t[..k + 1]) == Some(Resume(job, pc, t[k].reply))
    ensures pc.At? ==> Standing(job, pc.point, pc.base)
  {
    hide Resume, NextCall, Fits, Standing, Accepts;
    FollowPrefix(job, t, k);
    FollowIsWellFormed(job, t[..k]);
    if k == |t| {
      assert t[..k] == t;
    }
  }

  /** Publishes from `point` at `k` and stands where that leads. */
  lemma ForwardPublish(job: Job, t: seq<Exchange>, o: Outcome, k: nat, point: Point, r: Record)
    requires Follow(job, t) == Some(Finished(o)) && k <= |t| && Follow(job, t[..k]) == Some(At(point, r))
    requires Target(point).Some? && r.revision < U64_MAX && forall i | 0 <= i < |t| :: !t[i].reply.Failed?
    ensures k < |t| && t[k] == Publishes(r, Successor(job, r, Target(point).value, TargetCheckpoint(point)))
    ensures Fits(NextCall(job, At(point, r)), Done) && Follow(job, t[..k + 1]) == Some(Resume(job, At(point, r), Done))
  {
    hide Resume, NextCall, Standing, Follow;
    Forward(job, t, o, k, At(point, r));
    PublishGoes(job, point, r);
  }

  /** From `Reopen` to the published `running`. */
  lemma ForwardFinish(job: Job, t: seq<Exchange>, o: Outcome, k: nat, r: Record)
    requires Follow(job, t) == Some(Finished(o)) && k <= |t| && Follow(job, t[..k]) == Some(At(Reopen, r))
    requires r.revision < U64_MAX && forall i | 0 <= i < |t| :: !t[i].reply.Failed?
    ensures |t| == k + 3 && t[k..] == FinishTrace(job, r)
    ensures o == if job.kind.Reconcile? then Resumed else RecoveredRunning
  {
    hide Resume, NextCall, Standing, Follow, Successor;
    Forward(job, t, o, k, At(Reopen, r));
    ReactivationGoes(job, Reopen, r);
    Forward(job, t, o, k + 1, At(VerifyReady, r));
    LastCallGoes(job, VerifyReady, r, t[k + 1].reply);
    ForwardPublish(job, t, o, k + 2, PublishRunning, r);
    PublishGoes(job, PublishRunning, r);
    Forward(job, t, o, k + 3, Finished(if job.kind.Reconcile? then Resumed else RecoveredRunning));
  }

  // ----- Reconciliation completes

  lemma {:induction false} WakeCompletes(job: Job, t: seq<Exchange>, o: Outcome, r: Record)
    requires job.kind.Reconcile? && Follow(job, t) == Some(Finished(o)) && Smooth(job, t)
    requires r == t[0].reply.record && (r.state == Frozen || r.state == Hibernated)
    ensures |t| >= 2 && t[1].reply.Active? && (r.state == Hibernated ==> r.checkpoint.Some?)
    ensures var a := t[1].reply.activity;
            if Demanding(a) then o == Resumed && t == WakeTrace(job, r, a)
            else o == NoChange && t == [Loads(r), Observes(a)]
  {
    hide Resume, NextCall, Standing, Follow, Successor, Authorised, FinishTrace;
    var a, point, intent := WakeStarts(job, t, o, r);
    if Demanding(a) {
      ForwardPublish(job, t, o, 2, point, r);
      PublishGoes(job, point, r);
      var next := if r.state == Frozen then DoThaw else DoRestore(r.checkpoint.value);
      SuccessorRevision(job, r, Target(point).value, TargetCheckpoint(point));
      Forward(job, t, o, 3, At(next, intent));
      ReactivationGoes(job, next, intent);
      ForwardFinish(job, t, o, 4, intent);
      assert t == t[..4] + t[4..];
    }
  }

  /** The load and the observation of a suspended workload. */
  lemma WakeStarts(job: Job, t: seq<Exchange>, o: Outcome, r: Record) returns (a: Activity, point: Point, intent: Record)
    requires job.kind.Reconcile? && Follow(job, t) == Some(Finished(o)) && Smooth(job, t)
    requires r == t[0].reply.record && (r.state == Frozen || r.state == Hibernated)
    ensures |t| >= 2 && t[..2] == [Loads(r), Observes(a)] && (r.state == Hibernated ==> r.checkpoint.Some?)
    ensures point == if r.state == Frozen then PublishThawing else PublishRestoring(r.checkpoint.value)
    ensures intent == Successor(job, r, Target(point).value, TargetCheckpoint(point))
    ensures if Demanding(a) then Follow(job, t[..2]) == Some(At(point, r)) else |t| == 2 && o == NoChange
  {
    hide Resume, NextCall, Standing, Follow, Authorised;
    ForwardLoad(job, t, o, r);
    LoadGoes(job, r);
    Forward(job, t, o, 1, At(FirstObserve, r));
    NextObserves(job, r);
    a := t[1].reply.activity;
    ObserveGoes(job, r, a);
    point := if r.state == Frozen then PublishThawing else PublishRestoring(r.checkpoint.value);
    intent := Successor(job, r, Target(point).value, TargetCheckpoint(point));
    if !Demanding(a) {
      Forward(job, t, o, 2, Finished(NoChange));
    }
  }

  lemma SuccessorRevision(job: Job, r: Record, state: State, checkpoint: Option<Checkpoint>)
    requires r.revision < U64_MAX
    ensures Successor(job, r, state, checkpoint).revision == r.revision + 1
    ensures Successor(job, r, state, checkpoint).state == state
  {
  }

  lemma ForwardLoad(job: Job, t: seq<Exchange>, o: Outcome, r: Record)
    requires Follow(job, t) == Some(Finished(o)) && Smooth(job, t) && r == t[0].reply.record
    ensures t[0] == Loads(r) && Fits(NextCall(job, Loading), Loaded(r))
    ensures Follow(job, t[..1]) == Some(Resume(job, Loading, Loaded(r)))
  {
    hide Resume, Authorised;
    assert t[..0] == [];
    NothingHappened(job);
    Forward(job, t, o, 0, Loading);
    LoadGoes(job, r);
  }

  lemma NextObserves(job: Job, r: Record)
    ensures NextCall(job, At(FirstObserve, r)) == ObserveCall
    ensures NextCall(job, At(SecondObserve, r)) == ObserveCall
    ensures NextCall(job, At(AskQuiesce, r)) == QuiesceCall
    ensures NextCall(job, At(TakeSample, r)) == SampleCall
  {
  }

  lemma {:induction false} QuiescingCompletes(job: Job, t: seq<Exchange>, o: Outcome, r: Record)
    requires job.kind.Reconcile? && Follow(job, t) == Some(Finished(o)) && Smooth(job, t)
    requires r == t[0].reply.record && r.state == Quiescing
    ensures o == RecoveredQuiesce && t == [Loads(r)] + CancelTrace(job, r)
  {
    hide Resume, NextCall, Standing, Follow, Successor, Authorised;
    ForwardLoad(job, t, o, r);
    LoadGoes(job, r);
    Forward(job, t, o, 1, At(CancelRecovered, r));
    LastCallGoes(job, CancelRecovered, r, t[1].reply);
    ForwardPublish(job, t, o, 2, PublishRecovered, r);
    PublishGoes(job, PublishRecovered, r);
    Forward(job, t, o, 3, Finished(RecoveredQuiesce));
  }

  /** Demand came back, before or after the drain. */
  lemma ForwardCancel(job: Job, t: seq<Exchange>, o: Outcome, k: nat, q: Record)
    requires Follow(job, t) == Some(Finished(o)) && k <= |t| && Follow(job, t[..k]) == Some(At(CancelDemand, q))
    requires q.revision < U64_MAX && forall i | 0 <= i < |t| :: !t[i].reply.Failed?
    ensures |t| == k + 2 && t[k..] == CancelTrace(job, q) && o == DemandCancelledSuspend
  {
    hide Resume, NextCall, Standing, Follow, Successor;
    Forward(job, t, o, k, At(CancelDemand, q));
    LastCallGoes(job, CancelDemand, q, t[k].reply);
    ForwardPublish(job, t, o, k + 1, PublishCancelled, q);
    PublishGoes(job, PublishCancelled, q);
    Forward(job, t, o, k + 2, Finished(DemandCancelledSuspend));
  }

  lemma ForwardFreeze(job: Job, t: seq<Exchange>, o: Outcome, k: nat, q: Record)
    requires job.kind.Reconcile? && Follow(job, t) == Some(Finished(o)) && k <= |t|
    requires Follow(job, t[..k]) == Some(At(PublishFreezing, q))
    requires q.revision < U64_MAX - 1 && forall i | 0 <= i < |t| :: !t[i].reply.Failed?
    ensures |t| == k + 3 && t[k..] == FreezeTrace(job, q) && o == Suspended
  {
    hide Resume, NextCall, Standing, Follow, Successor;
    var intent := Successor(job, q, Freezing, None);
    SuccessorRevision(job, q, Freezing, None);
    ForwardPublish(job, t, o, k, PublishFreezing, q);
    PublishGoes(job, PublishFreezing, q);
    Forward(job, t, o, k + 1, At(DoFreeze, intent));
    LastCallGoes(job, DoFreeze, intent, t[k + 1].reply);
    ForwardPublish(job, t, o, k + 2, PublishFrozen, intent);
    PublishGoes(job, PublishFrozen, intent);
    Forward(job, t, o, k + 3, Finished(Suspended));
  }

  lemma ForwardHibernate(job: Job, t: seq<Exchange>, o: Outcome, k: nat, q: Record)
    requires job.kind.Reconcile? && Follow(job, t) == Some(Finished(o)) && k <= |t|
    requires Follow(job, t[..k]) == Some(At(PublishCheckpointing, q))
    requires q.revision < U64_MAX - 1
    requires forall i | 0 <= i < |t| :: !t[i].reply.Failed? && (t[i].reply.Artifact? ==> ValidateCheckpoint(t[i].reply.checkpoint).None?)
    ensures |t| == k + 3 && t[k + 1].reply.Artifact? && o == Suspended
    ensures t[k..] == HibernateTrace(job, q, t[k + 1].reply.checkpoint)
  {
    hide Resume, NextCall, Standing, Follow, Successor, ValidateCheckpoint;
    var intent := Successor(job, q, Checkpointing, None);
    SuccessorRevision(job, q, Checkpointing, None);
    ForwardPublish(job, t, o, k, PublishCheckpointing, q);
    PublishGoes(job, PublishCheckpointing, q);
    Forward(job, t, o, k + 1, At(DoCheckpoint, intent));
    LastCallGoes(job, DoCheckpoint, intent, t[k + 1].reply);
    var c := t[k + 1].reply.checkpoint;
    ForwardPublish(job, t, o, k + 2, PublishHibernated(c), intent);
    PublishGoes(job, PublishHibernated(c), intent);
    Forward(job, t, o, k + 3, Finished(Suspended));
  }

  /** What a call does with a workload that has been idle: quiesce, and then suspend or cancel. */
  ghost predicate SuspendedAs(job: Job, t: seq<Exchange>, o: Outcome, r: Record)
    requires r.revision < U64_MAX - 2
  {
    var q := Successor(job, r, Quiescing, None);
    && |t| >= 4 && t[1].reply.Active? && t[3].reply.Quiesced?
    && t[..4] == QuiesceTrace(job, r, t[1].reply.activity, t[3].reply.quiesce)
    && if t[3].reply.quiesce.DemandReturned? then o == DemandCancelledSuspend && t[4..] == CancelTrace(job, q)
       else
         && |t| >= 5 && t[4].reply.Active? && t[4] == Observes(t[4].reply.activity)
         && if Demanding(t[4].reply.activity) then o == DemandCancelledSuspend && t[5..] == CancelTrace(job, q)
            else if job.policy.strategy == Freeze then o == Suspended && t[5..] == FreezeTrace(job, q)
            else o == Suspended && |t| == 8 && t[6].reply.Artifact? && t[5..] == HibernateTrace(job, q, t[6].reply.checkpoint)
  }

  lemma {:induction false} RunningCompletes(job: Job, t: seq<Exchange>, o: Outcome, r: Record)
    requires job.kind.Reconcile? && Follow(job, t) == Some(Finished(o)) && Smooth(job, t)
    requires r == t[0].reply.record && r.state == Running
    ensures |t| >= 2 && t[1].reply.Active?
    ensures if IdleLongEnough(t[1].reply.activity, job.policy) then SuspendedAs(job, t, o, r)
            else o == NoChange && t == [Loads(r), Observes(t[1].reply.activity)]
  {
    hide Resume, NextCall, Standing, Follow, Authorised, CancelTrace, FreezeTrace, HibernateTrace;
    ForwardLoad(job, t, o, r);
    LoadGoes(job, r);
    Forward(job, t, o, 1, At(FirstObserve, r));
    NextObserves(job, r);
    var a := t[1].reply.activity;
    ObserveGoes(job, r, a);
    if IdleLongEnough(a, job.policy) {
      var q := Successor(job, r, Quiescing, None);
      ForwardPublish(job, t, o, 2, PublishQuiescing, r);
      PublishGoes(job, PublishQuiescing, r);
      QuiescedCompletes(job, t, o, q);
      assert t[..4] == QuiesceTrace(job, r, a, t[3].reply.quiesce);
    } else {
      Forward(job, t, o, 2, Finished(NoChange));
    }
  }

  lemma QuiescedCompletes(job: Job, t: seq<Exchange>, o: Outcome, q: Record)
    requires job.kind.Reconcile? && Follow(job, t) == Some(Finished(o)) && |t| >= 3
    requires Follow(job, t[..3]) == Some(At(AskQuiesce, q)) && q.revision < U64_MAX - 1
    requires forall i | 0 <= i < |t| :: !t[i].reply.Failed? && (t[i].reply.Artifact? ==> ValidateCheckpoint(t[i].reply.checkpoint).None?)
    ensures |t| >= 4 && t[3].reply.Quiesced? && t[3].call == QuiesceCall
    ensures if t[3].reply.quiesce.DemandReturned? then o == DemandCancelledSuspend && t[4..] == CancelTrace(job, q)
            else
              && |t| >= 5 && t[4].reply.Active? && t[4] == Observes(t[4].reply.activity)
              && if Demanding(t[4].reply.activity) then o == DemandCancelledSuspend && t[5..] == CancelTrace(job, q)
                 else if job.policy.strategy == Freeze then o == Suspended && t[5..] == FreezeTrace(job, q)
                 else o == Suspended && |t| == 8 && t[6].reply.Artifact? && t[5..] == HibernateTrace(job, q, t[6].reply.checkpoint)
  {
    hide Resume, NextCall, Standing, Follow, CancelTrace, FreezeTrace, HibernateTrace, ValidateCheckpoint;
    NextObserves(job, q);
    Forward(job, t, o, 3, At(AskQuiesce, q));
    QuiesceGoes(job, q, t[3].reply.quiesce);
    if t[3].reply.quiesce.DemandReturned? {
      ForwardCancel(job, t, o, 4, q);
    } else {
      Forward(job, t, o, 4, At(SecondObserve, q));
      SecondObserveGoes(job, q, t[4].reply.activity);
      if Demanding(t[4].reply.activity) {
        ForwardCancel(job, t, o, 5, q);
      } else if job.policy.strategy == Freeze {
        ForwardFreeze(job, t, o, 5, q);
      } else {
        ForwardHibernate(job, t, o, 5, q);
      }
    }
  }

  /** What a reconcile does with the record it loaded: its whole trace and its outcome. */
  ghost predicate ReconciledAs(job: Job, t: seq<Exchange>, o: Outcome, r: Record)
    requires r.revision < U64_MAX - 2
  {
    match r.state
    case Quiescing => o == RecoveredQuiesce && t == [Loads(r)] + CancelTrace(job, r)
    case Running =>
      && |t| >= 2 && t[1].reply.Active?
      && if IdleLongEnough(t[1].reply.activity, job.policy) then SuspendedAs(job, t, o, r)
         else o == NoChange && t == [Loads(r), Observes(t[1].reply.activity)]
    case Frozen | Hibernated =>
      && |t| >= 2 && t[1].reply.Active? && (r.state == Hibernated ==> r.checkpoint.Some?)
      && if Demanding(t[1].reply.activity) then o == Resumed && t == WakeTrace(job, r, t[1].reply.activity)
         else o == NoChange && t == [Loads(r), Observes(t[1].reply.activity)]
    case _ => o == RecoveryRequired(r.state) && t == [Loads(r)]
  }

  /**
   A reconcile in which nothing fails does exactly this: it wakes a frozen or hibernated
   workload with demand, suspends a running one that stays idle, cancels when demand comes
   back, recovers an interrupted quiesce, leaves everything else alone, and hands the four
   transitional states to recovery.
   */
  lemma {:induction false} ReconcileCompletes(job: Job, t: seq<Exchange>, o: Outcome)
    requires job.kind.Reconcile? && Follow(job, t) == Some(Finished(o)) && Smooth(job, t)
    ensures ReconciledAs(job, t, o, t[0].reply.record)
  {
    hide Resume, NextCall, Follow, Authorised, SuspendedAs, WakeTrace, CancelTrace;
    var r := t[0].reply.record;
    match r.state
    case Quiescing => QuiescingCompletes(job, t, o, r);
    case Running => RunningCompletes(job, t, o, r);
    case Frozen => WakeCompletes(job, t, o, r);
    case Hibernated => WakeCompletes(job, t, o, r);
    case _ =>
      ForwardLoad(job, t, o, r);
      LoadGoes(job, r);
      Forward(job, t, o, 1, Finished(RecoveryRequired(r.state)));
  }

  // ----- Recovery completes

  /** What a recovery does with the record it loaded and the sample it took. */
  ghost predicate RecoveredAs(job: Job, t: seq<Exchange>, o: Outcome, r: Record)
    requires r.revision < U64_MAX - 2
  {
    && |t| >= 2 && t[1].reply.Status? && t[..2] == [Loads(r), Exchange(SampleCall, t[1].reply)]
    && var frozen := t[1].reply.frozen;
       if !t[1].reply.populated then o == EffectFailure && |t| == 2
       else match r.state
         case Freezing =>
           if frozen then o == RecoveredFrozen && t[2..] == [Publishes(r, Successor(job, r, Frozen, None))]
           else
             var intent := Successor(job, r, Thawing, None);
             o == RecoveredRunning && t[2..] == [Publishes(r, intent), Does(ThawCall)] + FinishTrace(job, intent)
         case Thawing =>
           o == RecoveredRunning && t[2..] == (if frozen then [Does(ThawCall)] else []) + FinishTrace(job, r)
         case _ => o == RecoveryRequired(r.state) && |t| == 2
  }

  /** A recovery in which nothing fails finishes the freeze or the thaw that it finds, as the kernel's state decides. */
  lemma {:induction false} RecoveryCompletes(job: Job, t: seq<Exchange>, o: Outcome)
    requires job.kind.RecoverFreeze? && Follow(job, t) == Some(Finished(o)) && Smooth(job, t)
    ensures RecoveredAs(job, t, o, t[0].reply.record)
  {
    hide Resume, NextCall, Standing, Follow, Authorised, FinishTrace, Successor;
    var r := t[0].reply.record;
    ForwardLoad(job, t, o, r);
    LoadGoes(job, r);
    Forward(job, t, o, 1, At(TakeSample, r));
    NextObserves(job, r);
    var populated, frozen := t[1].reply.populated, t[1].reply.frozen;
    SampleGoes(job, r, populated, frozen);
    if !populated {
      Forward(job, t, o, 2, Finished(EffectFailure));
    } else if r.state == Freezing {
      FreezingCompletes(job, t, o, r, frozen);
    } else if r.state == Thawing {
      ThawingCompletes(job, t, o, r, frozen);
    } else {
      Forward(job, t, o, 2, Finished(RecoveryRequired(r.state)));
    }
  }

  lemma FreezingCompletes(job: Job, t: seq<Exchange>, o: Outcome, r: Record, frozen: bool)
    requires job.kind.RecoverFreeze? && Follow(job, t) == Some(Finished(o)) && |t| >= 2
    requires Follow(job, t[..2]) == Some(At(if frozen then PublishFrozen else PublishCancelThaw, r))
    requires r.revision < U64_MAX - 1 && forall i | 0 <= i < |t| :: !t[i].reply.Failed?
    ensures if frozen then o == RecoveredFrozen && t[2..] == [Publishes(r, Successor(job, r, Frozen, None))]
            else
              var intent := Successor(job, r, Thawing, None);
              o == RecoveredRunning && t[2..] == [Publishes(r, intent), Does(ThawCall)] + FinishTrace(job, intent)
  {
    hide Resume, NextCall, Standing, Follow, Successor, FinishTrace;
    if frozen {
      ForwardPublish(job, t, o, 2, PublishFrozen, r);
      PublishGoes(job, PublishFrozen, r);
      Forward(job, t, o, 3, Finished(RecoveredFrozen));
    } else {
      var intent := Successor(job, r, Thawing, None);
      SuccessorRevision(job, r, Thawing, None);
      ForwardPublish(job, t, o, 2, PublishCancelThaw, r);
      PublishGoes(job, PublishCancelThaw, r);
      Forward(job, t, o, 3, At(CancelPendingFreeze, intent));
      ReactivationGoes(job, CancelPendingFreeze, intent);
      ForwardFinish(job, t, o, 4, intent);
      assert t[2..] == [t[2], t[3]] + t[4..];
    }
  }

  lemma ThawingCompletes(job: Job, t: seq<Exchange>, o: Outcome, r: Record, frozen: bool)
    requires job.kind.RecoverFreeze? && Follow(job, t) == Some(Finished(o)) && |t| >= 2
    requires Follow(job, t[..2]) == Some(At(if frozen then FinishThaw else Reopen, r))
    requires r.revision < U64_MAX && forall i | 0 <= i < |t| :: !t[i].reply.Failed?
    ensures o == RecoveredRunning && t[2..] == (if frozen then [Does(ThawCall)] else []) + FinishTrace(job, r)
  {
    hide Resume, NextCall, Standing, Follow, FinishTrace;
    if frozen {
      Forward(job, t, o, 2, At(FinishThaw, r));
      ReactivationGoes(job, FinishThaw, r);
      ForwardFinish(job, t, o, 3, r);
      assert t[2..] == [t[2]] + t[3..];
    } else {
      ForwardFinish(job, t, o, 2, r);
      assert t[2..] == [] + t[2..];
    }
  }

  // ----- What every outcome means, whatever failed

  /** What the loaded record was when a call has come to a point. */
  predicate Origin(job: Job, pc: Pc, r: Record) {
    pc.At? ==>
      && Authorised(job, r)
      && (pc.point.FirstObserve? || pc.point.TakeSample? ==> pc.base == r)
      && (job.kind.Reconcile? ==>
            match pc.point
            case FirstObserve => true
            case CancelRecovered | PublishRecovered => r.state == Quiescing
            case PublishThawing | DoThaw => r.state == Frozen
            case PublishRestoring(_) | DoRestore(_) => r.state == Hibernated
            case Reopen | VerifyReady | PublishRunning => r.state == Frozen || r.state == Hibernated
            case _ => r.state == Running)
  }

  lemma OriginStep(job: Job, pc: Pc, reply: Reply, r: Record)
    requires WellFormed(job, pc) && !pc.Finished? && Fits(NextCall(job, pc), reply)
    requires if pc.Loading? then reply.Loaded? ==> reply.record == r else Origin(job, pc, r)
    ensures Origin(job, Resume(job, pc, reply), r)
  {
    hide Accepts, Refusal, Authorised;
    AuthorisedIff(job, r);
  }

  lemma {:induction false} FollowFromOrigin(job: Job, t: seq<Exchange>)
    requires Follow(job, t).Some? && |t| > 0
    ensures Follow(job, t).value.Finished? || t[0].reply.Loaded?
    ensures t[0].reply.Loaded? ==> Origin(job, Follow(job, t).value, t[0].reply.record)
    decreases |t|
  {
    hide Resume, NextCall, Fits, WellFormed, Origin;
    var last := |t| - 1;
    FollowPrefix(job, t, last);
    FollowIsWellFormed(job, t[..last]);
    assert t[..last + 1] == t;
    var pc := Follow(job, t[..last]).value;
    if last > 0 {
      FollowFromOrigin(job, t[..last]);
      if pc.Loading? {
        LoadingIsEmpty(job, t[..last]);
      }
      if t[0].reply.Loaded? {
        OriginStep(job, pc, t[last].reply, t[0].reply.record);
      }
    } else {
      assert t[..0] == [];
      NothingHappened(job);
      FirstReply(job, t[0].reply);
      if t[0].reply.Loaded? {
        OriginStep(job, pc, t[0].reply, t[0].reply.record);
      }
    }
  }

  lemma FirstReply(job: Job, reply: Reply)
    requires Fits(NextCall(job, Loading), reply)
    ensures reply.Loaded? || (reply.Failed? && Resume(job, Loading, reply) == Finished(RecordFailure))
  {
    hide Refusal;
  }

  /** The exchange made a record in `state` durable. */
  predicate Published(e: Exchange, state: State) {
    e.call.ReplaceCall? && e.reply.Done? && e.call.next.state == state
  }

  /** The record belongs to the placement and runtime that the job is for. */
  predicate InScope(job: Job, r: Record) {
    && r.assignedNode == job.scope.node && r.placementEpoch == job.scope.placementEpoch
    && (job.kind.RecoverFreeze? ==> r.workloadId == job.scope.workloadId && r.runtimeEpoch == job.scope.runtimeEpoch)
  }

  /** Outcomes of a call that published or failed, from its last exchange and the loaded record. */
  ghost predicate EndMeans(job: Job, loaded: Option<Record>, e: Exchange, o: Outcome) {
    var s := if loaded.Some? then Some(loaded.value.state) else None;
    && (o == RecoveredFrozen <==> job.kind.RecoverFreeze? && Published(e, Frozen))
    && (o == RecoveredRunning <==> job.kind.RecoverFreeze? && Published(e, Running))
    && (o == Suspended <==> job.kind.Reconcile? && (Published(e, Frozen) || Published(e, Hibernated)))
    && (o == Resumed <==> job.kind.Reconcile? && Published(e, Running) && (s == Some(Frozen) || s == Some(Hibernated)))
    && (o == DemandCancelledSuspend <==> job.kind.Reconcile? && Published(e, Running) && s == Some(Running))
    && (o == RecoveredQuiesce <==> job.kind.Reconcile? && Published(e, Running) && s == Some(Quiescing))
    && (o == RecordFailure <==> e.reply.Failed? && (e.call.LoadCall? || e.call.ReplaceCall?))
    && (o == HostFailure <==> e.reply.Failed? && (e.call.ObserveCall? || e.call.AdmitCall?))
    && (o == ProductFailure <==> e.reply.Failed? && (e.call.QuiesceCall? || e.call.ReopenCall?))
    && (o == EffectFailure <==>
          || (e.reply.Status? && !e.reply.populated)
          || (e.reply.Failed? && (e.call.SampleCall? || IsEffect(e.call))))
  }

  /** Outcomes of a call that stopped at its load, at its first observation or at its sample. */
  ghost predicate StopMeans(job: Job, n: nat, loaded: Option<Record>, e: Exchange, o: Outcome) {
    && (o.RecoveryRequired? <==>
          && loaded.Some? && Authorised(job, loaded.value)
          && var s := loaded.value.state;
             if job.kind.Reconcile? then e.reply.Loaded? && s in {Freezing, Checkpointing, Thawing, Restoring}
             else e.reply.Status? && e.reply.populated && s != Freezing && s != Thawing)
    && (o.RecoveryRequired? ==> o.state == loaded.value.state)
    && (o == NoChange <==>
          && job.kind.Reconcile? && n == 2 && e.reply.Active? && loaded.Some?
          && if loaded.value.state == Running then !IdleLongEnough(e.reply.activity, job.policy)
             else !Demanding(e.reply.activity))
    && (o == StalePlacement <==> e.reply.Loaded? && Valid(e.reply.record) && !InScope(job, e.reply.record))
    && (o == StaleRuntime <==>
          && e.reply.Loaded? && Valid(e.reply.record) && InScope(job, e.reply.record)
          && e.reply.record.runtimeEpoch != job.scope.runtimeEpoch)
    && (o == StaleFence <==>
          && e.reply.Loaded? && Valid(e.reply.record) && InScope(job, e.reply.record)
          && e.reply.record.runtimeEpoch == job.scope.runtimeEpoch && job.fence < e.reply.record.fencingToken)
  }

  lemma PublicationMeans(job: Job, pc: Pc, r: Record, n: nat, o: Outcome)
    requires WellFormed(job, pc) && pc.At? && Target(pc.point).Some? && Origin(job, pc, r)
    requires Fits(NextCall(job, pc), Done) && Resume(job, pc, Done) == Finished(o)
    ensures EndMeans(job, Some(r), Exchange(NextCall(job, pc), Done), o)
    ensures StopMeans(job, n, Some(r), Exchange(NextCall(job, pc), Done), o)
  {
    hide Accepts, Refusal, Authorised, Validate;
  }

  lemma FailureMeans(job: Job, pc: Pc, loaded: Option<Record>, n: nat)
    requires !pc.Finished?
    ensures Fits(NextCall(job, pc), Failed) && Resume(job, pc, Failed).Finished?
    ensures EndMeans(job, loaded, Exchange(NextCall(job, pc), Failed), Resume(job, pc, Failed).outcome)
    ensures StopMeans(job, n, loaded, Exchange(NextCall(job, pc), Failed), Resume(job, pc, Failed).outcome)
  {
    hide Accepts, Refusal, Authorised, Validate;
  }

  lemma LoadMeans(job: Job, r: Record, o: Outcome)
    requires NextCall(job, Loading) == LoadCall && Resume(job, Loading, Loaded(r)) == Finished(o)
    ensures EndMeans(job, Some(r), Loads(r), o) && StopMeans(job, 1, Some(r), Loads(r), o)
  {
    hide Validate;
  }

  lemma SampleMeans(job: Job, pc: Pc, reply: Reply, r: Record, n: nat, o: Outcome)
    requires pc.At? && pc.point.TakeSample? && Origin(job, pc, r) && reply.Status?
    requires WellFormed(job, pc) && NextCall(job, pc) == SampleCall && Resume(job, pc, reply) == Finished(o)
    ensures EndMeans(job, Some(r), Exchange(SampleCall, reply), o)
    ensures StopMeans(job, n, Some(r), Exchange(SampleCall, reply), o)
  {
    hide Accepts, Validate;
  }

  lemma ObservedStates(job: Job, pc: Pc)
    requires pc.At? && pc.point.FirstObserve? && WellFormed(job, pc)
    ensures job.kind.Reconcile? && (pc.base.state == Running || pc.base.state == Frozen || pc.base.state == Hibernated)
  {
    hide Accepts, Refusal;
  }

  lemma FirstObserveMeans(job: Job, pc: Pc, reply: Reply, r: Record, o: Outcome)
    requires pc.At? && pc.point.FirstObserve? && Origin(job, pc, r) && reply.Active?
    requires WellFormed(job, pc) && NextCall(job, pc) == ObserveCall && Resume(job, pc, reply) == Finished(o)
    ensures EndMeans(job, Some(r), Exchange(ObserveCall, reply), o)
    ensures StopMeans(job, 2, Some(r), Exchange(ObserveCall, reply), o)
  {
    hide Accepts, Validate, Decide, Authorised, Refusal;
    ObservedStates(job, pc);
    DecisionTable(ToPolicyState(pc.base), job.policy, Observed(reply.activity));
  }

  lemma SecondObserveMeans(job: Job, pc: Pc, reply: Reply, r: Record, n: nat, o: Outcome)
    requires pc.At? && pc.point.SecondObserve? && n != 2 && Origin(job, pc, r) && reply.Active?
    requires WellFormed(job, pc) && NextCall(job, pc) == ObserveCall && Resume(job, pc, reply) == Finished(o)
    ensures EndMeans(job, Some(r), Exchange(ObserveCall, reply), o)
    ensures StopMeans(job, n, Some(r), Exchange(ObserveCall, reply), o)
  {
    hide Accepts, Validate, Decide, Authorised, Refusal;
    DecisionTable(PolicyQuiescing(job.policy.strategy), job.policy, QuiesceSucceeded);
  }

  /** Any other call that succeeds can end only because the next record is refused. */
  lemma OtherAnswers(job: Job, pc: Pc, reply: Reply, r: Record, n: nat, o: Outcome)
    requires pc.At? && Target(pc.point).None? && WellFormed(job, pc) && Origin(job, pc, r)
    requires !pc.point.TakeSample? && !pc.point.FirstObserve? && !pc.point.SecondObserve?
    requires Fits(NextCall(job, pc), reply) && !reply.Failed? && Resume(job, pc, reply) == Finished(o)
    ensures o == InvalidRecord
    ensures EndMeans(job, Some(r), Exchange(NextCall(job, pc), reply), o)
    ensures StopMeans(job, n, Some(r), Exchange(NextCall(job, pc), reply), o)
  {
    hide Accepts, Refusal, Validate, Authorised;
  }

  /** The kinds of call from which a call can end without a failure. */
  lemma AnswerMeans(job: Job, pc: Pc, reply: Reply, r: Record, n: nat, o: Outcome)
    requires pc.At? && Target(pc.point).None? && WellFormed(job, pc) && Origin(job, pc, r)
    requires pc.point.FirstObserve? ==> n == 2
    requires pc.point.SecondObserve? ==> n != 2
    requires Fits(NextCall(job, pc), reply) && !reply.Failed? && Resume(job, pc, reply) == Finished(o)
    ensures EndMeans(job, Some(r), Exchange(NextCall(job, pc), reply), o)
    ensures StopMeans(job, n, Some(r), Exchange(NextCall(job, pc), reply), o)
  {
    hide Resume, NextCall, WellFormed, Origin, EndMeans, StopMeans;
    NextObserves(job, pc.base);
    if pc.point.TakeSample? {
      SampleMeans(job, pc, reply, r, n, o);
    } else if pc.point.FirstObserve? {
      FirstObserveMeans(job, pc, reply, r, o);
    } else if pc.point.SecondObserve? {
      SecondObserveMeans(job, pc, reply, r, n, o);
    } else {
      OtherAnswers(job, pc, reply, r, n, o);
    }
  }

  /**
   For every trace that ends, whatever failed in it, the last exchange and the loaded record
   say which outcome it is, and each of these outcomes means exactly that. What is left is
   `InvalidRecord`.
   */
  lemma {:induction false} OutcomeMeans(job: Job, t: seq<Exchange>, o: Outcome)
    requires Follow(job, t) == Some(Finished(o))
    ensures |t| > 0
    ensures var loaded := if t[0].reply.Loaded? then Some(t[0].reply.record) else None;
            EndMeans(job, loaded, t[|t| - 1], o) && StopMeans(job, |t|, loaded, t[|t| - 1], o)
  {
    hide Resume, NextCall, Fits, WellFormed, Origin, EndMeans, StopMeans, OnSuspendPath;
    assert |t| > 0;
    var last := |t| - 1;
    FollowPrefix(job, t, last);
    FollowIsWellFormed(job, t[..last]);
    assert t[..last + 1] == t;
    var pc, e := Follow(job, t[..last]).value, t[last];
    var loaded := if t[0].reply.Loaded? then Some(t[0].reply.record) else None;
    if e.reply.Failed? {
      FailureMeans(job, pc, loaded, |t|);
    } else if last == 0 {
      assert t[..0] == [];
      NothingHappened(job);
      FirstReply(job, e.reply);
      LoadIsTheCall(job);
      LoadMeans(job, e.reply.record, o);
    } else {
      FollowFromOrigin(job, t[..last]);
      if pc.Loading? {
        LoadingIsEmpty(job, t[..last]);
      } else if Target(pc.point).Some? {
        PublishersAnswer(job, pc, e.reply);
        PublicationMeans(job, pc, loaded.value, |t|, o);
      } else {
        FollowOnSuspendPath(job, t[..last]);
        ObservationsCount(job, t[..last], pc);
        AnswerMeans(job, pc, e.reply, loaded.value, |t|, o);
      }
    }
  }

  lemma LoadIsTheCall(job: Job)
    ensures NextCall(job, Loading) == LoadCall
  {
  }

  lemma ObservationsCount(job: Job, t: seq<Exchange>, pc: Pc)
    requires pc.At? && OnSuspendPath(job, t, pc.point, pc.base)
    ensures pc.point.FirstObserve? ==> |t| == 1
    ensures pc.point.SecondObserve? ==> |t| == 4
  {
  }

  lemma PublishersAnswer(job: Job, pc: Pc, reply: Reply)
    requires pc.At? && Target(pc.point).Some? && Fits(NextCall(job, pc), reply) && !reply.Failed?
    ensures reply == Done
  {
  }

  // ----- Demand, on the fields

  /**
   Every freeze or checkpoint call follows an observation of no queue, no work in flight
   and the whole grace period, and after the drain a second one of no queue and no work in
   flight.
   */
  lemma {:induction false} SuspendsOnlyWhenIdle(job: Job, t: seq<Exchange>, k: nat)
    requires Follow(job, t).Some? && k < |t|
    requires t[k].call.FreezeCall? || t[k].call.CheckpointCall?
    ensures k == 6 && t[1].reply.Active? && t[4].reply.Active?
    ensures var a := t[1].reply.activity; a.queueDepth == 0 && a.inFlight == 0 && a.idleForMs >= job.policy.minimumIdleMs
    ensures var b := t[4].reply.activity; b.queueDepth == 0 && b.inFlight == 0
  {
    SuspendingEffectOrder(job, t, k);
    assert forall i | 0 <= i < 6 :: t[..6][i] == t[i];
  }

  /**
   A reconcile asks to publish a thaw or restore intent exactly after observing a queue or
   work in flight over an authorised frozen or hibernated record that has room for it.
   */
  lemma {:induction false} WakesExactlyOnDemand(job: Job, t: seq<Exchange>)
    requires job.kind.Reconcile? && Follow(job, t).Some? && |t| == 2
    ensures var pc := Follow(job, t).value;
            pc.At? && (pc.point.PublishThawing? || pc.point.PublishRestoring?) <==>
            && t[0].reply.Loaded? && Authorised(job, t[0].reply.record) && t[0].reply.record.revision < U64_MAX
            && (t[0].reply.record.state == Frozen || t[0].reply.record.state == Hibernated)
            && t[1].reply.Active? && (t[1].reply.activity.queueDepth > 0 || t[1].reply.activity.inFlight > 0)
  {
    hide Resume, NextCall, Standing, Authorised, Follow, Accepts;
    FollowPrefix(job, t, 0);
    FollowPrefix(job, t, 1);
    assert t[..0] == [] && t[..2] == t;
    NothingHappened(job);
    LoadIsTheCall(job);
    FirstReply(job, t[0].reply);
    var r := t[0].reply.record;
    LoadStays(job, r);
    var pc := Follow(job, t[..1]).value;
    FollowIsWellFormed(job, t[..1]);
    if r.state == Quiescing {
      CancelsNext(job, r, t[1].reply);
    } else {
      NextObserves(job, r);
      if t[1].reply.Active? {
        ObservesNext(job, r, t[1].reply.activity);
      } else {
        FailureMeans(job, pc, None, 2);
      }
    }
  }

  /** A reconcile that makes a second call has loaded an authorised record in a stable state. */
  lemma LoadStays(job: Job, r: Record)
    requires job.kind.Reconcile? && NextCall(job, Loading) == LoadCall && !Resume(job, Loading, Loaded(r)).Finished?
    ensures Authorised(job, r)
    ensures Resume(job, Loading, Loaded(r)) == At(if r.state == Quiescing then CancelRecovered else FirstObserve, r)
    ensures r.state in {Quiescing, Running, Frozen, Hibernated}
  {
    hide Refusal, Authorised;
    AuthorisedIff(job, r);
  }

  lemma CancelsNext(job: Job, r: Record, reply: Reply)
    requires Fits(NextCall(job, At(CancelRecovered, r)), reply)
    ensures var pc := Resume(job, At(CancelRecovered, r), reply);
            NextCall(job, At(CancelRecovered, r)) == ReopenCall && (pc.At? ==> pc.point.PublishRecovered?)
  {
    hide Accepts;
  }

  lemma ObservesNext(job: Job, r: Record, a: Activity)
    requires job.kind.Reconcile? && Standing(job, FirstObserve, r)
    ensures NextCall(job, At(FirstObserve, r)) == ObserveCall
    ensures var pc := Resume(job, At(FirstObserve, r), Active(a));
            pc.At? && (pc.point.PublishThawing? || pc.point.PublishRestoring?) <==>
            Demanding(a) && r.revision < U64_MAX && (r.state == Frozen || r.state == Hibernated)
  {
    hide Accepts, Validate, Decide;
    if r.revision < U64_MAX {
      ObserveGoes(job, r, a);
    } else {
      DecisionTable(ToPolicyState(r), job.policy, Observed(a));
      SaturatedIsRefused(job, PublishThawing, r);
      if r.checkpoint.Some? {
        SaturatedIsRefused(job, PublishRestoring(r.checkpoint.value), r);
      }
    }
  }

  lemma SaturatedIsRefused(job: Job, point: Point, r: Record)
    requires r.revision == U64_MAX && Target(point).Some?
    ensures !Accepts(r, Proposal(job, point, r))
  {
    AcceptsIffPrecedes(r, Proposal(job, point, r));
  }
}
