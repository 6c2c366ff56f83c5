/**
 What every trace of one controller call guarantees, complete or cut short by a
 crash: the order of its external calls, the policy steps its publications take,
 when a proposed record is refused, and when recovery gets through.
 */
module LifecycleTraces {
  import opened Outcomes
  import opened LifecycleRecords
  import opened LifecyclePolicies
  import opened LifecycleControllers

  lemma {:induction false} FollowPrefix(job: Job, t: seq<Exchange>, k: nat)
    requires Follow(job, t).Some? && k <= |t|
    ensures Follow(job, t[..k]).Some?
    ensures k < |t| ==>
              && !Follow(job, t[..k]).value.Finished?
              && NextCall(job, Follow(job, t[..k]).value) == t[k].call
              && Fits(t[k].call, t[k].reply)
              && Follow(job, t[..k + 1]) == Some(Resume(job, Follow(job, t[..k]).value, t[k].reply))
    decreases |t|
  {
    if k == |t| {
      assert t[..k] == t;
    } else {
      var last := |t| - 1;
      if k == last {
        assert t[..k + 1] == t;
      } else {
        FollowPrefix(job, t[..last], k);
        assert t[..last][..k] == t[..k] && t[..last][..k + 1] == t[..k + 1];
      }
    }
  }

  // ----- Suspension: what precedes a freeze or a checkpoint

  /** The record the first exchange loaded. */
  function LoadedRecord(t: seq<Exchange>): Record
    requires |t| > 0 && t[0].reply.Loaded?
  {
    t[0].reply.record
  }

  function QuiescingRecord(job: Job, t: seq<Exchange>): Record
    requires |t| > 0 && t[0].reply.Loaded?
  {
    Proposal(job, PublishQuiescing, LoadedRecord(t))
  }

  function IntentRecord(job: Job, t: seq<Exchange>): Record
    requires |t| > 0 && t[0].reply.Loaded?
  {
    Proposal(job, if job.policy.strategy == Freeze then PublishFreezing else PublishCheckpointing,
             QuiescingRecord(job, t))
  }

  /** The only six exchanges that may lead up to a suspending effect, in their only order. */
  ghost predicate SuspendPrefix(job: Job, t: seq<Exchange>) {
    && (|t| >= 1 ==> t[0].call == LoadCall && t[0].reply.Loaded? && LoadedRecord(t).state == Running)
    && (|t| >= 2 ==> t[1].call == ObserveCall && t[1].reply.Active?
                     && t[1].reply.activity.IsIdleFor(job.policy.minimumIdleMs))
    && (|t| >= 3 ==> t[2] == Exchange(ReplaceCall(LoadedRecord(t), QuiescingRecord(job, t)), Done))
    && (|t| >= 4 ==> t[3] == Exchange(QuiesceCall, Quiesced(Drained)))
    && (|t| >= 5 ==> t[4].call == ObserveCall && t[4].reply.Active? && !t[4].reply.activity.HasDemand())
    && (|t| >= 6 ==> t[5] == Exchange(ReplaceCall(QuiescingRecord(job, t), IntentRecord(job, t)), Done))
  }

  /** How many exchanges lead to a point of the suspending path, and on which record it stands. */
  ghost predicate OnSuspendPath(job: Job, t: seq<Exchange>, point: Point, base: Record) {
    match point
    case FirstObserve =>
      |t| == 1 && t[0].call == LoadCall && t[0].reply == Loaded(base)
    case PublishQuiescing =>
      |t| == 2 && SuspendPrefix(job, t) && base == LoadedRecord(t)
    case AskQuiesce =>
      |t| == 3 && SuspendPrefix(job, t) && base == QuiescingRecord(job, t)
    case SecondObserve =>
      |t| == 4 && SuspendPrefix(job, t) && base == QuiescingRecord(job, t)
    case PublishFreezing | PublishCheckpointing =>
      |t| == 5 && SuspendPrefix(job, t) && base == QuiescingRecord(job, t)
    case DoFreeze | DoCheckpoint =>
      |t| == 6 && SuspendPrefix(job, t) && base == IntentRecord(job, t)
    case _ => true
  }

  /** The one exchange that leads to each point of the suspending path. */
  lemma SuspendPathPoints(job: Job, pc: Pc, reply: Reply)
    requires WellFormed(job, pc) && !pc.Finished? && Fits(NextCall(job, pc), reply)
    requires Resume(job, pc, reply).At?
    ensures var next, call := Resume(job, pc, reply), NextCall(job, pc);
            match next.point
            case FirstObserve => pc.Loading? && call == LoadCall && reply == Loaded(next.base)
            case PublishQuiescing =>
              && pc == At(FirstObserve, next.base) && next.base.state == Running && call == ObserveCall
              && reply.Active? && reply.activity.IsIdleFor(job.policy.minimumIdleMs)
            case AskQuiesce =>
              && pc.At? && pc.point == PublishQuiescing && reply == Done
              && next.base == Proposal(job, PublishQuiescing, pc.base) && call == ReplaceCall(pc.base, next.base)
            case SecondObserve => pc == At(AskQuiesce, next.base) && call == QuiesceCall && reply == Quiesced(Drained)
            case PublishFreezing | PublishCheckpointing =>
              && pc == At(SecondObserve, next.base) && call == ObserveCall
              && reply.Active? && !reply.activity.HasDemand()
            case DoFreeze =>
              && pc.At? && pc.point == PublishFreezing && reply == Done && job.policy.strategy == Freeze
              && next.base == Proposal(job, PublishFreezing, pc.base) && call == ReplaceCall(pc.base, next.base)
            case DoCheckpoint =>
              && pc.At? && pc.point == PublishCheckpointing && reply == Done && job.policy.strategy == Hibernate
              && next.base == Proposal(job, PublishCheckpointing, pc.base) && call == ReplaceCall(pc.base, next.base)
            case _ => true
  {
    hide Accepts, Validate;
  }

  /** One exchange keeps a call on the suspending path or takes it off the path for good. */
  lemma SuspendPathStep(job: Job, t: seq<Exchange>, e: Exchange)
    requires Follow(job, t).Some? && Follow(job, t + [e]).Some?
    requires var pc := Follow(job, t).value;
             && WellFormed(job, pc)
             && (pc.At? ==> OnSuspendPath(job, t, pc.point, pc.base))
    ensures var pc := Follow(job, t + [e]).value;
            pc.At? ==> OnSuspendPath(job, t + [e], pc.point, pc.base)
  {
    hide Resume, NextCall, Fits, WellFormed, Proposal, Follow;
    FollowExtends(job, t, e);
    var pc := Follow(job, t).value;
    var next := Resume(job, pc, e.reply);
    if next.At? {
      SuspendPathPoints(job, pc, e.reply);
      if pc.Loading? {
        LoadingIsEmpty(job, t);
      }
      var u := t + [e];
      assert forall i | 0 <= i < |t| :: u[i] == t[i];
      assert u[|t|] == e;
    }
  }

  lemma {:induction false} LoadingIsEmpty(job: Job, t: seq<Exchange>)
    requires Follow(job, t) == Some(Loading)
    ensures t == []
  {
  }

  lemma {:induction false} FollowOnSuspendPath(job: Job, t: seq<Exchange>)
    requires Follow(job, t).Some?
    ensures var pc := Follow(job, t).value;
            pc.At? ==> OnSuspendPath(job, t, pc.point, pc.base)
    decreases |t|
  {
    hide Resume, NextCall, Fits, WellFormed, OnSuspendPath;
    if |t| > 0 {
      var last := |t| - 1;
      FollowPrefix(job, t, last);
      FollowOnSuspendPath(job, t[..last]);
      FollowIsWellFormed(job, t[..last]);
      assert t[..last] + [t[last]] == t;
      SuspendPathStep(job, t[..last], t[last]);
    }
  }

  /**
   Every freeze or checkpoint call is preceded, in the same call and in this order, by
   the load of a `running` record, an observation idle for the whole grace period, the
   `quiescing` publication, a drained product, a second demand-free host observation
   and the publication of the intent, and by nothing else.
   */
  lemma {:induction false} SuspendingEffectOrder(job: Job, t: seq<Exchange>, k: nat)
    requires Follow(job, t).Some? && k < |t|
    requires t[k].call.FreezeCall? || t[k].call.CheckpointCall?
    ensures k == 6
    ensures SuspendPrefix(job, t[..6])
    ensures IntentRecord(job, t[..6]).state == if t[k].call.FreezeCall? then Freezing else Checkpointing
  {
    FollowPrefix(job, t, k);
    FollowOnSuspendPath(job, t[..k]);
    FollowIsWellFormed(job, t[..k]);
  }

  // ----- Resumption: what precedes a publication of `running`

  ghost predicate Reactivated(e: Exchange, base: Record) {
    || e == Exchange(ThawCall, Done)
    || (base.checkpoint.Some? && e == Exchange(RestoreCall(base.checkpoint.value), Done))
    || e == Exchange(SampleCall, Status(true, false))
  }

  lemma ReopenFollowsReactivation(job: Job, pc: Pc, reply: Reply)
    requires WellFormed(job, pc) && !pc.Finished? && Fits(NextCall(job, pc), reply)
    requires Resume(job, pc, reply).At? && Resume(job, pc, reply).point.Reopen?
    ensures Reactivated(Exchange(NextCall(job, pc), reply), Resume(job, pc, reply).base)
    ensures Resume(job, pc, reply).base.state == Restoring ==> NextCall(job, pc).RestoreCall?
  {
  }

  lemma AdmissionChain(job: Job, pc: Pc, reply: Reply)
    requires !pc.Finished? && Fits(NextCall(job, pc), reply)
    requires Resume(job, pc, reply).At?
    ensures var next := Resume(job, pc, reply);
            && (next.point.PublishRunning? ==>
                  && pc == At(VerifyReady, next.base) && NextCall(job, pc) == AdmitCall && reply == Done)
            && (next.point.VerifyReady? ==>
                  && pc == At(Reopen, next.base) && NextCall(job, pc) == ReopenCall && reply == Done)
  {
  }

  /**
   Every publication of `running` from `thawing` or `restoring` follows, immediately and
   in this order, a completed thaw or restore (or a kernel sample that shows none is
   needed), a successful product reopen and a successful host admission.
   */
  lemma {:induction false} ResumeOrder(job: Job, t: seq<Exchange>, k: nat)
    requires Follow(job, t).Some? && k < |t|
    requires t[k].call.ReplaceCall? && t[k].call.next.state == Running
    requires t[k].call.expected.state == Thawing || t[k].call.expected.state == Restoring
    ensures k >= 3
    ensures Reactivated(t[k - 3], t[k].call.expected)
    ensures t[k].call.expected.state == Restoring ==> t[k - 3].call.RestoreCall?
    ensures t[k - 2] == Exchange(ReopenCall, Done)
    ensures t[k - 1] == Exchange(AdmitCall, Done)
  {
    hide Resume, Fits, WellFormed, NextCall;
    FollowPrefix(job, t, k);
    FollowIsWellFormed(job, t[..k]);
    var base := t[k].call.expected;
    PublisherOfRunning(job, Follow(job, t[..k]).value);
    Before(job, t, k);
    AdmissionChain(job, Follow(job, t[..k - 1]).value, t[k - 1].reply);
    Before(job, t, k - 1);
    AdmissionChain(job, Follow(job, t[..k - 2]).value, t[k - 2].reply);
    Before(job, t, k - 2);
    FollowIsWellFormed(job, t[..k - 3]);
    ReopenFollowsReactivation(job, Follow(job, t[..k - 3]).value, t[k - 3].reply);
  }

  lemma PublisherOfRunning(job: Job, pc: Pc)
    requires WellFormed(job, pc) && !pc.Finished?
    requires NextCall(job, pc).ReplaceCall? && NextCall(job, pc).next.state == Running
    requires NextCall(job, pc).expected.state == Thawing || NextCall(job, pc).expected.state == Restoring
    ensures pc == At(PublishRunning, NextCall(job, pc).expected)
  {
  }

  /** The exchange before a point other than `Loading`. */
  lemma Before(job: Job, t: seq<Exchange>, k: nat)
    requires Follow(job, t).Some? && k <= |t|
    requires Follow(job, t[..k]).Some? && !Follow(job, t[..k]).value.Loading?
    ensures k > 0
    ensures Follow(job, t[..k - 1]).Some? && !Follow(job, t[..k - 1]).value.Finished?
    ensures NextCall(job, Follow(job, t[..k - 1]).value) == t[k - 1].call
    ensures Fits(t[k - 1].call, t[k - 1].reply)
    ensures Follow(job, t[..k]) == Some(Resume(job, Follow(job, t[..k - 1]).value, t[k - 1].reply))
  {
    assert k > 0;
    FollowPrefix(job, t, k - 1);
  }

  // ----- Publications are policy steps

  /** The policy decides `b` in `a` when it is told `event`. */
  predicate Decides(policy: Policy, a: PolicyState, event: PolicyEvent, b: PolicyState) {
    Decide(a, policy, event).Some? && Decide(a, policy, event).value.nextState == b
  }

  ghost predicate PolicyStep(policy: Policy, a: PolicyState, b: PolicyState) {
    exists event :: Decides(policy, a, event, b)
  }

  /**
   What the exchanges before a replacement tell the policy, or `None` when the call has
   neither observed demand nor completed an effect.
   */
  function Evidence(t: seq<Exchange>): Option<PolicyEvent> {
    if |t| < 2 then None
    else
      var last, previous := t[|t| - 1], t[|t| - 2];
      match last.call
      case ObserveCall =>
        if previous.reply == Quiesced(Drained) then Some(QuiesceSucceeded)
        else if last.reply.Active? then Some(Observed(last.reply.activity)) else None
      case FreezeCall => if last.reply.Done? then Some(FreezeSucceeded) else None
      case SampleCall => if last.reply == Status(true, true) then Some(FreezeSucceeded) else None
      case CheckpointCall => if last.reply.Artifact? then Some(CheckpointSucceeded) else None
      case AdmitCall => if last.reply.Done? then Some(ResumeSucceeded) else None
      case ReopenCall => if previous.reply.Active? then Some(Observed(previous.reply.activity)) else None
      case _ => None
  }

  /** What a publishing point was reached by, and what that tells the policy. */
  ghost predicate Justifies(job: Job, previous: Reply, e: Exchange, point: Point, base: Record) {
    match point
    case PublishQuiescing | PublishThawing | PublishRestoring(_) =>
      && e.call == ObserveCall && e.reply.Active? && !previous.Quiesced?
      && Decides(job.policy, ToPolicyState(base), Observed(e.reply.activity), ToPolicyState(Proposal(job, point, base)))
    case PublishFreezing | PublishCheckpointing => e.call == ObserveCall && previous == Quiesced(Drained)
    case PublishFrozen =>
      if job.kind.Reconcile? then e == Exchange(FreezeCall, Done) else e == Exchange(SampleCall, Status(true, true))
    case PublishHibernated(_) => e.call == CheckpointCall && e.reply.Artifact?
    case PublishRunning => e == Exchange(AdmitCall, Done)
    case PublishCancelled =>
      e == Exchange(ReopenCall, Done)
      && ((previous.Active? && previous.activity.HasDemand()) || previous == Quiesced(DemandReturned))
    case PublishRecovered => e == Exchange(ReopenCall, Done) && previous == Loaded(base)
    case PublishCancelThaw => e == Exchange(SampleCall, Status(true, false))
    case _ => true
  }

  /** What the reply before last was at each point that a publication can follow. */
  ghost predicate Recalls(pc: Pc, previous: Reply) {
    match pc
    case At(FirstObserve, base) => previous == Loaded(base)
    case At(SecondObserve, _) => previous == Quiesced(Drained)
    case At(CancelDemand, _) => (previous.Active? && previous.activity.HasDemand()) || previous == Quiesced(DemandReturned)
    case At(CancelRecovered, base) => previous == Loaded(base)
    case _ => true
  }

  lemma ResumeRecalls(job: Job, pc: Pc, reply: Reply)
    requires !pc.Finished? && Fits(NextCall(job, pc), reply)
    ensures Recalls(Resume(job, pc, reply), reply)
  {
    hide Accepts, Refusal;
  }

  lemma PublicationIsJustified(job: Job, pc: Pc, previous: Reply, reply: Reply)
    requires WellFormed(job, pc) && pc.At? && Recalls(pc, previous) && Fits(NextCall(job, pc), reply)
    requires Resume(job, pc, reply).At? && Target(Resume(job, pc, reply).point).Some?
    ensures var next := Resume(job, pc, reply);
            Justifies(job, previous, Exchange(NextCall(job, pc), reply), next.point, next.base)
  {
    hide Accepts, Validate;
  }

  /** The policy steps whose event does not depend on what was observed. */
  lemma EffectPublicationDecides(job: Job, point: Point, base: Record)
    requires Standing(job, point, base) && Target(point).Some?
    ensures var a, b := ToPolicyState(base), ToPolicyState(Proposal(job, point, base));
            && (point.PublishFreezing? || point.PublishCheckpointing? ==> Decides(job.policy, a, QuiesceSucceeded, b))
            && (point.PublishFrozen? ==> Decides(job.policy, a, FreezeSucceeded, b))
            && (point.PublishHibernated? ==> Decides(job.policy, a, CheckpointSucceeded, b))
            && (point.PublishRunning? ==> Decides(job.policy, a, ResumeSucceeded, b))
            && (point.PublishCancelled? || point.PublishRecovered? ==>
                  forall x: Activity | x.HasDemand() :: Decides(job.policy, a, Observed(x), b))
            && (point.PublishCancelThaw? ==>
                  Decides(job.policy, a, FreezeSucceeded, PolicyFrozen)
                  && forall x: Activity | x.HasDemand() :: Decides(job.policy, PolicyFrozen, Observed(x), b))
  {
    hide Accepts, Validate;
  }

  /** The three publications that no evidence of the call's own supports. */
  ghost predicate Unsupported(job: Job, t: seq<Exchange>, expected: Record, next: Record) {
    && |t| >= 2
    && (|| (job.kind.Reconcile? && expected.state == Quiescing && next.state == Running
            && t == [Exchange(LoadCall, Loaded(expected)), Exchange(ReopenCall, Done)])
        || (job.kind.Reconcile? && expected.state == Quiescing && next.state == Running
            && t[|t| - 2].reply == Quiesced(DemandReturned) && t[|t| - 1] == Exchange(ReopenCall, Done))
        || (job.kind.RecoverFreeze? && expected.state == Freezing && next.state == Thawing
            && t[|t| - 1] == Exchange(SampleCall, Status(true, false))))
  }

  /**
   Every replacement a controller asks for is the step that the policy decides on the
   evidence of the exchanges before it. The exceptions are exactly three: a `quiescing`
   record found on load and a product that took its drain back are cancelled as if demand
   had been observed, and recovery's `freezing` to `thawing` is the two steps through
   `frozen`.
   */
  lemma {:induction false} ReplacementIsPolicyStep(job: Job, t: seq<Exchange>, k: nat)
    requires Follow(job, t).Some? && k < |t| && t[k].call.ReplaceCall?
    ensures var a, b := ToPolicyState(t[k].call.expected), ToPolicyState(t[k].call.next);
            && (Evidence(t[..k]).Some? ==> Decides(job.policy, a, Evidence(t[..k]).value, b))
            && (Evidence(t[..k]).None? <==> Unsupported(job, t[..k], t[k].call.expected, t[k].call.next))
            && (Evidence(t[..k]).None? && t[k].call.next.state == Running ==>
                  forall x: Activity | x.HasDemand() :: Decides(job.policy, a, Observed(x), b))
            && (Evidence(t[..k]).None? && t[k].call.next.state == Thawing ==>
                  Decides(job.policy, a, FreezeSucceeded, PolicyFrozen)
                  && forall x: Activity | x.HasDemand() :: Decides(job.policy, PolicyFrozen, Observed(x), b))
  {
    hide Resume, Fits, WellFormed, NextCall, Proposal, Decide, Standing, Follow, ToPolicyState;
    FollowPrefix(job, t, k);
    FollowIsWellFormed(job, t[..k]);
    var at := Follow(job, t[..k]).value;
    var point, base := PublisherOf(job, at);
    EffectPublicationDecides(job, point, base);
    Before(job, t, k);
    var pc := Follow(job, t[..k - 1]).value;
    FollowIsWellFormed(job, t[..k - 1]);
    PublishersFollowPoints(job, pc, t[k - 1].reply);
    Before(job, t, k - 1);
    ResumeRecalls(job, Follow(job, t[..k - 2]).value, t[k - 2].reply);
    PublicationIsJustified(job, pc, t[k - 2].reply, t[k - 1].reply);
    assert t[..k][k - 1] == t[k - 1] && t[..k][k - 2] == t[k - 2];
    JustifiedEvidence(job, t[..k], point, base);
    if point.PublishRecovered? {
      LoadIsFirst(job, t, k - 2);
      assert t[..k] == [t[0], t[1]];
    }
  }

  /** A replacement is made at a publishing point. */
  lemma PublisherOf(job: Job, pc: Pc) returns (point: Point, base: Record)
    requires WellFormed(job, pc) && !pc.Finished? && NextCall(job, pc).ReplaceCall?
    ensures pc == At(point, base) && Target(point).Some? && Standing(job, point, base)
    ensures NextCall(job, pc) == ReplaceCall(base, Proposal(job, point, base))
  {
    hide Accepts, Standing;
    point, base := pc.point, pc.base;
  }

  lemma PublishersFollowPoints(job: Job, pc: Pc, reply: Reply)
    requires !pc.Finished? && Fits(NextCall(job, pc), reply)
    requires Resume(job, pc, reply).At? && Target(Resume(job, pc, reply).point).Some?
    ensures pc.At?
  {
    hide Accepts, Refusal;
  }

  lemma LoadIsFirst(job: Job, t: seq<Exchange>, k: nat)
    requires Follow(job, t).Some? && k < |t| && t[k].reply.Loaded?
    ensures k == 0 && t[0].call == LoadCall
  {
    hide Resume, WellFormed;
    FollowPrefix(job, t, k);
    assert Follow(job, t[..k]).value.Loading?;
    LoadingIsEmpty(job, t[..k]);
  }

  /** What a justified publication makes of the evidence. */
  lemma JustifiedEvidence(job: Job, t: seq<Exchange>, point: Point, base: Record)
    requires |t| >= 2 && Target(point).Some? && Standing(job, point, base)
    requires Justifies(job, t[|t| - 2].reply, t[|t| - 1], point, base)
    ensures var e := Evidence(t);
            && (point.PublishFreezing? || point.PublishCheckpointing? ==> e == Some(QuiesceSucceeded))
            && (point.PublishFrozen? ==> e == Some(FreezeSucceeded))
            && (point.PublishHibernated? ==> e == Some(CheckpointSucceeded))
            && (point.PublishRunning? ==> e == Some(ResumeSucceeded))
            && (point.PublishRecovered? || point.PublishCancelThaw? ==> e == None)
            && (point.PublishCancelled? ==>
                  if t[|t| - 2].reply.Active? then e == Some(Observed(t[|t| - 2].reply.activity)) && t[|t| - 2].reply.activity.HasDemand()
                  else e == None && t[|t| - 2].reply == Quiesced(DemandReturned))
            && (point.PublishQuiescing? || point.PublishThawing? || point.PublishRestoring? ==>
                  && e == Some(Observed(t[|t| - 1].reply.activity))
                  && Decides(job.policy, ToPolicyState(base), e.value, ToPolicyState(Proposal(job, point, base))))
    ensures Proposal(job, point, base).state == Target(point).value && StateFits(point, base.state)
    ensures job.kind.RecoverFreeze? ==> RecoveryVisits(point)
    ensures RecoveryOnly(point) ==> job.kind.RecoverFreeze?
  {
    hide Accepts, Refusal, Decide, ToPolicyState;
  }

  /** No call ever ends in `InvalidTransition`. */
  lemma {:induction false} InvalidTransitionIsUnreachable(job: Job, t: seq<Exchange>)
    ensures Follow(job, t) != Some(Finished(InvalidTransition))
  {
    if Follow(job, t).Some? {
      FollowIsWellFormed(job, t);
    }
  }

  // ----- Authority of effects

  predicate IsEffect(call: Call) {
    call.FreezeCall? || call.ThawCall? || call.CheckpointCall? || call.RestoreCall?
  }

  /**
   Every process effect is made on a record that authorises exactly this controller, with
   one exception: a recovery that finds `thawing` under an older fence thaws on that record.
   */
  lemma {:induction false} EffectsAreAuthorised(job: Job, t: seq<Exchange>, k: nat)
    requires Follow(job, t).Some? && k < |t| && IsEffect(t[k].call)
    ensures Follow(job, t[..k]).Some? && Follow(job, t[..k]).value.At?
    ensures var pc := Follow(job, t[..k]).value;
            AuthorizesController(pc.base, job.scope.node, job.scope.placementEpoch, job.scope.runtimeEpoch, job.fence)
            <==> !(&& job.kind.RecoverFreeze? && k == 2
                   && t[0].reply.Loaded? && t[0].reply.record.state == Thawing && t[0].reply.record.fencingToken < job.fence)
  {
    hide Accepts, Validate, Resume;
    FollowPrefix(job, t, k);
    FollowIsWellFormed(job, t[..k]);
    FollowOnRecoveryPath(job, t[..k]);
    FollowPrefix(job, t, 0);
    assert t[..k][..0] == t[..0];
  }

  /** The exception happens: every `thawing` record under an older fence is thawed on that record. */
  lemma UnauthorisedThaw(d: Record, job: Job) returns (t: seq<Exchange>)
    requires Valid(d) && d.state == Thawing && d.fencingToken < job.fence
    requires job.kind.RecoverFreeze? && job.policy.strategy == Freeze
    requires job.scope == Scope(d.workloadId, d.assignedNode, d.placementEpoch, d.runtimeEpoch)
    ensures Follow(job, t).Some? && |t| == 3 && t[2] == Exchange(ThawCall, Done)
    ensures Follow(job, t[..2]) == Some(At(FinishThaw, d))
    ensures !AuthorizesController(d, job.scope.node, job.scope.placementEpoch, job.scope.runtimeEpoch, job.fence)
  {
    hide Accepts, Follow;
    ValidIff(d);
    var load, sample, thaw := Exchange(LoadCall, Loaded(d)), Exchange(SampleCall, Status(true, true)), Exchange(ThawCall, Done);
    t := [] + [load] + [sample] + [thaw];
    assert Follow(job, []) == Some(Loading) by { NothingHappened(job); }
    FollowExtends(job, [], load);
    FollowExtends(job, [] + [load], sample);
    FollowExtends(job, [] + [load] + [sample], thaw);
    assert t[..2] == [] + [load] + [sample];
  }

  lemma NothingHappened(job: Job)
    ensures Follow(job, []) == Some(Loading)
  {
  }

  /** How a recovery gets to its sample and to the thaw that finishes a `thawing` record. */
  ghost predicate OnRecoveryPath(t: seq<Exchange>, pc: Pc) {
    match pc
    case Loading => |t| == 0
    case Finished(_) => true
    case At(point, base) =>
      match point
      case TakeSample => |t| == 1 && t[0].reply == Loaded(base)
      case FinishThaw => |t| == 2 && t[0].reply == Loaded(base)
      case PublishCancelThaw => |t| == 2
      case CancelPendingFreeze => |t| == 3
      case _ => true
  }

  lemma RecoveryPathPoints(job: Job, pc: Pc, reply: Reply)
    requires !pc.Finished? && Fits(NextCall(job, pc), reply)
    ensures !Resume(job, pc, reply).Loading?
    ensures var next := Resume(job, pc, reply);
            next.At? ==>
              match next.point
              case TakeSample => pc.Loading? && reply == Loaded(next.base)
              case FinishThaw => pc == At(TakeSample, next.base)
              case PublishCancelThaw => pc.At? && pc.point.TakeSample?
              case CancelPendingFreeze => pc.At? && pc.point.PublishCancelThaw?
              case _ => true
  {
    hide Accepts, Validate, Refusal, Decide;
  }

  lemma {:induction false} FollowOnRecoveryPath(job: Job, t: seq<Exchange>)
    requires Follow(job, t).Some?
    ensures OnRecoveryPath(t, Follow(job, t).value)
    decreases |t|
  {
    hide Resume, NextCall, Fits;
    if |t| > 0 {
      var last := |t| - 1;
      FollowOnRecoveryPath(job, t[..last]);
      RecoveryPathPoints(job, Follow(job, t[..last]).value, t[last].reply);
    }
  }

  // ----- When a proposal is refused

  /**
   A controller's own proposal is refused exactly when the revision is saturated or the
   checkpoint it was handed is malformed.
   */
  lemma ProposalIsAcceptedIff(job: Job, point: Point, base: Record)
    requires Standing(job, point, base) && Target(point).Some?
    ensures Accepts(base, Proposal(job, point, base)) <==>
            && base.revision < U64_MAX
            && (point.PublishHibernated? ==> ValidateCheckpoint(point.artifact).None?)
  {
    AcceptsIffPrecedes(base, Proposal(job, point, base));
  }

  // ----- Uninterrupted recovery

  /** How many publications a recovery still needs. */
  function RecoverySteps(state: State): nat {
    match state
    case Freezing => 2
    case Thawing => 1
    case _ => 0
  }

  ghost predicate RecoveryOnCourse(pc: Pc) {
    match pc
    case Loading => true
    case At(point, base) =>
      && (base.state == Freezing || base.state == Thawing)
      && base.revision + RecoverySteps(base.state) <= U64_MAX
    case Finished(outcome) => outcome.RecoveredFrozen? || outcome.RecoveredRunning?
  }

  /** A successful exchange of a populated workload's recovery. */
  ghost predicate RecoverySucceeds(job: Job, e: Exchange) {
    && !e.reply.Failed?
    && (e.reply.Status? ==> e.reply.populated)
    && (e.reply.Loaded? ==>
          && Refusal(job, e.reply.record).None?
          && (e.reply.record.state == Freezing || e.reply.record.state == Thawing)
          && e.reply.record.revision + RecoverySteps(e.reply.record.state) <= U64_MAX)
  }

  lemma RecoveryStaysOnCourse(job: Job, pc: Pc, reply: Reply)
    requires job.kind.RecoverFreeze? && WellFormed(job, pc) && !pc.Finished?
    requires RecoveryOnCourse(pc)
    requires Fits(NextCall(job, pc), reply) && RecoverySucceeds(job, Exchange(NextCall(job, pc), reply))
    ensures RecoveryOnCourse(Resume(job, pc, reply))
  {
    hide Accepts, Refusal;
    if pc.At? {
      ResumeKeepsWellFormed(job, pc, reply);
      if pc.point.TakeSample? {
        RecoveryProposalFits(job, if reply.frozen then PublishFrozen else PublishCancelThaw, pc.base);
      } else if pc.point.VerifyReady? {
        RecoveryProposalFits(job, PublishRunning, pc.base);
      }
    }
  }

  lemma RecoveryProposalFits(job: Job, point: Point, base: Record)
    requires point.PublishFrozen? || point.PublishCancelThaw? || point.PublishRunning?
    requires Standing(job, TakeSample, base) && base.revision < U64_MAX
    ensures StateFits(point, base.state) && base.state != Restoring ==> Accepts(base, Proposal(job, point, base))
  {
    AcceptsIffPrecedes(base, Proposal(job, point, base));
  }

  /**
   One recovery that nothing interrupts, on a populated workload in `freezing` or
   `thawing` with room for its revisions, can only end in `frozen` or `running`.
   */
  lemma {:induction false} UninterruptedRecoveryCompletes(job: Job, t: seq<Exchange>)
    requires job.kind.RecoverFreeze? && Follow(job, t).Some?
    requires forall i | 0 <= i < |t| :: RecoverySucceeds(job, t[i])
    ensures RecoveryOnCourse(Follow(job, t).value)
    decreases |t|
  {
    hide Resume, Fits, WellFormed, NextCall;
    if |t| > 0 {
      var last := |t| - 1;
      FollowPrefix(job, t, last);
      UninterruptedRecoveryCompletes(job, t[..last]);
      FollowIsWellFormed(job, t[..last]);
      RecoveryStaysOnCourse(job, Follow(job, t[..last]).value, t[last].reply);
    }
  }

  /** A position on the way through a call; every exchange raises it. */
  function Progress(pc: Pc): nat {
    match pc
    case Loading => 0
    case Finished(_) => 11
    case At(point, _) =>
      match point
      case TakeSample | FirstObserve | CancelRecovered => 1
      case PublishCancelThaw | PublishQuiescing | PublishThawing | PublishRestoring(_) => 2
      case AskQuiesce => 3
      case SecondObserve => 4
      case PublishFreezing | PublishCheckpointing | CancelDemand => 5
      case DoFreeze | DoCheckpoint | DoThaw | DoRestore(_) | CancelPendingFreeze | FinishThaw => 6
      case Reopen => 7
      case VerifyReady => 8
      case _ => 10
  }

  lemma ResumeAdvances(job: Job, pc: Pc, reply: Reply)
    requires !pc.Finished? && Fits(NextCall(job, pc), reply)
    ensures Progress(Resume(job, pc, reply)) > Progress(pc)
  {
    hide Accepts, Refusal, Validate, Decide;
  }

  /** A call makes at most eleven external calls, so an uninterrupted one ends. */
  lemma {:induction false} CallsTerminate(job: Job, t: seq<Exchange>)
    requires Follow(job, t).Some?
    ensures |t| <= Progress(Follow(job, t).value) <= 11
    decreases |t|
  {
    hide Resume, NextCall, Fits;
    if |t| > 0 {
      var last := |t| - 1;
      CallsTerminate(job, t[..last]);
      ResumeAdvances(job, Follow(job, t[..last]).value, t[last].reply);
    }
  }
}
