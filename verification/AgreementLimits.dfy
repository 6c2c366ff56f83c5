/**
 The other direction of agreement: from every world that is not sound, guarded steps alone
 lead to a disagreement, so a run keeps clear of disagreement exactly when each of its
 steps is guarded. Then the runs that the code really allows: recoveries that stop over a
 pending freeze, and, without the lease, a stale controller that freezes a running workload.
 */
module AgreementLimits {
  import opened Outcomes
  import opened LifecycleRecords
  import opened LifecyclePolicies
  import opened LifecycleControllers
  import opened LifecycleTraces
  import opened LifecycleSystems
  import opened KernelAgreements

  // ----- Continuations of runs

  datatype Steps = Steps(worlds: seq<World>, acts: seq<Action>)

  /** The worlds passed so far, at least one, and the steps between them. */
  type Trail = r: Steps | |r.worlds| > 0 witness Steps([World([], map[], [], map[])], [])

  function Last(r: Trail): World {
    r.worlds[|r.worlds| - 1]
  }

  /** What the steps of a continuation have to respect. */
  datatype Discipline = Unrestricted | Leased | GuardedOnly

  ghost predicate Allowed(m: Discipline, w: World, a: Action)
    requires Enabled(w, a)
  {
    match m
    case Unrestricted => true
    case Leased => SerialStep(w, a)
    case GuardedOnly => Guarded(w, a)
  }

  /** `r` is a run that goes on from `from` by allowed steps. */
  ghost predicate Continues(m: Discipline, from: Trail, r: Trail) {
    && Run(r.worlds, r.acts)
    && |from.worlds| == |from.acts| + 1
    && from.worlds <= r.worlds && from.acts <= r.acts
    && forall i | |from.acts| <= i < |r.acts| ::
         Enabled(r.worlds[i], r.acts[i]) && Allowed(m, r.worlds[i], r.acts[i])
  }

  function Append(r: Trail, a: Action): Trail
    requires Enabled(Last(r), a)
  {
    Steps(r.worlds + [After(Last(r), a)], r.acts + [a])
  }

  lemma Onward(m: Discipline, from: Trail, r: Trail, a: Action)
    requires Continues(m, from, r) && Enabled(Last(r), a) && Allowed(m, Last(r), a)
    ensures Continues(m, from, Append(r, a)) && Last(Append(r, a)) == After(Last(r), a)
  {
    hide Enabled, After, Allowed;
    var s := Append(r, a);
    forall i | 0 <= i < |s.acts|
      ensures Enabled(s.worlds[i], s.acts[i]) && s.worlds[i + 1] == After(s.worlds[i], s.acts[i])
      ensures |from.acts| <= i ==> Allowed(m, s.worlds[i], s.acts[i])
    {
      if i < |r.acts| {
        RunStep(r.worlds, r.acts, i);
        assert s.worlds[i] == r.worlds[i] && s.worlds[i + 1] == r.worlds[i + 1] && s.acts[i] == r.acts[i];
      }
    }
  }

  lemma NoStepYet(m: Discipline, r: Trail)
    requires Run(r.worlds, r.acts)
    ensures Continues(m, r, r)
  {
  }

  lemma {:induction false} ContinuationIsBehaviour(m: Discipline, from: Trail, r: Trail)
    requires Behaviour(from.worlds, from.acts) && Continues(m, from, r)
    ensures Behaviour(r.worlds, r.acts)
    ensures m.Leased? && Serial(from.worlds, from.acts) ==> Serial(r.worlds, r.acts)
  {
    hide Enabled, After, SerialStep;
    if m.Leased? && Serial(from.worlds, from.acts) {
      forall i | 0 <= i < |r.acts|
        ensures Enabled(r.worlds[i], r.acts[i]) && SerialStep(r.worlds[i], r.acts[i])
      {
        if i < |from.acts| {
          assert from.worlds[i] == r.worlds[i] && from.acts[i] == r.acts[i];
          assert Enabled(from.worlds[i], from.acts[i]);
        }
      }
    }
  }

  // ----- One controller at a time

  ghost predicate Quiet(w: World) {
    forall id :: !Acting(w, id)
  }

  /** Controller `id` runs `job` and stands at `pc`, over the history `h` and its freezer `k`. */
  ghost predicate Poised(w: World, id: nat, job: Job, pc: Pc, h: seq<Record>, k: Kernel) {
    && |h| > 0 && w.history == h
    && id in w.live && w.live[id].job == job && w.live[id].pc == pc
    && KernelOf(w, job.scope.runtimeEpoch) == k
  }

  /** `v` has the controllers of `w`, of which only `id` may have moved. */
  ghost predicate OnlyMoves(w: World, v: World, id: nat) {
    && v.live.Keys == w.live.Keys + {id}
    && forall other | other in w.live && other != id :: v.live[other] == w.live[other]
  }

  lemma MovesCompose(w: World, u: World, v: World, id: nat)
    requires OnlyMoves(w, u, id) && OnlyMoves(u, v, id)
    ensures OnlyMoves(w, v, id)
  {
  }

  /** A controller id that is not in use. */
  lemma {:induction false} FreshId(ids: set<nat>) returns (id: nat)
    ensures id !in ids
  {
    id := Above(ids);
    assert id in ids ==> id < id;
  }

  lemma {:induction false} Above(ids: set<nat>) returns (id: nat)
    ensures forall x | x in ids :: x < id
  {
    if ids == {} {
      id := 0;
    } else {
      var x :| x in ids;
      var rest := Above(ids - {x});
      id := if rest > x then rest else x + 1;
      assert forall y | y in ids && y != x :: y in ids - {x};
    }
  }

  lemma Begin(m: Discipline, from: Trail, r: Trail, id: nat, job: Job) returns (s: Trail)
    requires Continues(m, from, r) && |Last(r).history| > 0 && id !in Last(r).live && (m.Leased? ==> Quiet(Last(r)))
    ensures Continues(m, from, s) && OnlyMoves(Last(r), Last(s), id)
    ensures Poised(Last(s), id, job, Loading, Last(r).history, KernelOf(Last(r), job.scope.runtimeEpoch))
  {
    hide Continues, NextCall, CallMay;
    var a := Start(id, job);
    s := Append(r, a);
    assert Allowed(m, Last(r), a);
    Onward(m, from, r, a);
  }

  /** A guarded continuation makes no freezer call, and samples no `thawing` record. */
  predicate Tame(m: Discipline, call: Call, pc: Pc) {
    m.GuardedOnly? ==> !TouchesFreezer(call) && (call.SampleCall? ==> pc.At? && pc.base.state != Thawing)
  }

  lemma Answer(m: Discipline, from: Trail, r: Trail, base: World, id: nat,
               job: Job, pc: Pc, h: seq<Record>, k: Kernel, reply: Reply, took: bool, k': Kernel)
    returns (s: Trail)
    requires Continues(m, from, r) && OnlyMoves(base, Last(r), id)
    requires Poised(Last(r), id, job, pc, h, k) && !pc.Finished?
    requires |h| > 0 && CallMay(h[|h| - 1], k, job, NextCall(job, pc), reply, took, k')
    requires Tame(m, NextCall(job, pc), pc)
    ensures Continues(m, from, s) && OnlyMoves(base, Last(s), id)
    ensures Poised(Last(s), id, job, Resume(job, pc, reply), if took then h + [NextCall(job, pc).next] else h, k')
  {
    hide Resume, CallMay, Continues;
    var u, a := Last(r), Interact(id, reply, took, k');
    assert Enabled(u, a);
    assert Allowed(m, u, a) by { TameIsAllowed(m, u, a); }
    s := Append(r, a);
    Onward(m, from, r, a);
    assert OnlyMoves(u, Last(s), id);
    MovesCompose(base, u, Last(s), id);
  }

  lemma TameIsAllowed(m: Discipline, w: World, a: Action)
    requires Enabled(w, a) && a.Interact? && Tame(m, NextCall(w.live[a.id].job, w.live[a.id].pc), w.live[a.id].pc)
    ensures Allowed(m, w, a)
  {
    hide CallMay;
    if w.live[a.id].pc.At? && w.live[a.id].pc.point.TakeSample? {
      SampleIsSample(w.live[a.id].job, w.live[a.id].pc);
    }
  }

  // ----- From an unsound world to a disagreement

  /** The successful calls that take a resuming controller to `running`. */
  lemma FinishScript(job: Job, point: Point, d: Record)
    requires Resuming(point) && Standing(job, point, d) && !Saturated(d)
    ensures && NextCall(job, At(Reopen, d)) == ReopenCall
            && Resume(job, At(Reopen, d), Done) == At(VerifyReady, d)
            && NextCall(job, At(VerifyReady, d)) == AdmitCall
            && Resume(job, At(VerifyReady, d), Done) == At(PublishRunning, d)
  {
    hide Accepts;
    ProposalIsAcceptedIff(job, PublishRunning, d);
  }

  lemma PublishScript(job: Job, point: Point, d: Record)
    requires Target(point).Some?
    ensures NextCall(job, At(point, d)) == ReplaceCall(d, Proposal(job, point, d))
    ensures var next := Proposal(job, point, d);
            next.state == Target(point).value && next.runtimeEpoch == d.runtimeEpoch && next.workloadId == d.workloadId
  {
  }

  /** Publishes from `point`, with the store's acknowledgement. */
  lemma PublishFrom(m: Discipline, from: Trail, r: Trail, base: World, id: nat, job: Job, point: Point, d: Record,
                    h: seq<Record>, k: Kernel) returns (s: Trail)
    requires Continues(m, from, r) && OnlyMoves(base, Last(r), id)
    requires Target(point).Some? && Poised(Last(r), id, job, At(point, d), h, k)
    requires |h| > 0 && h[|h| - 1] == d && job.scope.runtimeEpoch == d.runtimeEpoch
    ensures Continues(m, from, s) && OnlyMoves(base, Last(s), id)
    ensures Poised(Last(s), id, job, Resume(job, At(point, d), Done), h + [Proposal(job, point, d)], k)
    ensures Last(s).history == h + [Proposal(job, point, d)]
    ensures Durable(Last(s)) == Proposal(job, point, d) && DurableKernel(Last(s)) == k
    ensures Durable(Last(s)).state == Target(point).value
  {
    hide Resume, NextCall, Continues, OnlyMoves, Proposal;
    PublishScript(job, point, d);
    s := Answer(m, from, r, base, id, job, At(point, d), h, k, Done, true, k);
  }

  /** From any point on the way to `running`, with the freezer as it is. */
  lemma FinishFrom(m: Discipline, from: Trail, r: Trail, base: World, id: nat, job: Job, point: Point, d: Record,
                   h: seq<Record>, k: Kernel) returns (s: Trail)
    requires Continues(m, from, r) && OnlyMoves(base, Last(r), id)
    requires Resuming(point) && Standing(job, point, d) && !Saturated(d)
    requires Poised(Last(r), id, job, At(point, d), h, k)
    requires |h| > 0 && h[|h| - 1] == d && job.scope.runtimeEpoch == d.runtimeEpoch
    ensures Continues(m, from, s) && OnlyMoves(base, Last(s), id)
    ensures Last(s).history == h + [Proposal(job, PublishRunning, d)]
    ensures Durable(Last(s)).state == Running && DurableKernel(Last(s)) == k
  {
    hide Resume, NextCall, Continues, OnlyMoves, Poised, Proposal, Standing;
    FinishScript(job, point, d);
    s := r;
    if point.Reopen? {
      s := Answer(m, from, s, base, id, job, At(Reopen, d), h, k, Done, false, k);
    }
    if !point.PublishRunning? {
      s := Answer(m, from, s, base, id, job, At(VerifyReady, d), h, k, Done, false, k);
    }
    s := PublishFrom(m, from, s, base, id, job, PublishRunning, d, h, k);
  }

  function ScopeOf(d: Record): Scope {
    Scope(d.workloadId, d.assignedNode, d.placementEpoch, d.runtimeEpoch)
  }

  /** A recovery of `d` by a controller whose fence is not stale. */
  function RecoveryJob(d: Record, fence: u64): Job {
    Job(RecoverFreeze, ScopeOf(d), fence, Policy(Freeze, 1000))
  }

  ghost predicate Recoverable(d: Record, fence: u64) {
    Valid(d) && (d.state == Freezing || d.state == Thawing) && d.fencingToken <= fence && !Saturated(d)
  }

  lemma SampleScript(d: Record, fence: u64)
    requires Recoverable(d, fence)
    ensures var job := RecoveryJob(d, fence);
            && NextCall(job, Loading) == LoadCall
            && Resume(job, Loading, Loaded(d)) == At(TakeSample, d)
            && NextCall(job, At(TakeSample, d)) == SampleCall
            && Standing(job, TakeSample, d)
            && (d.state == Freezing ==>
                  && Resume(job, At(TakeSample, d), Status(true, true)) == At(PublishFrozen, d)
                  && Resume(job, At(TakeSample, d), Status(true, false)) == At(PublishCancelThaw, d))
            && (d.state == Thawing ==>
                  && Standing(job, Reopen, d)
                  && Resume(job, At(TakeSample, d), Status(true, false)) == At(Reopen, d))
  {
    hide Accepts, Validate;
    var job := RecoveryJob(d, fence);
    ValidIff(d);
    assert Refusal(job, d).None?;
    hide Refusal;
    if d.state == Freezing {
      ProposalIsAcceptedIff(job, PublishFrozen, d);
      ProposalIsAcceptedIff(job, PublishCancelThaw, d);
    }
  }

  /** A new recovery, up to the moment before its sample. */
  lemma RecoverToSample(m: Discipline, from: Trail, r: Trail, id: nat, fence: u64) returns (s: Trail)
    requires Continues(m, from, r) && |Last(r).history| > 0 && id !in Last(r).live && (m.Leased? ==> Quiet(Last(r)))
    requires Recoverable(Durable(Last(r)), fence)
    ensures Continues(m, from, s) && OnlyMoves(Last(r), Last(s), id)
    ensures var d := Durable(Last(r));
            Poised(Last(s), id, RecoveryJob(d, fence), At(TakeSample, d), Last(r).history, DurableKernel(Last(r)))
  {
    hide Resume, NextCall, Continues, OnlyMoves, Poised, Recoverable, Standing;
    var d, k, h := Durable(Last(r)), DurableKernel(Last(r)), Last(r).history;
    var job := RecoveryJob(d, fence);
    SampleScript(d, fence);
    s := Begin(m, from, r, id, job);
    s := Answer(m, from, s, Last(r), id, job, Loading, h, k, Loaded(d), false, k);
  }

  /** Recovery publishes `frozen` on the strength of a sample that looks frozen. */
  lemma RecoverToFrozen(m: Discipline, from: Trail, r: Trail, id: nat, fence: u64) returns (s: Trail)
    requires Continues(m, from, r) && |Last(r).history| > 0 && id !in Last(r).live && (m.Leased? ==> Quiet(Last(r)))
    requires Recoverable(Durable(Last(r)), fence) && Durable(Last(r)).state == Freezing
    requires DurableKernel(Last(r)).LooksFrozen()
    ensures Continues(m, from, s)
    ensures |Last(s).history| > 0 && Durable(Last(s)).state == Frozen && DurableKernel(Last(s)) == DurableKernel(Last(r))
  {
    hide Resume, NextCall, Continues, OnlyMoves, Proposal, Standing;
    var d, k, h := Durable(Last(r)), DurableKernel(Last(r)), Last(r).history;
    var job := RecoveryJob(d, fence);
    SampleScript(d, fence);
    s := RecoverToSample(m, from, r, id, fence);
    s := Answer(m, from, s, Last(r), id, job, At(TakeSample, d), h, k, Status(true, true), false, k);
    s := PublishFrom(m, from, s, Last(r), id, job, PublishFrozen, d, h, k);
  }

  /** A controller on the record whose needs are not met publishes a record that the kernel belies. */
  lemma UnmetNeedDisagrees(from: Trail, id: nat) returns (s: Trail)
    requires Run(from.worlds, from.acts) && Inv(Last(from)) && |Last(from).history| > 0
    requires OnRecord(Last(from), id)
    requires !PointNeeds(Last(from).live[id].pc.point, Durable(Last(from)), DurableKernel(Last(from)))
    ensures Continues(GuardedOnly, from, s) && |Last(s).history| > 0 && !Agrees(Last(s))
  {
    hide Continues, Inv, WellFormed, Resume, NextCall, Accepts, Proposal, Refusal;
    var w := Last(from);
    var c, d, k, h := w.live[id], Durable(w), DurableKernel(w), w.history;
    NoStepYet(GuardedOnly, from);
    ActsOnItsRuntime(w, id);
    KnowsItsPlace(w, id);
    assert OnlyMoves(w, w, id) && Poised(w, id, c.job, c.pc, h, k);
    if c.pc.point.PublishFrozen? {
      s := PublishFrom(GuardedOnly, from, from, w, id, c.job, PublishFrozen, d, h, k);
    } else {
      ResumingStands(c.job, c.pc.point, d);
      s := FinishFrom(GuardedOnly, from, from, w, id, c.job, c.pc.point, d, h, k);
    }
  }

  lemma ResumingStands(job: Job, point: Point, d: Record)
    requires WellFormed(job, At(point, d)) && Resuming(point)
    ensures Standing(job, point, d)
  {
  }

  /** From every unsound world, guarded steps alone lead to a disagreement. */
  lemma {:induction false} UnsoundLosesAgreement(from: Trail) returns (s: Trail)
    requires Run(from.worlds, from.acts) && Inv(Last(from)) && |Last(from).history| > 0 && !Sound(Last(from))
    ensures Continues(GuardedOnly, from, s) && |Last(s).history| > 0 && !Agrees(Last(s))
  {
    hide Continues, Inv, Run, Resume, NextCall, Accepts, Proposal;
    var w := Last(from);
    if !Agrees(w) {
      s := from;
      NoStepYet(GuardedOnly, from);
    } else if !RecordNeeds(Durable(w), DurableKernel(w)) {
      NoStepYet(GuardedOnly, from);
      DurableIsValid(w);
      var id := FreshId(w.live.Keys);
      s := RecoverToFrozen(GuardedOnly, from, from, id, Durable(w).fencingToken);
    } else {
      var id :| OnRecord(w, id) && !PointNeeds(w.live[id].pc.point, Durable(w), DurableKernel(w));
      s := UnmetNeedDisagrees(from, id);
    }
  }

  lemma DurableIsValid(w: World)
    requires Inv(w) && |w.history| > 0
    ensures Valid(Durable(w))
  {
    hide Valid;
    HistoryIsValid(w.history, |w.history| - 1);
  }

  // ----- Agreement holds exactly as far as the guards

  /** Wherever a run has got to, no guarded continuation disagrees. */
  ghost predicate NeverDisagrees(ws: seq<World>, acts: seq<Action>)
    requires Run(ws, acts)
  {
    forall n: nat, r | n < |ws| && Continues(GuardedOnly, Steps(ws[..n + 1], acts[..n]), r) ::
      |Last(r).history| > 0 && Agrees(Last(r))
  }

  lemma RunPrefix(ws: seq<World>, acts: seq<Action>, n: nat)
    requires Run(ws, acts) && n < |ws|
    ensures Run(ws[..n + 1], acts[..n])
  {
    hide Enabled, After;
    var front, steps := ws[..n + 1], acts[..n];
    forall i | 0 <= i < |steps|
      ensures Enabled(front[i], steps[i]) && front[i + 1] == After(front[i], steps[i])
    {
      RunStep(ws, acts, i);
      assert front[i] == ws[i] && front[i + 1] == ws[i + 1] && steps[i] == acts[i];
    }
    assert Run(front, steps);
  }

  lemma GuardedContinuationAgrees(ws: seq<World>, acts: seq<Action>, n: nat, r: Trail)
    requires Behaviour(ws, acts) && GuardedRun(ws, acts) && ws[0].history[0].state != Frozen
    requires n < |ws| && Continues(GuardedOnly, Steps(ws[..n + 1], acts[..n]), r)
    ensures |Last(r).history| > 0 && Agrees(Last(r))
  {
    hide Enabled, After, Guarded, Agrees;
    var from: Trail := Steps(ws[..n + 1], acts[..n]);
    RunPrefix(ws, acts, n);
    ContinuationIsBehaviour(GuardedOnly, from, r);
    forall i | 0 <= i < |r.acts|
      ensures Enabled(r.worlds[i], r.acts[i]) && Guarded(r.worlds[i], r.acts[i])
    {
      if i < n {
        assert r.worlds[i] == from.worlds[i] == ws[i] && r.acts[i] == from.acts[i] == acts[i];
      }
    }
    assert r.worlds[0] == from.worlds[0] == ws[0];
    GuardedRunAgrees(r.worlds, r.acts, |r.worlds| - 1);
  }

  /** The first unguarded step of a run opens the way to a disagreement. */
  lemma UnguardedStepLosesAgreement(ws: seq<World>, acts: seq<Action>, i: nat) returns (r: Trail)
    requires Behaviour(ws, acts) && ws[0].history[0].state != Frozen && i < |acts|
    requires forall m | 0 <= m < i :: Enabled(ws[m], acts[m]) && Guarded(ws[m], acts[m])
    requires Enabled(ws[i], acts[i]) && !Guarded(ws[i], acts[i])
    ensures Continues(GuardedOnly, Steps(ws[..i + 2], acts[..i + 1]), r)
    ensures |Last(r).history| > 0 && !Agrees(Last(r))
  {
    hide Enabled, After, Guarded, Agrees, Sound, Continues;
    GuardedPrefixIsSound(ws, acts, i);
    RunStep(ws, acts, i);
    SoundStep(ws[i], acts[i]);
    RunKeepsKernelInv(ws, acts, i + 1);
    HoldsInv(ws[i + 1]);
    RunPrefix(ws, acts, i + 1);
    r := UnsoundLosesAgreement(Steps(ws[..i + 2], acts[..i + 1]));
  }

  /**
   Record and kernel stay in agreement, now and along every guarded continuation, exactly
   when every step of the run is guarded: for any interleaving, crashes, failed calls that
   took effect, pending requests and writers.
   */
  lemma {:induction false} AgreementIffGuarded(ws: seq<World>, acts: seq<Action>)
    requires Behaviour(ws, acts) && ws[0].history[0].state != Frozen
    ensures GuardedRun(ws, acts) <==> NeverDisagrees(ws, acts)
  {
    hide Enabled, After, Guarded, Agrees, Continues;
    if GuardedRun(ws, acts) {
      forall n: nat, r | n < |ws| && Continues(GuardedOnly, Steps(ws[..n + 1], acts[..n]), r)
        ensures |Last(r).history| > 0 && Agrees(Last(r))
      {
        GuardedContinuationAgrees(ws, acts, n, r);
      }
    } else {
      var i := FirstUnguarded(ws, acts, |acts|);
      var r := UnguardedStepLosesAgreement(ws, acts, i);
      assert Continues(GuardedOnly, Steps(ws[..(i + 1) + 1], acts[..i + 1]), r);
    }
  }

  lemma {:induction false} FirstUnguarded(ws: seq<World>, acts: seq<Action>, n: nat) returns (i: nat)
    requires Run(ws, acts) && n <= |acts|
    requires !(forall m | 0 <= m < n :: Enabled(ws[m], acts[m]) && Guarded(ws[m], acts[m]))
    ensures i < n && Enabled(ws[i], acts[i]) && !Guarded(ws[i], acts[i])
    ensures forall m | 0 <= m < i :: Enabled(ws[m], acts[m]) && Guarded(ws[m], acts[m])
  {
    hide Enabled, After, Guarded;
    if n > 0 {
      RunStep(ws, acts, n - 1);
      if forall m | 0 <= m < n - 1 :: Enabled(ws[m], acts[m]) && Guarded(ws[m], acts[m]) {
        i := n - 1;
      } else {
        i := FirstUnguarded(ws, acts, n - 1);
      }
    }
  }

  /** Under a lease, agreement is lost exactly by a blind sample. */
  lemma {:induction false} SerialAgreementIffSighted(ws: seq<World>, acts: seq<Action>)
    requires Behaviour(ws, acts) && Serial(ws, acts) && ws[0].history[0].state != Frozen
    ensures NoBlindSample(ws, acts) <==> NeverDisagrees(ws, acts)
  {
    hide Enabled, After, Guarded, Agrees, Continues;
    SerialRunIsGuardedIff(ws, acts);
    AgreementIffGuarded(ws, acts);
  }

  /**
   In every reachable world, a freeze that takes effect while the durable record of that
   runtime is neither `freezing`, `frozen` nor `thawing` disagrees at once.
   */
  lemma {:induction false} StrayFreezeDisagrees(ws: seq<World>, acts: seq<Action>, j: nat)
    requires Behaviour(ws, acts) && j < |acts| && acts[j].Interact? && Acting(ws[j], acts[j].id)
    requires var c := ws[j].live[acts[j].id]; NextCall(c.job, c.pc).FreezeCall? && c.pc.At?
    requires acts[j].reply.Done? && |ws[j].history| > 0
    requires ws[j].live[acts[j].id].pc.base.runtimeEpoch == Durable(ws[j]).runtimeEpoch
    requires var s := Durable(ws[j]).state; s != Freezing && s != Frozen && s != Thawing
    ensures |ws[j + 1].history| > 0 && !Agrees(ws[j + 1])
  {
    hide Resume, Accepts, WellFormed;
    RunKeepsInv(ws, acts, j);
    RunStep(ws, acts, j);
    ActsOnItsRuntime(ws[j], acts[j].id);
  }

  // ----- Hazards lose agreement

  /** A freeze is pending under `thawing` and nobody is about to cancel it. */
  ghost predicate Stranded(w: World) {
    |w.history| > 0 && PendingUnderThawing(w) && Quiet(w)
  }

  lemma HazardStrands(w: World, a: Action)
    requires SerialInv(w) && Enabled(w, a) && Hazard(w, a)
    ensures Stranded(After(w, a))
  {
    hide Inv, Accepts, WellFormed, CallMay;
    HoldsInv(w);
    var v := After(w, a);
    assert Acting(w, a.id);
    assert forall id | id in v.live && id != a.id :: id in w.live && Acting(v, id) == Acting(w, id);
    if a.Interact? {
      StoppedCall(w, a);
    } else {
      ActsOnItsRuntime(w, a.id);
    }
  }

  lemma StoppedCall(w: World, a: Action)
    requires Inv(w) && Enabled(w, a) && Hazard(w, a) && a.Interact?
    ensures After(w, a).live[a.id].pc.Finished?
    ensures Durable(After(w, a)).state == Thawing
  {
    hide Accepts, Refusal;
    CallsOfPoints(w.live[a.id].job, w.live[a.id].pc);
    ActsOnItsRuntime(w, a.id);
  }

  /** A stranded world goes on, under the lease, to `running` with the freeze still pending. */
  lemma StrandedGoesOn(from: Trail, r: Trail, id: nat, fence: u64) returns (s: Trail)
    requires Continues(Leased, from, r) && Stranded(Last(r)) && id !in Last(r).live
    requires Recoverable(Durable(Last(r)), fence)
    ensures Continues(Leased, from, s) && |Last(s).history| > 0
    ensures Durable(Last(s)).state == Running && DurableKernel(Last(s)).FreezePending? && !Agrees(Last(s))
  {
    hide Resume, NextCall, Continues, OnlyMoves, Proposal, Standing;
    var d, k, h := Durable(Last(r)), DurableKernel(Last(r)), Last(r).history;
    var job := RecoveryJob(d, fence);
    SampleScript(d, fence);
    s := RecoverToSample(Leased, from, r, id, fence);
    s := Answer(Leased, from, s, Last(r), id, job, At(TakeSample, d), h, k, Status(true, false), false, k);
    s := FinishFrom(Leased, from, s, Last(r), id, job, Reopen, d, h, k);
  }

  /**
   Every hazard that ends a serial run, however that run went, has a serial continuation
   that publishes `running` while the freeze request is still pending, unless the revision
   is saturated.
   */
  lemma {:induction false} HazardLosesAgreement(ws: seq<World>, acts: seq<Action>, i: nat)
    returns (ws': seq<World>, acts': seq<Action>)
    requires Behaviour(ws, acts) && Serial(ws, acts) && |acts| == i + 1
    requires Enabled(ws[i], acts[i]) && Hazard(ws[i], acts[i])
    requires |ws[i + 1].history| > 0 && !Saturated(Durable(ws[i + 1]))
    ensures Behaviour(ws', acts') && Serial(ws', acts') && ws <= ws' && acts <= acts'
    ensures var v := ws'[|ws'| - 1];
            |v.history| > 0 && Durable(v).state == Running && DurableKernel(v).FreezePending? && !Agrees(v)
  {
    hide Enabled, After, SerialStep, Hazard, Continues;
    var from: Trail := Steps(ws, acts);
    SerialRunKeepsInv(ws, acts, i);
    RunStep(ws, acts, i);
    HazardStrands(ws[i], acts[i]);
    RunKeepsInv(ws, acts, i + 1);
    DurableIsValid(ws[i + 1]);
    NoStepYet(Leased, from);
    var id := FreshId(ws[i + 1].live.Keys);
    var s := StrandedGoesOn(from, from, id, Durable(ws[i + 1]).fencingToken);
    ContinuationIsBehaviour(Leased, from, s);
    ws', acts' := s.worlds, s.acts;
    assert ws <= ws' && acts <= acts' by { Extends(Leased, from, s); }
  }

  lemma Extends(m: Discipline, from: Trail, r: Trail)
    requires Continues(m, from, r)
    ensures from.worlds <= r.worlds && from.acts <= r.acts
  {
  }

  // ----- A run that gets there, and one without the lease

  function FirstWorld(d: Record): World {
    World([d], map[], [], map[])
  }

  function Start0(d: Record): Trail {
    Steps([FirstWorld(d)], [])
  }

  function SuspendJob(d: Record, fence: u64): Job {
    Job(Reconcile, ScopeOf(d), fence, Policy(Freeze, 1000))
  }

  const IDLE := Activity(0, 0, 1000)

  ghost predicate Fresh(d: Record, fence: u64) {
    Valid(d) && d.state == Running && d.strategy == Freeze && d.fencingToken <= fence && d.revision < U64_MAX - 4
  }

  lemma FirstStep(m: Discipline, d: Record)
    requires Valid(d)
    ensures Behaviour(Start0(d).worlds, Start0(d).acts) && Serial(Start0(d).worlds, Start0(d).acts)
    ensures Continues(m, Start0(d), Start0(d)) && Quiet(FirstWorld(d)) && Last(Start0(d)) == FirstWorld(d)
  {
    hide Valid;
  }

  lemma QuiesceScript(d: Record, fence: u64)
    requires Fresh(d, fence)
    ensures var job := SuspendJob(d, fence);
            var q := Proposal(job, PublishQuiescing, d);
            && NextCall(job, Loading) == LoadCall
            && Resume(job, Loading, Loaded(d)) == At(FirstObserve, d)
            && NextCall(job, At(FirstObserve, d)) == ObserveCall
            && Resume(job, At(FirstObserve, d), Active(IDLE)) == At(PublishQuiescing, d)
            && Resume(job, At(PublishQuiescing, d), Done) == At(AskQuiesce, q)
            && Valid(q) && q.state == Quiescing && q.strategy == Freeze && q.revision == d.revision + 1
            && q.fencingToken == fence && ScopeOf(q) == ScopeOf(d)
  {
    AcceptsIffPrecedes(d, Proposal(SuspendJob(d, fence), PublishQuiescing, d));
  }

  lemma FreezeScript(q: Record, fence: u64)
    requires Valid(q) && q.state == Quiescing && q.strategy == Freeze && q.fencingToken == fence && !Saturated(q)
    ensures var job := SuspendJob(q, fence);
            var f := Proposal(job, PublishFreezing, q);
            && NextCall(job, At(AskQuiesce, q)) == QuiesceCall
            && Resume(job, At(AskQuiesce, q), Quiesced(Drained)) == At(SecondObserve, q)
            && NextCall(job, At(SecondObserve, q)) == ObserveCall
            && Resume(job, At(SecondObserve, q), Active(IDLE)) == At(PublishFreezing, q)
            && Resume(job, At(PublishFreezing, q), Done) == At(DoFreeze, f)
            && Valid(f) && f.state == Freezing && f.revision == q.revision + 1
            && f.fencingToken == fence && ScopeOf(f) == ScopeOf(q)
  {
    AcceptsIffPrecedes(q, Proposal(SuspendJob(q, fence), PublishFreezing, q));
  }

  /** An undisturbed suspension up to the moment before its freeze call. */
  lemma SuspendToFreeze(m: Discipline, d: Record, fence: u64) returns (s: Trail, f: Record)
    requires Fresh(d, fence) && !m.GuardedOnly?
    ensures Continues(m, Start0(d), s) && OnlyMoves(FirstWorld(d), Last(s), 0)
    ensures |Last(s).history| > 0 && Durable(Last(s)) == f
    ensures Poised(Last(s), 0, SuspendJob(d, fence), At(DoFreeze, f), Last(s).history, Thawed)
    ensures Valid(f) && f.state == Freezing && f.revision == d.revision + 2 && f.fencingToken == fence
    ensures ScopeOf(f) == ScopeOf(d)
  {
    hide Resume, NextCall, Continues, OnlyMoves, Proposal, Valid;
    var w, from, job := FirstWorld(d), Start0(d), SuspendJob(d, fence);
    var q := Proposal(job, PublishQuiescing, d);
    FirstStep(m, d);
    QuiesceScript(d, fence);
    s := Begin(m, from, from, 0, job);
    s := Answer(m, from, s, w, 0, job, Loading, [d], Thawed, Loaded(d), false, Thawed);
    s := Answer(m, from, s, w, 0, job, At(FirstObserve, d), [d], Thawed, Active(IDLE), false, Thawed);
    s := PublishFrom(m, from, s, w, 0, job, PublishQuiescing, d, [d], Thawed);
    s, f := QuiescedToFreeze(m, from, s, w, q, fence, [d] + [q]);
  }

  lemma QuiescedToFreeze(m: Discipline, from: Trail, r: Trail, w: World, q: Record, fence: u64, h: seq<Record>)
    returns (s: Trail, f: Record)
    requires Continues(m, from, r) && OnlyMoves(w, Last(r), 0)
    requires |h| > 0 && h[|h| - 1] == q && Poised(Last(r), 0, SuspendJob(q, fence), At(AskQuiesce, q), h, Thawed)
    requires Valid(q) && q.state == Quiescing && q.strategy == Freeze && q.fencingToken == fence && !Saturated(q)
    ensures Continues(m, from, s) && OnlyMoves(w, Last(s), 0)
    ensures Last(s).history == h + [f] && Poised(Last(s), 0, SuspendJob(q, fence), At(DoFreeze, f), Last(s).history, Thawed)
    ensures Valid(f) && f.state == Freezing && f.revision == q.revision + 1 && f.fencingToken == fence
    ensures ScopeOf(f) == ScopeOf(q)
  {
    hide Resume, NextCall, Continues, OnlyMoves, Proposal, Valid;
    var job := SuspendJob(q, fence);
    f := Proposal(job, PublishFreezing, q);
    FreezeScript(q, fence);
    s := Answer(m, from, r, w, 0, job, At(AskQuiesce, q), h, Thawed, Quiesced(Drained), false, Thawed);
    s := Answer(m, from, s, w, 0, job, At(SecondObserve, q), h, Thawed, Active(IDLE), false, Thawed);
    s := PublishFrom(m, from, s, w, 0, job, PublishFreezing, q, h, Thawed);
  }

  lemma CancelScript(f: Record, fence: u64)
    requires Recoverable(f, fence) && f.state == Freezing
    ensures var job := RecoveryJob(f, fence);
            var t := Proposal(job, PublishCancelThaw, f);
            && Resume(job, At(PublishCancelThaw, f), Done) == At(CancelPendingFreeze, t)
            && NextCall(job, At(CancelPendingFreeze, t)) == ThawCall
            && Resume(job, At(CancelPendingFreeze, t), Done) == At(Reopen, t)
            && Valid(t) && t.state == Thawing && t.revision == f.revision + 1
            && t.fencingToken == fence && ScopeOf(t) == ScopeOf(f)
  {
    AcceptsIffPrecedes(f, Proposal(RecoveryJob(f, fence), PublishCancelThaw, f));
  }

  /** A recovery of `freezing` whose sample looks thawed, up to the moment before its thaw. */
  lemma RecoverToThaw(m: Discipline, from: Trail, r: Trail, id: nat, fence: u64) returns (s: Trail, t: Record)
    requires Continues(m, from, r) && |Last(r).history| > 0 && id !in Last(r).live && (m.Leased? ==> Quiet(Last(r)))
    requires Recoverable(Durable(Last(r)), fence) && Durable(Last(r)).state == Freezing
    requires !DurableKernel(Last(r)).LooksFrozen()
    ensures Continues(m, from, s) && OnlyMoves(Last(r), Last(s), id)
    ensures Last(s).history == Last(r).history + [t]
    ensures Poised(Last(s), id, RecoveryJob(t, fence), At(CancelPendingFreeze, t), Last(s).history, DurableKernel(Last(r)))
    ensures Valid(t) && t.state == Thawing && t.revision == Durable(Last(r)).revision + 1 && t.fencingToken == fence
    ensures ScopeOf(t) == ScopeOf(Durable(Last(r)))
  {
    hide Resume, NextCall, Continues, OnlyMoves, Proposal, Valid, Standing;
    var f, k, h := Durable(Last(r)), DurableKernel(Last(r)), Last(r).history;
    var job := RecoveryJob(f, fence);
    SampleScript(f, fence);
    CancelScript(f, fence);
    t := Proposal(job, PublishCancelThaw, f);
    s := RecoverToSample(m, from, r, id, fence);
    s := Answer(m, from, s, Last(r), id, job, At(TakeSample, f), h, k, Status(true, false), false, k);
    s := PublishFrom(m, from, s, Last(r), id, job, PublishCancelThaw, f, h, k);
  }

  lemma FreezeCallOf(job: Job, f: Record)
    ensures NextCall(job, At(DoFreeze, f)) == FreezeCall
    ensures Resume(job, At(DoFreeze, f), Failed) == Finished(EffectFailure)
  {
  }

  /** The freeze request times out unsettled. */
  lemma SuspendTimesOut(d: Record, fence: u64) returns (s: Trail)
    requires Fresh(d, fence)
    ensures Continues(Leased, Start0(d), s) && Last(s).live.Keys == {0} && Quiet(Last(s)) && |Last(s).history| > 0
    ensures var f := Durable(Last(s));
            Valid(f) && f.state == Freezing && f.fencingToken == fence && f.revision == d.revision + 2
    ensures DurableKernel(Last(s)) == FreezePending
  {
    hide Resume, NextCall, Continues, Proposal, Valid;
    var job := SuspendJob(d, fence);
    var f;
    s, f := SuspendToFreeze(Leased, d, fence);
    FreezeCallOf(job, f);
    s := Answer(Leased, Start0(d), s, FirstWorld(d), 0, job, At(DoFreeze, f), Last(s).history, Thawed, Failed, false, FreezePending);
  }

  /** The recovery crashes between its `thawing` publication and its thaw. */
  lemma RecoveryDies(from: Trail, r: Trail, id: nat, fence: u64) returns (s: Trail)
    requires Continues(Leased, from, r) && Quiet(Last(r)) && |Last(r).history| > 0 && id !in Last(r).live
    requires Recoverable(Durable(Last(r)), fence) && Durable(Last(r)).state == Freezing
    requires DurableKernel(Last(r)) == FreezePending
    ensures Continues(Leased, from, s) && Stranded(Last(s)) && Last(s).live == Last(r).live
    ensures Valid(Durable(Last(s))) && Durable(Last(s)).fencingToken == fence
    ensures Durable(Last(s)).revision == Durable(Last(r)).revision + 1
  {
    hide Resume, NextCall, Continues, Proposal, Valid, Recoverable, CallMay;
    var t, b;
    b, t := RecoverToThaw(Leased, from, r, id, fence);
    assert Enabled(Last(b), Crash(id)) && Allowed(Leased, Last(b), Crash(id));
    Onward(Leased, from, b, Crash(id));
    s := Append(b, Crash(id));
    assert Last(s).live == Last(r).live;
    assert forall x :: Acting(Last(s), x) == Acting(Last(r), x);
    assert DurableKernel(Last(s)) == DurableKernel(Last(b));
  }

  /**
   A serial run from any fresh record that publishes `running` with a freeze pending: the
   freeze request times out unsettled, the recovery crashes between its `thawing`
   publication and its thaw, and the next recovery trusts the sample.
   */
  lemma {:induction false} PendingFreezeSurvives(d: Record, first: u64, second: u64, third: u64)
    returns (ws: seq<World>, acts: seq<Action>)
    requires Fresh(d, first) && first < second < third
    ensures Behaviour(ws, acts) && Serial(ws, acts) && ws[0] == FirstWorld(d)
    ensures var v := ws[|ws| - 1];
            |v.history| > 0 && Durable(v).state == Running && DurableKernel(v).FreezePending? && !Agrees(v)
  {
    hide Continues, Valid, Behaviour, Serial;
    var from := Start0(d);
    var r := SuspendTimesOut(d, first);
    r := RecoveryDies(from, r, 1, second);
    r := StrandedGoesOn(from, r, 2, third);
    FirstStep(Leased, d);
    ContinuationIsBehaviour(Leased, from, r);
    Extends(Leased, from, r);
    ws, acts := r.worlds, r.acts;
  }

  /**
   Without the lease, a controller that is past its `freezing` publication still freezes
   the workload after a newer controller has brought the record back to `running`: the
   fence guards the record, not the kernel.
   */
  lemma {:induction false} StaleControllerFreezesRunning(d: Record, first: u64, second: u64)
    returns (ws: seq<World>, acts: seq<Action>)
    requires Fresh(d, first) && first < second
    ensures Behaviour(ws, acts) && ws[0] == FirstWorld(d)
    ensures var v := ws[|ws| - 1];
            |v.history| > 0 && Durable(v).state == Running && DurableKernel(v).KernelFrozen? && !Agrees(v)
  {
    hide Resume, NextCall, Continues, Proposal, Valid, Behaviour, Standing;
    var from, f := Start0(d), d;
    var stale, r, t;
    stale, f := SuspendToFreeze(Unrestricted, d, first);
    r, t := RecoverToRunning(from, stale, 1, second);
    var job := SuspendJob(d, first);
    assert Last(r).live[0] == Last(stale).live[0] && OnlyMoves(Last(r), Last(r), 0);
    FreezeCallOf(job, f);
    r := Answer(Unrestricted, from, r, Last(r), 0, job, At(DoFreeze, f), Last(r).history, Thawed, Done, false, KernelFrozen);
    FirstStep(Unrestricted, d);
    ContinuationIsBehaviour(Unrestricted, from, r);
    Extends(Unrestricted, from, r);
    ws, acts := r.worlds, r.acts;
  }

  /** A whole undisturbed recovery of `freezing` over a thawed cgroup. */
  lemma RecoverToRunning(from: Trail, r: Trail, id: nat, fence: u64) returns (s: Trail, t: Record)
    requires Continues(Unrestricted, from, r) && |Last(r).history| > 0 && id !in Last(r).live
    requires Recoverable(Durable(Last(r)), fence) && Durable(Last(r)).state == Freezing
    requires Durable(Last(r)).revision < U64_MAX - 1 && DurableKernel(Last(r)).Thawed?
    ensures Continues(Unrestricted, from, s) && OnlyMoves(Last(r), Last(s), id) && |Last(s).history| > 0
    ensures Durable(Last(s)).state == Running && Durable(Last(s)).runtimeEpoch == Durable(Last(r)).runtimeEpoch
    ensures DurableKernel(Last(s)).Thawed?
  {
    hide Resume, NextCall, Continues, Proposal, Valid, OnlyMoves;
    s, t := RecoverToThaw(Unrestricted, from, r, id, fence);
    var job := RecoveryJob(t, fence);
    CancelCallOf(job, t);
    s := Answer(Unrestricted, from, s, Last(r), id, job, At(CancelPendingFreeze, t), Last(s).history, Thawed, Done, false, Thawed);
    SampleScript(t, fence);
    PublishScript(job, PublishRunning, t);
    s := FinishFrom(Unrestricted, from, s, Last(r), id, job, Reopen, t, Last(s).history, Thawed);
  }

  lemma CancelCallOf(job: Job, t: Record)
    ensures NextCall(job, At(CancelPendingFreeze, t)) == ThawCall
    ensures Resume(job, At(CancelPendingFreeze, t), Done) == At(Reopen, t)
  {
  }
}
