/**
 Agreement between the durable record and the kernel's freezer, for any interleaving of
 controllers, with crashes anywhere, failed calls that took effect and unsettled kernel
 requests. A world is sound when record, freezer and the controllers on the record fit;
 a step keeps it sound exactly when it is guarded, and a guarded run agrees throughout.
 A lease that admits one call at a time leaves a single guard to check.
 */
module KernelAgreements {
  import opened Outcomes
  import opened LifecycleRecords
  import opened LifecycleControllers
  import opened LifecycleSystems

  // ----- The agreement

  function DurableKernel(w: World): Kernel
    requires |w.history| > 0
  {
    KernelOf(w, Durable(w).runtimeEpoch)
  }

  /**
   A frozen or freezing cgroup shows in the record, and a record that says `frozen` is
   true of the kernel.
   */
  predicate Agrees(w: World)
    requires |w.history| > 0
  {
    var state, kernel := Durable(w).state, DurableKernel(w);
    && (!kernel.Thawed? ==> state == Freezing || state == Frozen || state == Thawing)
    && (state == Frozen ==> kernel.KernelFrozen?)
  }

  // ----- Sound worlds

  predicate Saturated(r: Record) {
    r.revision == U64_MAX
  }

  /** What a durable record says about its freezer; nothing can follow a saturated record. */
  predicate RecordNeeds(r: Record, k: Kernel) {
    match r.state
    case Freezing => k.ThawPending? ==> Saturated(r)
    case Frozen => k.KernelFrozen?
    case Thawing => true
    case _ => k.Thawed?
  }

  /** On the way to publishing `running`. */
  predicate Resuming(point: Point) {
    point.Reopen? || point.VerifyReady? || point.PublishRunning?
  }

  /** What a controller standing on the durable record relies on. */
  predicate PointNeeds(point: Point, r: Record, k: Kernel) {
    && (Resuming(point) ==> k.Thawed? || Saturated(r))
    && (point.PublishFrozen? ==> k.KernelFrozen?)
  }

  predicate OnRecord(w: World, id: nat)
    requires |w.history| > 0
  {
    id in w.live && w.live[id].pc.At? && w.live[id].pc.base == Durable(w)
  }

  ghost predicate Sound(w: World) {
    && |w.history| > 0
    && RecordNeeds(Durable(w), DurableKernel(w))
    && forall id | OnRecord(w, id) :: PointNeeds(w.live[id].pc.point, Durable(w), DurableKernel(w))
  }

  /** Runtimes that were never placed have untouched freezers. */
  ghost predicate FutureIsThawed(w: World)
    requires |w.history| > 0
  {
    forall e: u64 | e > Durable(w).runtimeEpoch :: KernelOf(w, e).Thawed?
  }

  ghost predicate KernelInv(w: World) {
    Inv(w) && |w.history| > 0 && FutureIsThawed(w)
  }

  // ----- Guarded steps

  /** Recovery finds `thawing`, trusts a sample that looks thawed and so skips its thaw, while a freeze is pending. */
  predicate BlindSample(w: World, a: Action) {
    && |w.history| > 0 && a.Interact? && a.id in w.live
    && w.live[a.id].pc == At(TakeSample, Durable(w))
    && Durable(w).state == Thawing && !Saturated(Durable(w))
    && a.reply == Status(true, false)
    && DurableKernel(w).FreezePending?
  }

  predicate TouchesFreezer(call: Call) {
    call.FreezeCall? || call.ThawCall?
  }

  /** A controller whose record was superseded within its runtime changes the freezer. */
  predicate StaleEffect(w: World, a: Action)
    requires Enabled(w, a)
  {
    && a.Interact? && w.live[a.id].pc.At?
    && TouchesFreezer(NextCall(w.live[a.id].job, w.live[a.id].pc))
    && w.live[a.id].pc.base != Durable(w)
    && w.live[a.id].pc.base.runtimeEpoch == Durable(w).runtimeEpoch
    && a.kernel != DurableKernel(w)
  }

  /**
   When a stale effect does no harm: a freeze under `freezing`, or under `thawing` while
   nobody is on the way to `running`; a thaw under `thawing`, or a settled one under
   `freezing` while nobody is about to publish `frozen`.
   */
  predicate Harmless(r: Record, call: Call, after: Kernel, resuming: bool, settling: bool) {
    match r.state
    case Thawing => call.FreezeCall? && resuming ==> Saturated(r)
    case Freezing => call.ThawCall? ==> !settling && (after.Thawed? || Saturated(r))
    case _ => false
  }

  ghost predicate SomeoneResumes(w: World)
    requires |w.history| > 0
  {
    exists id :: OnRecord(w, id) && Resuming(w.live[id].pc.point)
  }

  ghost predicate SomeonePublishesFrozen(w: World)
    requires |w.history| > 0
  {
    exists id :: OnRecord(w, id) && w.live[id].pc.point.PublishFrozen?
  }

  /** The exact condition on a step: what can be checked before it is taken. */
  ghost predicate Guarded(w: World, a: Action)
    requires Enabled(w, a)
  {
    && !BlindSample(w, a)
    && (StaleEffect(w, a) ==>
          Harmless(Durable(w), NextCall(w.live[a.id].job, w.live[a.id].pc), a.kernel,
                   SomeoneResumes(w), SomeonePublishesFrozen(w)))
    && (a.Write? ==> RecordNeeds(a.next, KernelOf(w, a.next.runtimeEpoch)))
  }

  // ----- What one call does to the freezer

  predicate CallKernel(call: Call, reply: Reply, before: Kernel, after: Kernel) {
    if call.FreezeCall? then FreezeMay(before, reply, after)
    else if call.ThawCall? then ThawMay(before, reply, after)
    else after == before
  }

  /** A change by a stale call keeps the world sound exactly when it is harmless. */
  lemma StaleChange(r: Record, call: Call, reply: Reply, k: Kernel, k': Kernel, resuming: bool, settling: bool)
    requires TouchesFreezer(call) && CallKernel(call, reply, k, k') && k' != k && Fits(call, reply)
    requires RecordNeeds(r, k)
    requires resuming ==> (r.state == Thawing || r.state == Restoring) && (k.Thawed? || Saturated(r))
    requires settling ==> r.state == Freezing && k.KernelFrozen?
    ensures Harmless(r, call, k', resuming, settling) <==>
            && RecordNeeds(r, k')
            && (resuming ==> k'.Thawed? || Saturated(r))
            && (settling ==> k'.KernelFrozen?)
  {
  }

  /** A call from the durable record never disturbs another controller on it. */
  lemma CallSparesOthers(job: Job, pc: Pc, reply: Reply, k: Kernel, k': Kernel, other: Point)
    requires pc.At? && WellFormed(job, pc)
    requires Fits(NextCall(job, pc), reply) && CallKernel(NextCall(job, pc), reply, k, k')
    requires StateFits(other, pc.base.state) && RecordNeeds(pc.base, k) && PointNeeds(other, pc.base, k)
    ensures PointNeeds(other, pc.base, k')
  {
    hide Accepts, Refusal, Validate;
  }

  lemma PublishingKeepsKernel(job: Job, pc: Pc, reply: Reply, took: bool, k: Kernel)
    requires pc.At? && WellFormed(job, pc) && Target(pc.point).Some?
    requires Fits(NextCall(job, pc), reply) && (reply.Done? ==> took)
    requires RecordNeeds(pc.base, k) && PointNeeds(pc.point, pc.base, k)
    ensures took ==> RecordNeeds(Proposal(job, pc.point, pc.base), k)
    ensures Resume(job, pc, reply).At? ==>
              PointNeeds(Resume(job, pc, reply).point, Proposal(job, pc.point, pc.base), k)
  {
    hide Refusal, Validate;
    AcceptsIffPrecedes(pc.base, Proposal(job, pc.point, pc.base));
  }

  lemma SamplingKeepsKernel(job: Job, pc: Pc, reply: Reply, k: Kernel)
    requires pc.At? && WellFormed(job, pc) && pc.point.TakeSample?
    requires Fits(NextCall(job, pc), reply) && (reply.Status? ==> reply.frozen == k.LooksFrozen())
    requires RecordNeeds(pc.base, k)
    ensures var blind := pc.base.state == Thawing && !Saturated(pc.base) && reply == Status(true, false) && k.FreezePending?;
            blind <==> Resume(job, pc, reply).At? && !PointNeeds(Resume(job, pc, reply).point, pc.base, k)
  {
    hide Refusal, Validate;
    if reply.Status? && reply.populated && pc.base.state == Freezing && reply.frozen {
      AcceptsIffPrecedes(pc.base, Proposal(job, PublishFrozen, pc.base));
    }
  }

  lemma CallingKeepsKernel(job: Job, pc: Pc, reply: Reply, k: Kernel, k': Kernel)
    requires pc.At? && WellFormed(job, pc) && Target(pc.point).None? && !pc.point.TakeSample?
    requires Fits(NextCall(job, pc), reply) && CallKernel(NextCall(job, pc), reply, k, k')
    requires RecordNeeds(pc.base, k) && PointNeeds(pc.point, pc.base, k)
    ensures RecordNeeds(pc.base, k')
    ensures Resume(job, pc, reply).At? ==> PointNeeds(Resume(job, pc, reply).point, pc.base, k')
  {
    hide Accepts, Refusal, Validate;
  }

  // ----- What every step keeps

  /** A controller acts on the runtime of the record it stands on. */
  lemma ActsOnItsRuntime(w: World, id: nat)
    requires Inv(w) && id in w.live && w.live[id].pc.At?
    ensures w.live[id].job.scope.runtimeEpoch == w.live[id].pc.base.runtimeEpoch
    ensures w.live[id].pc.base.runtimeEpoch <= Durable(w).runtimeEpoch
    ensures StateFits(w.live[id].pc.point, w.live[id].pc.base.state)
  {
    hide Inv, WellFormed, Accepts;
    BaseIsPast(w, id);
    KnowsItsPlace(w, id);
    InvHistory(w);
    var base := w.live[id].pc.base;
    StandsOnItsRuntime(w.live[id].job, w.live[id].pc);
    var k :| 0 <= k < |w.history| && w.history[k] == base;
    if k < |w.history| - 1 {
      HistoryIsOrdered(w.history, k, |w.history| - 1);
    }
  }

  lemma StandsOnItsRuntime(job: Job, pc: Pc)
    requires WellFormed(job, pc) && pc.At?
    ensures job.scope.runtimeEpoch == pc.base.runtimeEpoch && StateFits(pc.point, pc.base.state)
  {
    hide Accepts, Validate, StateFits;
  }

  lemma LoadingOnlyLoads(job: Job, reply: Reply, r: Record, k: Kernel)
    requires Fits(NextCall(job, Loading), reply)
    ensures NextCall(job, Loading) == LoadCall
    ensures Resume(job, Loading, reply).At? ==> PointNeeds(Resume(job, Loading, reply).point, r, k)
  {
    hide Accepts, Refusal;
  }

  lemma KernelInvStep(w: World, a: Action)
    requires KernelInv(w) && Enabled(w, a)
    ensures KernelInv(After(w, a))
  {
    hide Accepts, WellFormed, Resume, Inv;
    InvStep(w, a);
    HistoryAfter(w, a);
    var v := After(w, a);
    if v.history != w.history {
      AcceptsIffPrecedes(Durable(w), Durable(v));
    }
    if a.Interact? {
      var c := w.live[a.id];
      if c.pc.At? {
        ActsOnItsRuntime(w, a.id);
      } else {
        LoadingOnlyLoads(c.job, Failed, Durable(w), Thawed);
        assert c.pc == Loading;
      }
    }
    forall e: u64 | e > Durable(v).runtimeEpoch
      ensures KernelOf(v, e).Thawed?
    {
      assert KernelOf(w, e).Thawed?;
    }
  }

  lemma {:induction false} RunKeepsKernelInv(ws: seq<World>, acts: seq<Action>, i: nat)
    requires Behaviour(ws, acts) && i < |ws|
    ensures KernelInv(ws[i])
  {
    hide Enabled, After;
    if i > 0 {
      RunKeepsKernelInv(ws, acts, i - 1);
      RunStep(ws, acts, i - 1);
      KernelInvStep(ws[i - 1], acts[i - 1]);
    } else {
      RunKeepsInv(ws, acts, 0);
    }
  }

  // ----- Soundness, step by step

  /** Steps that make no call leave the durable record's freezer and controllers as they fit. */
  lemma SilentStep(w: World, a: Action)
    requires KernelInv(w) && Sound(w) && Enabled(w, a) && (a.Start? || a.Crash? || a.Settle?)
    ensures Sound(After(w, a)) && Guarded(w, a)
  {
    hide Inv, WellFormed, Accepts;
    var v := After(w, a);
    assert forall id | OnRecord(v, id) :: OnRecord(w, id) && v.live[id] == w.live[id];
    if !a.Settle? {
      assert DurableKernel(v) == DurableKernel(w);
    }
  }

  lemma WriteStep(w: World, a: Action)
    requires KernelInv(w) && Enabled(w, a) && a.Write?
    ensures Sound(After(w, a)) <==> Guarded(w, a)
  {
    hide WellFormed, Accepts, Inv;
    HistoryStep(w, a);
    var v := After(w, a);
    AcceptsIffPrecedes(Durable(w), a.next);
    forall id
      ensures !OnRecord(v, id)
    {
      if id in v.live && v.live[id].pc.At? {
        BaseIsPast(w, id);
        AcceptedIsNew(w, a.next);
      }
    }
  }

  lemma AcceptedIsNew(w: World, next: Record)
    requires Inv(w) && |w.history| > 0 && Accepts(Durable(w), next)
    ensures next !in w.history
  {
    hide Accepts;
    HistoryExtends(w.history, next);
  }

  /** A call off the durable record leaves the history and every controller on the record alone. */
  lemma OffRecordStep(w: World, a: Action)
    requires Inv(w) && Enabled(w, a) && a.Interact?
    requires w.live[a.id].pc.At? && w.live[a.id].pc.base != Durable(w)
    ensures After(w, a).history == w.history
    ensures forall id :: OnRecord(After(w, a), id) <==> OnRecord(w, id)
    ensures forall id | OnRecord(w, id) :: After(w, a).live[id] == w.live[id]
  {
    hide Inv, WellFormed, Accepts, Resume, NextCall;
    var c := w.live[a.id];
    CallsOfPoints(c.job, c.pc);
    if Resume(c.job, c.pc, a.reply).At? {
      ResumeBase(c.job, c.pc, a.reply);
    }
  }

  lemma DetachedStep(w: World, a: Action)
    requires KernelInv(w) && Sound(w) && Enabled(w, a) && a.Interact?
    requires w.live[a.id].pc.At? && w.live[a.id].pc.base.runtimeEpoch < Durable(w).runtimeEpoch
    ensures Sound(After(w, a)) && Guarded(w, a)
  {
    hide Inv, WellFormed, Accepts, Resume, NextCall, RecordNeeds, PointNeeds;
    OffRecordStep(w, a);
    ActsOnItsRuntime(w, a.id);
    assert DurableKernel(After(w, a)) == DurableKernel(w);
  }

  lemma LoadStep(w: World, a: Action)
    requires KernelInv(w) && Sound(w) && Enabled(w, a) && a.Interact? && w.live[a.id].pc.Loading?
    ensures Sound(After(w, a)) && Guarded(w, a)
  {
    hide Inv, WellFormed, Accepts, Resume, NextCall, RecordNeeds, PointNeeds;
    var c := w.live[a.id];
    LoadingOnlyLoads(c.job, a.reply, Durable(w), DurableKernel(w));
    var v := After(w, a);
    assert v.history == w.history && DurableKernel(v) == DurableKernel(w);
    assert forall id | OnRecord(v, id) && id != a.id :: OnRecord(w, id) && v.live[id] == w.live[id];
  }

  /** Both sides of the guard for a call of a superseded controller of the same runtime. */
  lemma StaleStep(w: World, a: Action)
    requires KernelInv(w) && Sound(w) && Enabled(w, a) && a.Interact?
    requires w.live[a.id].pc.At? && w.live[a.id].pc.base != Durable(w)
    requires w.live[a.id].pc.base.runtimeEpoch == Durable(w).runtimeEpoch
    ensures Sound(After(w, a)) <==> Guarded(w, a)
  {
    hide Inv, WellFormed, Accepts, Resume, NextCall, RecordNeeds, FreezeMay, ThawMay, Harmless, StateFits;
    OffRecordStep(w, a);
    ActsOnItsRuntime(w, a.id);
    var v, c, r, k := After(w, a), w.live[a.id], Durable(w), DurableKernel(w);
    assert DurableKernel(v) == a.kernel;
    if a.kernel != k {
      var resuming, settling := SomeoneResumes(w), SomeonePublishesFrozen(w);
      SomeoneFits(w);
      StaleChange(r, NextCall(c.job, c.pc), a.reply, k, a.kernel, resuming, settling);
      if RecordNeeds(r, a.kernel) && (resuming ==> a.kernel.Thawed? || Saturated(r)) && (settling ==> a.kernel.KernelFrozen?) {
        assert Sound(v);
      }
    }
  }

  /** Who stands where on the record says in which state it is. */
  lemma SomeoneFits(w: World)
    requires KernelInv(w) && Sound(w)
    ensures SomeoneResumes(w) ==>
              && (Durable(w).state == Thawing || Durable(w).state == Restoring)
              && (DurableKernel(w).Thawed? || Saturated(Durable(w)))
    ensures SomeonePublishesFrozen(w) ==> Durable(w).state == Freezing && DurableKernel(w).KernelFrozen?
  {
    hide Inv, WellFormed, Accepts, RecordNeeds;
    if SomeoneResumes(w) {
      var id :| OnRecord(w, id) && Resuming(w.live[id].pc.point);
      ActsOnItsRuntime(w, id);
    }
    if SomeonePublishesFrozen(w) {
      var id :| OnRecord(w, id) && w.live[id].pc.point.PublishFrozen?;
      ActsOnItsRuntime(w, id);
    }
  }

  lemma SampleIsSample(job: Job, pc: Pc)
    requires pc.At? && pc.point.TakeSample?
    ensures NextCall(job, pc) == SampleCall
  {
  }

  /** A sample or another call from the durable record, publications aside. */
  lemma CurrentCallStep(w: World, a: Action)
    requires KernelInv(w) && Sound(w) && Enabled(w, a) && a.Interact?
    requires OnRecord(w, a.id) && Target(w.live[a.id].pc.point).None?
    ensures Sound(After(w, a)) <==> !BlindSample(w, a)
  {
    hide Inv, Accepts, WellFormed, Resume, NextCall, FreezeMay, ThawMay, RecordNeeds, PointNeeds, StateFits;
    var c, v, k := w.live[a.id], After(w, a), DurableKernel(w);
    ActsOnItsRuntime(w, a.id);
    assert WellFormed(c.job, c.pc) by { KnowsItsPlace(w, a.id); }
    CallsOfPoints(c.job, c.pc);
    assert v.history == w.history && DurableKernel(v) == a.kernel;
    var next := v.live[a.id].pc;
    if next.At? {
      ResumeBase(c.job, c.pc, a.reply);
    }
    forall id | OnRecord(v, id) && id != a.id
      ensures PointNeeds(v.live[id].pc.point, Durable(v), a.kernel)
    {
      assert OnRecord(w, id);
      ActsOnItsRuntime(w, id);
      CallSparesOthers(c.job, c.pc, a.reply, k, a.kernel, w.live[id].pc.point);
    }
    if c.pc.point.TakeSample? {
      SampleIsSample(c.job, c.pc);
      SamplingKeepsKernel(c.job, c.pc, a.reply, k);
      assert next.At? ==> OnRecord(v, a.id);
    } else {
      CallingKeepsKernel(c.job, c.pc, a.reply, k, a.kernel);
    }
  }

  lemma CurrentPublishStep(w: World, a: Action)
    requires KernelInv(w) && Sound(w) && Enabled(w, a) && a.Interact?
    requires OnRecord(w, a.id) && Target(w.live[a.id].pc.point).Some?
    ensures Sound(After(w, a)) && !BlindSample(w, a)
  {
    hide Inv, Accepts, WellFormed, Resume, NextCall, RecordNeeds, PointNeeds, Proposal;
    var c, v, k := w.live[a.id], After(w, a), DurableKernel(w);
    ActsOnItsRuntime(w, a.id);
    KnowsItsPlace(w, a.id);
    CallsOfPoints(c.job, c.pc);
    PublishingKeepsKernel(c.job, c.pc, a.reply, a.took, k);
    var next := v.live[a.id].pc;
    if next.At? {
      ResumeBase(c.job, c.pc, a.reply);
    }
    ProposalStaysInRuntime(c.job, c.pc.point, c.pc.base);
    assert DurableKernel(v) == k;
    forall id | OnRecord(v, id) && id != a.id
      ensures PointNeeds(v.live[id].pc.point, Durable(v), k)
    {
      if a.took {
        TakenReplacementIsAccepted(w, a);
        BaseIsPast(w, id);
        AcceptedIsNew(w, Durable(v));
      } else {
        assert OnRecord(w, id);
      }
    }
  }

  lemma ProposalStaysInRuntime(job: Job, point: Point, base: Record)
    requires Target(point).Some?
    ensures Proposal(job, point, base).runtimeEpoch == base.runtimeEpoch
  {
  }

  /** From a sound world a step leads to a sound world exactly when it is guarded. */
  lemma SoundStep(w: World, a: Action)
    requires KernelInv(w) && Sound(w) && Enabled(w, a)
    ensures Sound(After(w, a)) <==> Guarded(w, a)
  {
    hide KernelInv, Sound, After, Guarded, Enabled;
    match a
    case Start(_, _) => SilentStep(w, a);
    case Crash(_) => SilentStep(w, a);
    case Settle(_) => SilentStep(w, a);
    case Write(_) => WriteStep(w, a);
    case Interact(_, _, _, _) => InteractStep(w, a);
  }

  lemma InteractStep(w: World, a: Action)
    requires KernelInv(w) && Sound(w) && Enabled(w, a) && a.Interact?
    ensures Sound(After(w, a)) <==> Guarded(w, a)
  {
    hide Inv, Sound, After, WellFormed, NextCall, Harmless, CallMay;
    var pc := w.live[a.id].pc;
    if pc.Loading? {
      LoadStep(w, a);
    } else if pc.base == Durable(w) {
      if Target(pc.point).Some? {
        CurrentPublishStep(w, a);
      } else {
        CurrentCallStep(w, a);
      }
    } else {
      ActsOnItsRuntime(w, a.id);
      if pc.base.runtimeEpoch < Durable(w).runtimeEpoch {
        DetachedStep(w, a);
      } else {
        StaleStep(w, a);
      }
    }
  }

  // ----- Guarded runs

  ghost predicate GuardedRun(ws: seq<World>, acts: seq<Action>)
    requires Run(ws, acts)
  {
    forall i | 0 <= i < |acts| :: Enabled(ws[i], acts[i]) && Guarded(ws[i], acts[i])
  }

  lemma {:induction false} GuardedPrefixIsSound(ws: seq<World>, acts: seq<Action>, i: nat)
    requires Behaviour(ws, acts) && ws[0].history[0].state != Frozen && i < |ws|
    requires forall m | 0 <= m < i :: Enabled(ws[m], acts[m]) && Guarded(ws[m], acts[m])
    ensures KernelInv(ws[i]) && Sound(ws[i])
  {
    hide Enabled, After, Guarded;
    RunKeepsKernelInv(ws, acts, i);
    if i > 0 {
      GuardedPrefixIsSound(ws, acts, i - 1);
      RunStep(ws, acts, i - 1);
      SoundStep(ws[i - 1], acts[i - 1]);
    }
  }

  /** Under any interleaving, record and kernel agree at every moment of a guarded run. */
  lemma {:induction false} GuardedRunAgrees(ws: seq<World>, acts: seq<Action>, i: nat)
    requires Behaviour(ws, acts) && GuardedRun(ws, acts)
    requires ws[0].history[0].state != Frozen && i < |ws|
    ensures Sound(ws[i]) && Agrees(ws[i])
  {
    hide Enabled, After, Guarded, KernelInv;
    GuardedPrefixIsSound(ws, acts, i);
  }

  // ----- Steps fenced by the record

  /**
   A guard that needs no look at other controllers: freezes and thaws are only made from
   the durable record or on a replaced runtime, and no sample is blind.
   */
  predicate FencedStep(w: World, a: Action)
    requires Enabled(w, a)
  {
    && (a.Write? ==> Durable(w).runtimeEpoch < a.next.runtimeEpoch)
    && !BlindSample(w, a)
    && (a.Interact? && w.live[a.id].pc.At? && TouchesFreezer(NextCall(w.live[a.id].job, w.live[a.id].pc)) ==>
          w.live[a.id].pc.base == Durable(w) || w.live[a.id].pc.base.runtimeEpoch < Durable(w).runtimeEpoch)
  }

  lemma FencedIsGuarded(w: World, a: Action)
    requires KernelInv(w) && Enabled(w, a) && FencedStep(w, a)
    ensures Guarded(w, a)
  {
    hide Inv, Accepts;
    if a.Write? {
      AcceptsIffPrecedes(Durable(w), a.next);
    }
  }

  /** Without any lease, a run whose steps are fenced by the record agrees at every moment. */
  lemma {:induction false} FencedRunAgrees(ws: seq<World>, acts: seq<Action>, i: nat)
    requires Behaviour(ws, acts) && ws[0].history[0].state != Frozen && i < |ws|
    requires forall m | 0 <= m < |acts| :: Enabled(ws[m], acts[m]) && FencedStep(ws[m], acts[m])
    ensures |ws[i].history| > 0 && Agrees(ws[i])
  {
    hide After, Guarded, FencedStep;
    forall m | 0 <= m < |acts|
      ensures Enabled(ws[m], acts[m]) && Guarded(ws[m], acts[m])
    {
      RunKeepsKernelInv(ws, acts, m);
      FencedIsGuarded(ws[m], acts[m]);
    }
    GuardedRunAgrees(ws, acts, i);
  }

  // ----- Runs under a lease

  /** The lease admits one call at a time; the placement writer installs new runtimes. */
  predicate SerialStep(w: World, a: Action)
    requires Enabled(w, a)
  {
    && (a.Start? ==> forall id | id in w.live :: !Acting(w, id))
    && (a.Write? ==> Durable(w).runtimeEpoch < a.next.runtimeEpoch)
  }

  ghost predicate Serial(ws: seq<World>, acts: seq<Action>)
    requires Run(ws, acts)
  {
    forall i | 0 <= i < |acts| :: Enabled(ws[i], acts[i]) && SerialStep(ws[i], acts[i])
  }

  ghost predicate OneActing(w: World) {
    forall id, other | Acting(w, id) && Acting(w, other) :: id == other
  }

  /** A controller in progress stands on the durable record unless its runtime was replaced. */
  ghost predicate ActingIsCurrent(w: World)
    requires |w.history| > 0
  {
    forall id | id in w.live && w.live[id].pc.At? ::
      w.live[id].pc.base == Durable(w) || w.live[id].pc.base.runtimeEpoch < Durable(w).runtimeEpoch
  }

  ghost predicate SerialInv(w: World) {
    KernelInv(w) && OneActing(w) && ActingIsCurrent(w)
  }

  lemma SerialInteract(w: World, a: Action)
    requires SerialInv(w) && Enabled(w, a) && a.Interact?
    ensures OneActing(After(w, a)) && ActingIsCurrent(After(w, a))
  {
    hide Inv, Accepts, WellFormed, Resume, NextCall;
    var c, v := w.live[a.id], After(w, a);
    assert forall id | id != a.id :: Acting(v, id) == Acting(w, id);
    assert forall id | id in v.live && v.live[id].pc.At? :: Acting(v, id);
    assert forall id | id in v.live && v.live[id].pc.At? :: id == a.id;
    if v.live[a.id].pc.At? {
      if c.pc.Loading? {
        LoadingOnlyLoads(c.job, a.reply, Durable(w), Thawed);
      } else {
        CallsOfPoints(c.job, c.pc);
      }
      ResumeBase(c.job, c.pc, a.reply);
    }
  }

  lemma SerialInvStep(w: World, a: Action)
    requires SerialInv(w) && Enabled(w, a) && SerialStep(w, a)
    ensures SerialInv(After(w, a))
  {
    hide Inv, Accepts, WellFormed, Resume, NextCall, KernelInv;
    KernelInvStep(w, a);
    if a.Interact? {
      SerialInteract(w, a);
    } else {
      var v := After(w, a);
      assert forall id | id in v.live && id in w.live :: Acting(v, id) == Acting(w, id) && v.live[id] == w.live[id];
      if a.Write? {
        forall id | id in v.live && v.live[id].pc.At?
          ensures v.live[id].pc.base.runtimeEpoch < Durable(v).runtimeEpoch
        {
          HoldsInv(w);
          ActsOnItsRuntime(w, id);
        }
      } else {
        HoldsInv(w);
        assert v.history == w.history;
      }
    }
  }

  lemma HoldsInv(w: World)
    requires KernelInv(w)
    ensures Inv(w) && |w.history| > 0
  {
    hide Inv;
  }

  lemma {:induction false} SerialRunKeepsInv(ws: seq<World>, acts: seq<Action>, i: nat)
    requires Behaviour(ws, acts) && Serial(ws, acts) && i < |ws|
    ensures SerialInv(ws[i])
  {
    hide Enabled, After, KernelInv;
    if i > 0 {
      SerialRunKeepsInv(ws, acts, i - 1);
      RunStep(ws, acts, i - 1);
      SerialInvStep(ws[i - 1], acts[i - 1]);
    } else {
      RunKeepsKernelInv(ws, acts, 0);
      HoldsInv(ws[0]);
    }
  }

  /** Under a lease the guard is that no sample is blind. */
  lemma SerialGuard(w: World, a: Action)
    requires SerialInv(w) && Enabled(w, a) && SerialStep(w, a)
    ensures Guarded(w, a) <==> !BlindSample(w, a)
    ensures FencedStep(w, a) <==> !BlindSample(w, a)
  {
    hide Inv, NextCall, CallMay;
    if !BlindSample(w, a) {
      FencedIsGuarded(w, a);
    }
  }

  ghost predicate NoBlindSample(ws: seq<World>, acts: seq<Action>)
    requires Run(ws, acts)
  {
    forall i | 0 <= i < |acts| :: !BlindSample(ws[i], acts[i])
  }

  lemma {:induction false} SerialRunIsGuardedIff(ws: seq<World>, acts: seq<Action>)
    requires Behaviour(ws, acts) && Serial(ws, acts)
    ensures GuardedRun(ws, acts) <==> NoBlindSample(ws, acts)
  {
    hide After, Guarded, SerialStep, BlindSample;
    forall i | 0 <= i < |acts|
      ensures Enabled(ws[i], acts[i]) && (Guarded(ws[i], acts[i]) <==> !BlindSample(ws[i], acts[i]))
    {
      SerialRunKeepsInv(ws, acts, i);
      SerialGuard(ws[i], acts[i]);
    }
  }

  // ----- Hazards: where a pending freeze can escape a recovery

  /** The controller of `a` stands at `point` on the durable record. */
  predicate StandsAt(w: World, id: nat, point: Point)
    requires |w.history| > 0
  {
    id in w.live && w.live[id].pc == At(point, Durable(w))
  }

  /**
   A recovery that has made `thawing` durable stops, by a crash, by a failed thaw or by
   losing the store's acknowledgement, before its thaw has cancelled a freeze request
   that is still pending.
   */
  predicate Hazard(w: World, a: Action)
    requires Enabled(w, a)
  {
    && (match a
        case Crash(id) => StandsAt(w, id, CancelPendingFreeze)
        case Interact(id, reply, took, _) =>
          && reply.Failed?
          && (StandsAt(w, id, CancelPendingFreeze) || (took && StandsAt(w, id, PublishCancelThaw)))
        case _ => false)
    && |After(w, a).history| > 0
    && DurableKernel(After(w, a)).FreezePending?
  }

  ghost predicate NoHazard(ws: seq<World>, acts: seq<Action>)
    requires Run(ws, acts)
  {
    forall i | 0 <= i < |acts| :: Enabled(ws[i], acts[i]) && !Hazard(ws[i], acts[i])
  }

  ghost predicate PendingUnderThawing(w: World)
    requires |w.history| > 0
  {
    Durable(w).state == Thawing && DurableKernel(w).FreezePending?
  }

  /** A pending freeze under `thawing` is about to be cancelled. */
  ghost predicate PendingIsHandled(w: World)
    requires |w.history| > 0
  {
    PendingUnderThawing(w) ==> exists id :: StandsAt(w, id, CancelPendingFreeze)
  }

  /** How a freeze comes to be pending under `thawing`: recovery's own publication, or it was before. */
  lemma PendingComesFrom(w: World, a: Action)
    requires KernelInv(w) && Sound(w) && Enabled(w, a) && a.Interact? && OnRecord(w, a.id)
    requires PendingUnderThawing(After(w, a))
    ensures || (StandsAt(w, a.id, PublishCancelThaw) && a.took)
            || (PendingUnderThawing(w) && Durable(After(w, a)) == Durable(w)
                && (StandsAt(w, a.id, CancelPendingFreeze) ==> a.reply.Failed?))
  {
    hide Inv, Accepts, Validate, Resume;
    ActsOnItsRuntime(w, a.id);
    var c := w.live[a.id];
    CallsOfPoints(c.job, c.pc);
    KnowsItsPlace(w, a.id);
  }

  lemma HandledStep(w: World, a: Action)
    requires SerialInv(w) && Sound(w) && PendingIsHandled(w)
    requires Enabled(w, a) && SerialStep(w, a) && !Hazard(w, a)
    ensures |After(w, a).history| > 0 && PendingIsHandled(After(w, a))
  {
    hide Inv, Accepts, WellFormed, Resume, NextCall, CallMay, RecordNeeds, PointNeeds;
    HistoryStep(w, a);
    var v := After(w, a);
    if PendingUnderThawing(v) {
      match a
      case Start(_, _) => StillHandled(w, a);
      case Crash(_) => StillHandled(w, a);
      case Settle(_) => StillHandled(w, a);
      case Write(_) => AcceptsIffPrecedes(Durable(w), a.next);
      case Interact(id, _, _, _) => HandledInteract(w, a);
    }
  }

  lemma StillHandled(w: World, a: Action)
    requires SerialInv(w) && PendingIsHandled(w) && Enabled(w, a) && !Hazard(w, a)
    requires (a.Start? || a.Crash? || a.Settle?) && PendingUnderThawing(After(w, a))
    ensures PendingIsHandled(After(w, a))
  {
    hide Inv, NextCall, CallMay;
    var v := After(w, a);
    assert PendingUnderThawing(w);
    var id :| StandsAt(w, id, CancelPendingFreeze);
    assert StandsAt(v, id, CancelPendingFreeze);
  }

  lemma HandledInteract(w: World, a: Action)
    requires SerialInv(w) && Sound(w) && PendingIsHandled(w)
    requires Enabled(w, a) && !Hazard(w, a) && a.Interact?
    requires |After(w, a).history| > 0 && PendingUnderThawing(After(w, a))
    ensures PendingIsHandled(After(w, a))
  {
    hide Inv, Accepts, WellFormed, Resume, NextCall, RecordNeeds, PointNeeds;
    var c, v := w.live[a.id], After(w, a);
    if OnRecord(w, a.id) {
      PendingComesFrom(w, a);
      if StandsAt(w, a.id, PublishCancelThaw) && a.took {
        CancelThawLeads(c.job, c.pc, a.reply);
        assert StandsAt(v, a.id, CancelPendingFreeze);
      } else {
        HandlerIsActing(w, a.id);
      }
    } else {
      OffRecordKeepsPending(w, a);
      HandlerIsActing(w, a.id);
      assert false;
    }
  }

  /** With a pending freeze under `thawing`, the one call in progress is its cancellation. */
  lemma HandlerIsActing(w: World, id: nat)
    requires SerialInv(w) && PendingIsHandled(w) && PendingUnderThawing(w) && Acting(w, id)
    ensures StandsAt(w, id, CancelPendingFreeze)
  {
    hide Inv;
    var other :| StandsAt(w, other, CancelPendingFreeze);
    assert Acting(w, other);
  }

  lemma CancelThawLeads(job: Job, pc: Pc, reply: Reply)
    requires pc.At? && pc.point.PublishCancelThaw? && Fits(NextCall(job, pc), reply) && !reply.Failed?
    ensures NextCall(job, pc) == ReplaceCall(pc.base, Proposal(job, pc.point, pc.base))
    ensures Resume(job, pc, reply) == At(CancelPendingFreeze, NextCall(job, pc).next)
  {
  }

  lemma OffRecordKeepsPending(w: World, a: Action)
    requires SerialInv(w) && Enabled(w, a) && a.Interact? && !OnRecord(w, a.id)
    requires |After(w, a).history| > 0 && PendingUnderThawing(After(w, a))
    ensures PendingUnderThawing(w)
  {
    hide Inv, Accepts, WellFormed, Resume, NextCall;
    var c := w.live[a.id];
    if c.pc.At? {
      OffRecordStep(w, a);
      ActsOnItsRuntime(w, a.id);
    } else {
      LoadingOnlyLoads(c.job, a.reply, Durable(w), Thawed);
    }
  }

  lemma {:induction false} HazardFreePrefix(ws: seq<World>, acts: seq<Action>, i: nat)
    requires Behaviour(ws, acts) && Serial(ws, acts) && NoHazard(ws, acts)
    requires ws[0].history[0].state != Frozen && i < |ws|
    ensures SerialInv(ws[i]) && Sound(ws[i]) && PendingIsHandled(ws[i])
  {
    hide Enabled, After, Guarded, KernelInv, SerialStep, Hazard;
    SerialRunKeepsInv(ws, acts, i);
    if i > 0 {
      HazardFreePrefix(ws, acts, i - 1);
      RunStep(ws, acts, i - 1);
      var w, a := ws[i - 1], acts[i - 1];
      HandledStep(w, a);
      SerialGuard(w, a);
      HandledMeansSighted(w, a);
      SoundStep(w, a);
    } else {
      GuardedPrefixIsSound(ws, acts, 0);
    }
  }

  lemma HandledMeansSighted(w: World, a: Action)
    requires SerialInv(w) && PendingIsHandled(w) && Enabled(w, a)
    ensures !BlindSample(w, a)
  {
    hide Inv, NextCall, CallMay;
    if BlindSample(w, a) {
      HandlerIsActing(w, a.id);
    }
  }

  /**
   In every serial run in which no recovery stops while a freeze request is pending
   under `thawing`, record and kernel agree at every moment.
   */
  lemma {:induction false} RecordAndKernelAgree(ws: seq<World>, acts: seq<Action>, i: nat)
    requires Behaviour(ws, acts) && Serial(ws, acts) && NoHazard(ws, acts)
    requires ws[0].history[0].state != Frozen && i < |ws|
    ensures |ws[i].history| > 0 && Agrees(ws[i]) && NoBlindSample(ws, acts)
  {
    hide Enabled, After, BlindSample, SerialInv, PendingIsHandled;
    HazardFreePrefix(ws, acts, i);
    forall m | 0 <= m < |acts|
      ensures !BlindSample(ws[m], acts[m])
    {
      HazardFreePrefix(ws, acts, m);
      RunStep(ws, acts, m);
      HandledMeansSighted(ws[m], acts[m]);
    }
  }

  // ----- Freezes that settle before their call ends

  /** Every freeze call has taken effect or not by the time it ends. */
  ghost predicate FreezesSettle(acts: seq<Action>) {
    forall i | 0 <= i < |acts| && acts[i].Interact? :: !acts[i].kernel.FreezePending?
  }

  lemma {:induction false} NothingIsPending(ws: seq<World>, acts: seq<Action>, i: nat, e: u64)
    requires Behaviour(ws, acts) && FreezesSettle(acts) && i < |ws|
    ensures !KernelOf(ws[i], e).FreezePending?
  {
    if i > 0 {
      NothingIsPending(ws, acts, i - 1, e);
      RunStep(ws, acts, i - 1);
    }
  }

  /** Without pending freezes the agreement needs no other hypothesis than the lease. */
  lemma {:induction false} SettledFreezesAgree(ws: seq<World>, acts: seq<Action>, i: nat)
    requires Behaviour(ws, acts) && Serial(ws, acts) && FreezesSettle(acts)
    requires ws[0].history[0].state != Frozen && i < |ws|
    ensures |ws[i].history| > 0 && Agrees(ws[i])
  {
    hide Enabled, After, Agrees;
    forall m | 0 <= m < |acts|
      ensures !BlindSample(ws[m], acts[m])
    {
      if |ws[m].history| > 0 {
        NothingIsPending(ws, acts, m, Durable(ws[m]).runtimeEpoch);
      }
    }
    SerialRunIsGuardedIff(ws, acts);
    GuardedRunAgrees(ws, acts, i);
  }
}
