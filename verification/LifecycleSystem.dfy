/**
 Any number of controllers over one durable record. A behaviour interleaves their
 external calls in any order, crashes them between any two calls, lets a failed call
 have taken effect or not, and lets a placement writer replace the record by any
 accepted update. The record store is the atomic compare-and-set register that the
 file store refines.
 */
module LifecycleSystems {
  import opened Outcomes
  import opened LifecycleRecords
  import opened LifecycleControllers

  // ----- State

  /**
   The freezer of one runtime incarnation. A request that was accepted but has not
   settled is pending; `FreezePending` still looks thawed and `ThawPending` frozen.
   */
  datatype Kernel = Thawed | FreezePending | KernelFrozen | ThawPending
  {
    predicate LooksFrozen() {
      KernelFrozen? || ThawPending?
    }
  }

  /** A controller call in progress: where it stands and the exchanges that led there. */
  datatype Controller = Controller(job: Job, pc: Pc, trace: seq<Exchange>)

  /** One freeze, checkpoint or restore call, made on the strength of `intent`. */
  datatype Effect = Effect(call: Call, intent: Record, reply: Reply)

  /**
   `history` holds every record that was ever durable, the last one being durable now;
   `kernels` holds the freezers that were ever touched, by runtime epoch.
   */
  datatype World = World(
    history: seq<Record>,
    kernels: map<u64, Kernel>,
    effects: seq<Effect>,
    live: map<nat, Controller>)

  function Durable(w: World): Record
    requires |w.history| > 0
  {
    w.history[|w.history| - 1]
  }

  function KernelOf(w: World, runtimeEpoch: u64): Kernel {
    if runtimeEpoch in w.kernels then w.kernels[runtimeEpoch] else Thawed
  }

  // ----- Steps

  /**
   `Interact` is one external call of a live controller: its reply, whether a
   replacement took effect, and the freezer's state afterwards. A call cut short by a
   crash is one that replied `Failed`.
   */
  datatype Action =
    | Start(id: nat, job: Job)
    | Interact(id: nat, reply: Reply, took: bool, kernel: Kernel)
    | Crash(id: nat)
    | Settle(runtimeEpoch: u64)
    | Write(next: Record)

  predicate FreezeMay(before: Kernel, reply: Reply, after: Kernel) {
    if reply.Done? then after == KernelFrozen
    else || after == before
         || after == KernelFrozen
         || (after == FreezePending && !before.LooksFrozen())
  }

  predicate ThawMay(before: Kernel, reply: Reply, after: Kernel) {
    if reply.Done? then after == Thawed
    else || after == before
         || after == Thawed
         || (after == ThawPending && before.LooksFrozen())
  }

  /** What the store and the kernel allow a call to answer and to do. */
  predicate CallMay(durable: Record, before: Kernel, job: Job, call: Call, reply: Reply, took: bool, after: Kernel) {
    && Fits(call, reply)
    && (reply.Loaded? ==> reply.record == durable && job.scope.workloadId == durable.workloadId)
    && (reply.Status? ==> reply.frozen == before.LooksFrozen())
    && (took ==> call.ReplaceCall? && call.expected == durable)
    && (call.ReplaceCall? && reply.Done? ==> took)
    && (if call.FreezeCall? then FreezeMay(before, reply, after)
        else if call.ThawCall? then ThawMay(before, reply, after)
        else after == before)
  }

  predicate Acting(w: World, id: nat) {
    id in w.live && !w.live[id].pc.Finished?
  }

  predicate Enabled(w: World, a: Action) {
    && |w.history| > 0
    && match a
       case Start(id, _) => id !in w.live
       case Crash(id) => id in w.live
       case Settle(epoch) => KernelOf(w, epoch).FreezePending? || KernelOf(w, epoch).ThawPending?
       case Write(next) => Accepts(Durable(w), next)
       case Interact(id, reply, took, kernel) =>
         && Acting(w, id)
         && var c := w.live[id];
            CallMay(Durable(w), KernelOf(w, c.job.scope.runtimeEpoch), c.job, NextCall(c.job, c.pc), reply, took, kernel)
  }

  /** The effects that must not be repeated; a thaw may be. */
  predicate OneShot(call: Call) {
    call.FreezeCall? || call.CheckpointCall? || call.RestoreCall?
  }

  function After(w: World, a: Action): World
    requires Enabled(w, a)
  {
    match a
    case Start(id, job) => w.(live := w.live[id := Controller(job, Loading, [])])
    case Crash(id) => w.(live := w.live - {id})
    case Settle(epoch) =>
      w.(kernels := w.kernels[epoch := if KernelOf(w, epoch).FreezePending? then KernelFrozen else Thawed])
    case Write(next) => w.(history := w.history + [next])
    case Interact(id, reply, took, kernel) =>
      var c := w.live[id];
      var call := NextCall(c.job, c.pc);
      World(
        if took then w.history + [call.next] else w.history,
        w.kernels[c.job.scope.runtimeEpoch := kernel],
        if OneShot(call) then w.effects + [Effect(call, c.pc.base, reply)] else w.effects,
        w.live[id := Controller(c.job, Resume(c.job, c.pc, reply), c.trace + [Exchange(call, reply)])])
  }

  ghost predicate Initial(w: World) {
    |w.history| == 1 && Valid(w.history[0]) && w.kernels == map[] && w.effects == [] && w.live == map[]
  }

  /** A run: `ws[i + 1]` is `ws[i]` after the enabled step `acts[i]`. */
  ghost predicate Run(ws: seq<World>, acts: seq<Action>) {
    && |ws| == |acts| + 1
    && forall i, j | 0 <= i && j == i + 1 && j < |ws| ::
         Enabled(ws[i], acts[i]) && ws[j] == After(ws[i], acts[i])
  }

  ghost predicate Behaviour(ws: seq<World>, acts: seq<Action>) {
    Run(ws, acts) && Initial(ws[0])
  }

  lemma RunStep(ws: seq<World>, acts: seq<Action>, i: nat)
    requires Run(ws, acts) && i < |acts|
    ensures Enabled(ws[i], acts[i]) && ws[i + 1] == After(ws[i], acts[i])
  {
    hide Enabled, After;
    var before, after := ws[i], ws[i + 1];
    assert Enabled(before, acts[i]);
  }

  // ----- What every step keeps, under any interleaving

  /** A controller that is about to make a one-shot call. */
  predicate Armed(pc: Pc) {
    pc.At? && (pc.point.DoFreeze? || pc.point.DoCheckpoint? || pc.point.DoRestore?)
  }

  ghost predicate ControllersKnow(w: World) {
    forall id | id in w.live ::
      && Follow(w.live[id].job, w.live[id].trace) == Some(w.live[id].pc)
      && WellFormed(w.live[id].job, w.live[id].pc)
      && (w.live[id].pc.At? ==> w.live[id].pc.base in w.history)
  }

  ghost predicate ArmedAreDistinct(w: World) {
    forall id, other | id in w.live && other in w.live && id != other ::
      Armed(w.live[id].pc) && Armed(w.live[other].pc) ==>
        w.live[id].pc.base.revision != w.live[other].pc.base.revision
  }

  ghost predicate ArmedAreFresh(w: World) {
    forall id, e | id in w.live && e in w.effects ::
      Armed(w.live[id].pc) ==> e.intent.revision != w.live[id].pc.base.revision
  }

  ghost predicate EffectsAreDistinct(w: World) {
    && (forall e | e in w.effects :: OneShot(e.call) && e.intent in w.history)
    && forall i, j | 0 <= i < j < |w.effects| :: w.effects[i].intent.revision != w.effects[j].intent.revision
  }

  ghost predicate Inv(w: World) {
    && AcceptedHistory(w.history)
    && ControllersKnow(w)
    && ArmedAreDistinct(w)
    && ArmedAreFresh(w)
    && EffectsAreDistinct(w)
  }

  lemma BaseIsPast(w: World, id: nat)
    requires Inv(w) && id in w.live && w.live[id].pc.At?
    ensures w.live[id].pc.base in w.history
  {
    hide WellFormed, AcceptedHistory;
  }

  lemma KnowsItsPlace(w: World, id: nat)
    requires Inv(w) && id in w.live
    ensures WellFormed(w.live[id].job, w.live[id].pc)
  {
    hide WellFormed;
  }

  lemma InvHistory(w: World)
    requires Inv(w)
    ensures AcceptedHistory(w.history)
  {
    hide AcceptedHistory, WellFormed;
  }

  /** Where `base` comes from when a reply arrives. */
  lemma ResumeBase(job: Job, pc: Pc, reply: Reply)
    requires !pc.Finished? && Fits(NextCall(job, pc), reply)
    requires Resume(job, pc, reply).At?
    ensures var base := Resume(job, pc, reply).base;
            if pc.Loading? then reply == Loaded(base)
            else if NextCall(job, pc).ReplaceCall? then reply.Done? && base == NextCall(job, pc).next
            else base == pc.base
    ensures Armed(Resume(job, pc, reply)) ==>
              && NextCall(job, pc).ReplaceCall? && reply.Done?
              && Resume(job, pc, reply).base == NextCall(job, pc).next
  {
    hide Accepts, Refusal;
  }

  /** One-shot calls are made exactly at the armed points, replacements at the publishing ones. */
  lemma CallsOfPoints(job: Job, pc: Pc)
    requires !pc.Finished?
    ensures OneShot(NextCall(job, pc)) <==> Armed(pc)
    ensures NextCall(job, pc).ReplaceCall? <==> pc.At? && Target(pc.point).Some?
    ensures NextCall(job, pc).ReplaceCall? ==>
              NextCall(job, pc) == ReplaceCall(pc.base, Proposal(job, pc.point, pc.base))
  {
  }

  /** A replacement that takes effect is an accepted update of the durable record. */
  lemma TakenReplacementIsAccepted(w: World, a: Action)
    requires Enabled(w, a) && a.Interact? && a.took
    requires WellFormed(w.live[a.id].job, w.live[a.id].pc)
    ensures After(w, a).history == w.history + [Durable(After(w, a))]
    ensures Accepts(Durable(w), Durable(After(w, a)))
    ensures Durable(After(w, a)).fencingToken == w.live[a.id].job.fence
  {
    hide Resume, Accepts;
    CallsOfPoints(w.live[a.id].job, w.live[a.id].pc);
  }

  /** A step leaves the history alone or extends it by one accepted update. */
  lemma HistoryAfter(w: World, a: Action)
    requires Inv(w) && Enabled(w, a)
    ensures var h := After(w, a).history;
            h == w.history || (|h| > 0 && h == w.history + [Durable(After(w, a))] && Accepts(Durable(w), Durable(After(w, a))))
  {
    hide Resume, Accepts, WellFormed, AcceptedHistory;
    if a.Interact? && a.took {
      TakenReplacementIsAccepted(w, a);
    }
  }

  lemma HistoryStep(w: World, a: Action)
    requires Inv(w) && Enabled(w, a)
    ensures AcceptedHistory(After(w, a).history)
    ensures w.history <= After(w, a).history
    ensures forall r | r in After(w, a).history && r !in w.history ::
              forall q | q in w.history :: q.revision < r.revision
  {
    hide Enabled, After, Accepts;
    HistoryAfter(w, a);
    if After(w, a).history != w.history {
      HistoryExtends(w.history, Durable(After(w, a)));
    }
  }

  lemma ControllersStep(w: World, a: Action)
    requires Inv(w) && Enabled(w, a)
    ensures ControllersKnow(After(w, a))
  {
    hide Resume, Accepts, WellFormed;
    HistoryStep(w, a);
    if a.Interact? {
      var c := w.live[a.id];
      ResumeKeepsWellFormed(c.job, c.pc, a.reply);
      FollowExtends(c.job, c.trace, Exchange(NextCall(c.job, c.pc), a.reply));
      if Resume(c.job, c.pc, a.reply).At? {
        ResumeBase(c.job, c.pc, a.reply);
        if a.took {
          TakenReplacementIsAccepted(w, a);
        }
      }
    } else if a.Start? {
      assert WellFormed(a.job, Loading) by { LoadingIsWellFormed(a.job); }
    }
  }

  lemma LoadingIsWellFormed(job: Job)
    ensures WellFormed(job, Loading)
  {
  }

  /** A controller becomes armed only by publishing a record newer than all before it. */
  lemma ArmingIsFresh(w: World, a: Action)
    requires Inv(w) && Enabled(w, a) && a.Interact?
    requires Armed(After(w, a).live[a.id].pc)
    ensures a.took && !Armed(w.live[a.id].pc)
    ensures forall q | q in w.history :: q.revision < After(w, a).live[a.id].pc.base.revision
  {
    hide Resume, Accepts, WellFormed;
    var c := w.live[a.id];
    ResumeBase(c.job, c.pc, a.reply);
    CallsOfPoints(c.job, c.pc);
    TakenReplacementIsAccepted(w, a);
    HistoryExtends(w.history, Durable(After(w, a)));
  }

  lemma ArmedStep(w: World, a: Action)
    requires Inv(w) && Enabled(w, a)
    ensures ArmedAreDistinct(After(w, a))
  {
    hide Resume, Accepts, WellFormed;
    if a.Interact? && Armed(After(w, a).live[a.id].pc) {
      ArmingIsFresh(w, a);
    }
  }

  lemma FreshStep(w: World, a: Action)
    requires Inv(w) && Enabled(w, a)
    ensures ArmedAreFresh(After(w, a))
  {
    hide Resume, Accepts, WellFormed;
    if a.Interact? {
      CallsOfPoints(w.live[a.id].job, w.live[a.id].pc);
      if Armed(After(w, a).live[a.id].pc) {
        ArmingIsFresh(w, a);
      }
    }
  }

  lemma EffectsStep(w: World, a: Action)
    requires Inv(w) && Enabled(w, a)
    ensures EffectsAreDistinct(After(w, a))
  {
    hide Resume, Accepts, WellFormed;
    HistoryStep(w, a);
    if a.Interact? {
      CallsOfPoints(w.live[a.id].job, w.live[a.id].pc);
      var effects := After(w, a).effects;
      forall i, j | 0 <= i < j < |effects|
        ensures effects[i].intent.revision != effects[j].intent.revision
      {
        assert effects[i] in w.effects;
      }
    }
  }

  lemma InvStep(w: World, a: Action)
    requires Inv(w) && Enabled(w, a)
    ensures Inv(After(w, a))
  {
    HistoryStep(w, a);
    ControllersStep(w, a);
    ArmedStep(w, a);
    FreshStep(w, a);
    EffectsStep(w, a);
  }

  lemma {:induction false} RunKeepsInv(ws: seq<World>, acts: seq<Action>, i: nat)
    requires Behaviour(ws, acts) && i < |ws|
    ensures Inv(ws[i])
  {
    if i > 0 {
      RunKeepsInv(ws, acts, i - 1);
      RunStep(ws, acts, i - 1);
      InvStep(ws[i - 1], acts[i - 1]);
    }
  }
}
