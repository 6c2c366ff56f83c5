/**
 Whole-run guarantees of the lifecycle system that hold under any interleaving of
 controllers, with crashes anywhere and failed calls that may have taken effect.
 */
module LifecycleGuarantees {
  import opened Outcomes
  import opened LifecycleRecords
  import opened LifecyclePolicies
  import opened LifecycleControllers
  import opened LifecycleTraces
  import opened LifecycleSystems

  // ----- Record histories

  lemma {:induction false} HistoryGrows(ws: seq<World>, acts: seq<Action>, i: nat, j: nat)
    requires Behaviour(ws, acts) && i <= j < |ws|
    ensures ws[i].history <= ws[j].history
    decreases j
  {
    hide Enabled, After, Inv;
    if i < j {
      HistoryGrows(ws, acts, i, j - 1);
      RunKeepsInv(ws, acts, j - 1);
      RunStep(ws, acts, j - 1);
      HistoryStep(ws[j - 1], acts[j - 1]);
    }
  }

  /**
   In every run the durable fence, revision and epochs never fall, and the fences and
   epochs of all records ever published determine each other.
   */
  lemma {:induction false} DurableRecordAdvances(ws: seq<World>, acts: seq<Action>, i: nat, j: nat)
    requires Behaviour(ws, acts) && i <= j < |ws|
    ensures |ws[i].history| > 0 && |ws[j].history| > 0
    ensures Durable(ws[i]) == Durable(ws[j]) || Precedes(Durable(ws[i]), Durable(ws[j]))
    ensures AcceptedHistory(ws[j].history)
  {
    RunKeepsInv(ws, acts, i);
    RunKeepsInv(ws, acts, j);
    HistoryGrows(ws, acts, i, j);
    var k := |ws[i].history| - 1;
    assert Durable(ws[i]) == ws[j].history[k];
    if k < |ws[j].history| - 1 {
      HistoryIsOrdered(ws[j].history, k, |ws[j].history| - 1);
    }
  }

  // ----- Stale writers

  /**
   Once a record with a larger fence has been durable, no replacement by a controller
   with a smaller fence ever succeeds or takes effect, whenever that controller loaded
   its copy and wherever in its call it stands.
   */
  lemma {:induction false} StaleWriterIsExcluded(ws: seq<World>, acts: seq<Action>, i: nat, j: nat)
    requires Behaviour(ws, acts) && i <= j < |acts|
    requires |ws[i].history| > 0 && acts[j].Interact? && acts[j].id in ws[j].live
    requires ws[j].live[acts[j].id].job.fence < Durable(ws[i]).fencingToken
    ensures Acting(ws[j], acts[j].id) && !acts[j].took
    ensures NextCall(ws[j].live[acts[j].id].job, ws[j].live[acts[j].id].pc).ReplaceCall? ==> acts[j].reply.Failed?
    ensures ws[j + 1].history == ws[j].history
  {
    hide Resume, Accepts, WellFormed;
    DurableRecordAdvances(ws, acts, i, j);
    RunKeepsInv(ws, acts, j);
    RunStep(ws, acts, j);
    if acts[j].took {
      TakenReplacementIsAccepted(ws[j], acts[j]);
      AcceptsIffPrecedes(Durable(ws[j]), Durable(ws[j + 1]));
    }
  }

  // ----- At most one effect per intent

  /**
   Each published intent leads to at most one freeze, checkpoint or restore call in
   the whole run, and every such call was made on a record that was durable.
   */
  lemma {:induction false} EffectsHappenAtMostOnce(ws: seq<World>, acts: seq<Action>, i: nat, a: nat, b: nat)
    requires Behaviour(ws, acts) && i < |ws|
    requires a < |ws[i].effects| && b < |ws[i].effects|
    ensures ws[i].effects[a].intent in ws[i].history
    ensures ws[i].effects[a].intent.revision == ws[i].effects[b].intent.revision ==> a == b
  {
    RunKeepsInv(ws, acts, i);
    assert ws[i].effects[a] in ws[i].effects;
  }

  // ----- Order of calls, for controllers inside the system

  /** In every run, whichever controller freezes or checkpoints has just followed the whole protocol. */
  lemma {:induction false} SuspensionFollowsProtocol(ws: seq<World>, acts: seq<Action>, j: nat)
    requires Behaviour(ws, acts) && j < |acts| && acts[j].Interact? && Acting(ws[j], acts[j].id)
    requires var c := ws[j].live[acts[j].id];
             NextCall(c.job, c.pc).FreezeCall? || NextCall(c.job, c.pc).CheckpointCall?
    ensures var c := ws[j].live[acts[j].id];
            && |c.trace| == 6 && SuspendPrefix(c.job, c.trace)
            && c.pc.At? && c.pc.base == IntentRecord(c.job, c.trace) && c.pc.base in ws[j].history
  {
    hide Resume, Accepts, SuspendPrefix;
    RunKeepsInv(ws, acts, j);
    var c := ws[j].live[acts[j].id];
    FollowOnSuspendPath(c.job, c.trace);
    CallsOfPoints(c.job, c.pc);
  }

  /** In every run, whichever controller publishes `running` from a suspended state reopened and was admitted first. */
  lemma {:induction false} ResumptionFollowsAdmission(ws: seq<World>, acts: seq<Action>, j: nat)
    requires Behaviour(ws, acts) && j < |acts| && acts[j].Interact? && Acting(ws[j], acts[j].id)
    requires var c := ws[j].live[acts[j].id];
             var call := NextCall(c.job, c.pc);
             && call.ReplaceCall? && call.next.state == Running
             && (call.expected.state == Thawing || call.expected.state == Restoring)
    ensures var c := ws[j].live[acts[j].id];
            var n := |c.trace|;
            && n >= 3
            && Reactivated(c.trace[n - 3], c.pc.base)
            && c.trace[n - 2] == Exchange(ReopenCall, Done)
            && c.trace[n - 1] == Exchange(AdmitCall, Done)
  {
    hide Resume, Accepts, WellFormed, Reactivated;
    RunKeepsInv(ws, acts, j);
    var c := ws[j].live[acts[j].id];
    var call := NextCall(c.job, c.pc);
    CallsOfPoints(c.job, c.pc);
    RunStep(ws, acts, j);
    FollowExtends(c.job, c.trace, Exchange(call, acts[j].reply));
    ResumeOrder(c.job, c.trace + [Exchange(call, acts[j].reply)], |c.trace|);
  }

  // ----- Protocol edges

  /** The changes of state that controllers make. */
  predicate EdgeStates(a: Record, b: Record) {
    match (a.state, b.state)
    case (Running, Quiescing) => true
    case (Quiescing, Running) => true
    case (Quiescing, Freezing) => a.strategy == Freeze
    case (Quiescing, Checkpointing) => a.strategy == Hibernate
    case (Freezing, Frozen) => true
    case (Freezing, Thawing) => true
    case (Frozen, Thawing) => true
    case (Thawing, Running) => true
    case (Checkpointing, Hibernated) => true
    case (Hibernated, Restoring) => true
    case (Restoring, Running) => true
    case _ => false
  }

  /** A controller's replacement changes the state along an edge and nothing else but fence and checkpoint. */
  predicate ControllerEdge(a: Record, b: Record) {
    && b == a.(fencingToken := b.fencingToken, revision := b.revision, state := b.state, checkpoint := b.checkpoint)
    && b.revision == a.revision + 1
    && EdgeStates(a, b)
    && (b.state == Restoring ==> b.checkpoint == a.checkpoint)
  }

  lemma PublicationIsEdge(job: Job, point: Point, base: Record)
    requires WellFormed(job, At(point, base)) && Target(point).Some?
    ensures ControllerEdge(base, Proposal(job, point, base))
  {
    AcceptsIffPrecedes(base, Proposal(job, point, base));
  }

  /** Runs in which the placement writer only ever installs new runtime incarnations. */
  ghost predicate OnlyReassigns(ws: seq<World>, acts: seq<Action>)
    requires Behaviour(ws, acts)
  {
    forall i | 0 <= i < |acts| && acts[i].Write? && |ws[i].history| > 0 ::
      Durable(ws[i]).runtimeEpoch < acts[i].next.runtimeEpoch
  }

  ghost predicate Edges(h: seq<Record>) {
    forall i, j | 0 <= i && j == i + 1 && j < |h| ::
      ControllerEdge(h[i], h[j]) || h[i].runtimeEpoch < h[j].runtimeEpoch
  }

  lemma EdgesExtend(h: seq<Record>, next: Record)
    requires Edges(h) && |h| > 0
    requires ControllerEdge(h[|h| - 1], next) || h[|h| - 1].runtimeEpoch < next.runtimeEpoch
    ensures Edges(h + [next])
  {
    var g := h + [next];
    forall i, j | 0 <= i && j == i + 1 && j < |g|
      ensures ControllerEdge(g[i], g[j]) || g[i].runtimeEpoch < g[j].runtimeEpoch
    {
      if j < |h| {
        assert g[i] == h[i] && g[j] == h[j];
      }
    }
  }

  lemma TakenReplacementIsEdge(w: World, a: Action)
    requires Inv(w) && Enabled(w, a) && a.Interact? && a.took
    ensures |After(w, a).history| == |w.history| + 1
    ensures ControllerEdge(Durable(w), Durable(After(w, a)))
  {
    hide Resume, Accepts, WellFormed, ControllerEdge;
    var c := w.live[a.id];
    CallsOfPoints(c.job, c.pc);
    PublicationIsEdge(c.job, c.pc.point, c.pc.base);
  }

  /** In every run each publication is one protocol edge or a new runtime incarnation. */
  lemma {:induction false} RunFollowsEdges(ws: seq<World>, acts: seq<Action>, i: nat)
    requires Behaviour(ws, acts) && OnlyReassigns(ws, acts) && i < |ws|
    ensures Edges(ws[i].history)
  {
    hide Resume, Accepts, WellFormed, ControllerEdge;
    if i > 0 {
      RunFollowsEdges(ws, acts, i - 1);
      RunKeepsInv(ws, acts, i - 1);
      var w, a := ws[i - 1], acts[i - 1];
      RunStep(ws, acts, i - 1);
      if a.Write? {
        EdgesExtend(w.history, a.next);
      } else if a.Interact? && a.took {
        TakenReplacementIsEdge(w, a);
        EdgesExtend(w.history, Durable(ws[i]));
      }
    }
  }

  /**
   The edges are exactly the policy's own changes of state, and recovery's `freezing` to
   `thawing`, which the policy takes in two steps.
   */
  lemma EdgeIsPolicyPath(policy: Policy, a: Record, b: Record)
    requires Valid(a) && Valid(b) && policy.strategy == a.strategy == b.strategy
    ensures EdgeStates(a, b) <==>
            || (a.state != b.state && PolicyStep(policy, ToPolicyState(a), ToPolicyState(b)))
            || (a.state == Freezing && b.state == Thawing)
    ensures PolicyStep(policy, PolicyFreezing, PolicyFrozen)
    ensures PolicyStep(policy, PolicyFrozen, PolicyResuming(Freeze))
    ensures !PolicyStep(policy, PolicyFreezing, PolicyResuming(Freeze))
  {
    hide Validate;
    ValidIff(a);
    ValidIff(b);
    var idle := Observed(Activity(0, 0, policy.minimumIdleMs));
    var demand := Observed(Activity(1, 0, 0));
    var s, t := ToPolicyState(a), ToPolicyState(b);
    assert Decides(policy, PolicyFreezing, FreezeSucceeded, PolicyFrozen);
    assert Decides(policy, PolicyFrozen, demand, PolicyResuming(Freeze));
    if EdgeStates(a, b) && !(a.state == Freezing && b.state == Thawing) {
      assert || Decides(policy, s, idle, t) || Decides(policy, s, demand, t) || Decides(policy, s, QuiesceSucceeded, t)
             || Decides(policy, s, FreezeSucceeded, t) || Decides(policy, s, CheckpointSucceeded, t)
             || Decides(policy, s, ResumeSucceeded, t);
    }
  }

  /** In every run, each replacement asked for is what the policy decides on its controller's own evidence. */
  lemma {:induction false} RunFollowsPolicy(ws: seq<World>, acts: seq<Action>, j: nat)
    requires Behaviour(ws, acts) && j < |acts| && acts[j].Interact? && Acting(ws[j], acts[j].id)
    requires var c := ws[j].live[acts[j].id]; NextCall(c.job, c.pc).ReplaceCall?
    ensures var c := ws[j].live[acts[j].id];
            var call, e := NextCall(c.job, c.pc), Evidence(c.trace);
            && (e.Some? ==> Decides(c.job.policy, ToPolicyState(call.expected), e.value, ToPolicyState(call.next)))
            && (e.None? <==> Unsupported(c.job, c.trace, call.expected, call.next))
  {
    hide Resume, Accepts, WellFormed, Decides, Evidence, Unsupported, CallMay, NextCall;
    RunKeepsInv(ws, acts, j);
    var c := ws[j].live[acts[j].id];
    var x := Exchange(NextCall(c.job, c.pc), Failed);
    FollowExtends(c.job, c.trace, x);
    ReplacementIsPolicyStep(c.job, c.trace + [x], |c.trace|);
    assert (c.trace + [x])[..|c.trace|] == c.trace;
  }

  // ----- Recovery measure

  /**
   However often recovery and reconciliation are interrupted, `freezing` and `thawing`
   are left after at most two and one publications, as long as no new runtime is placed.
   */
  lemma {:induction false} TransitionsSettle(ws: seq<World>, acts: seq<Action>, i: nat, k: nat)
    requires Behaviour(ws, acts) && i < |ws|
    requires forall m | 0 <= m < |acts| :: !acts[m].Write?
    requires k < |ws[i].history|
    requires var n := RecoverySteps(ws[i].history[k].state); n > 0 && k + n < |ws[i].history|
    ensures exists m | k < m <= k + RecoverySteps(ws[i].history[k].state) ::
              ws[i].history[m].state == Frozen || ws[i].history[m].state == Running
  {
    RunFollowsEdges(ws, acts, i);
    var h := ws[i].history;
    NoNewRuntime(ws, acts, i, k);
    assert ControllerEdge(h[k], h[k + 1]);
    if h[k].state == Freezing && h[k + 1].state == Thawing {
      NoNewRuntime(ws, acts, i, k + 1);
      assert ControllerEdge(h[k + 1], h[k + 2]);
      assert h[k + 2].state == Running;
    }
  }

  lemma {:induction false} NoNewRuntime(ws: seq<World>, acts: seq<Action>, i: nat, k: nat)
    requires Behaviour(ws, acts) && i < |ws|
    requires forall m | 0 <= m < |acts| :: !acts[m].Write?
    requires k + 1 < |ws[i].history|
    ensures ws[i].history[k].runtimeEpoch == ws[i].history[k + 1].runtimeEpoch
  {
    hide Resume, Accepts, WellFormed;
    if i > 0 {
      RunKeepsInv(ws, acts, i - 1);
      var w, a := ws[i - 1], acts[i - 1];
      RunStep(ws, acts, i - 1);
      if k + 1 < |w.history| {
        NoNewRuntime(ws, acts, i - 1, k);
        HistoryStep(w, a);
      } else {
        TakenReplacementIsEdge(w, a);
      }
    }
  }

  // ----- Checkpoint provenance

  /** Where every checkpoint in the system came from. */
  ghost predicate CheckpointsAreTraced(w: World) {
    && (forall k | 0 < k < |w.history| && w.history[k].state == Hibernated && w.history[k].checkpoint.Some? ::
          Effect(CheckpointCall, w.history[k - 1], Artifact(w.history[k].checkpoint.value)) in w.effects)
    && (forall id | id in w.live && w.live[id].pc.At? && w.live[id].pc.point.PublishHibernated? ::
          Effect(CheckpointCall, w.live[id].pc.base, Artifact(w.live[id].pc.point.artifact)) in w.effects)
    && (forall e | e in w.effects && e.call.RestoreCall? ::
          e.intent.state == Restoring && e.intent.checkpoint == Some(e.call.checkpoint))
  }

  lemma HibernatedPublisher(job: Job, pc: Pc, reply: Reply)
    requires !pc.Finished? && Fits(NextCall(job, pc), reply)
    requires Resume(job, pc, reply).At? && Resume(job, pc, reply).point.PublishHibernated?
    ensures NextCall(job, pc) == CheckpointCall && pc.At? && pc.base == Resume(job, pc, reply).base
    ensures reply == Artifact(Resume(job, pc, reply).point.artifact)
  {
    hide Accepts, Refusal;
  }

  lemma RestoreCaller(job: Job, pc: Pc)
    requires !pc.Finished? && WellFormed(job, pc) && NextCall(job, pc).RestoreCall?
    ensures pc.At? && pc.point.DoRestore? && pc.base.state == Restoring && pc.base.checkpoint == Some(NextCall(job, pc).checkpoint)
  {
  }

  lemma HibernatedProposal(job: Job, pc: Pc)
    requires WellFormed(job, pc) && !pc.Finished? && NextCall(job, pc).ReplaceCall?
    requires NextCall(job, pc).next.state == Hibernated
    ensures pc.At? && pc.point.PublishHibernated? && NextCall(job, pc).expected == pc.base
    ensures NextCall(job, pc).next.checkpoint == Some(pc.point.artifact)
  {
  }

  lemma TracedStep(w: World, a: Action)
    requires Inv(w) && CheckpointsAreTraced(w) && Enabled(w, a)
    requires a.Write? ==> Durable(w).runtimeEpoch < a.next.runtimeEpoch
    ensures CheckpointsAreTraced(After(w, a))
  {
    hide Resume, Accepts, WellFormed, NextCall, Inv;
    var v := After(w, a);
    if a.Interact? {
      var c := w.live[a.id];
      KnowsItsPlace(w, a.id);
      var call := NextCall(c.job, c.pc);
      CallsOfPoints(c.job, c.pc);
      if call.RestoreCall? {
        RestoreCaller(c.job, c.pc);
      }
      var pc := v.live[a.id].pc;
      if pc.At? && pc.point.PublishHibernated? {
        HibernatedPublisher(c.job, c.pc, a.reply);
      }
      if a.took && call.next.state == Hibernated {
        HibernatedProposal(c.job, c.pc);
      }
    } else if a.Write? {
      AcceptsIffPrecedes(Durable(w), a.next);
    }
    forall k | 0 < k < |v.history| && v.history[k].state == Hibernated && v.history[k].checkpoint.Some?
      ensures Effect(CheckpointCall, v.history[k - 1], Artifact(v.history[k].checkpoint.value)) in v.effects
    {
      if k < |w.history| {
        assert v.history[k] == w.history[k] && v.history[k - 1] == w.history[k - 1];
      } else {
        assert v.history[k - 1] == Durable(w);
      }
    }
  }

  lemma {:induction false} RunTracesCheckpoints(ws: seq<World>, acts: seq<Action>, i: nat)
    requires Behaviour(ws, acts) && OnlyReassigns(ws, acts) && i < |ws|
    ensures CheckpointsAreTraced(ws[i])
  {
    hide Resume, Accepts, WellFormed;
    if i > 0 {
      RunTracesCheckpoints(ws, acts, i - 1);
      RunKeepsInv(ws, acts, i - 1);
      RunStep(ws, acts, i - 1);
      TracedStep(ws[i - 1], acts[i - 1]);
    }
  }

  /**
   A restore is handed exactly the checkpoint that its own hibernation produced: the
   restoring record directly follows a hibernated one, which directly follows the
   checkpointing intent whose single checkpoint call returned that checkpoint.
   */
  lemma {:induction false} RestoreUsesItsCheckpoint(ws: seq<World>, acts: seq<Action>, i: nat, e: Effect)
    returns (k: nat)
    requires Behaviour(ws, acts) && OnlyReassigns(ws, acts) && i < |ws|
    requires ws[0].history[0].state == Running
    requires e in ws[i].effects && e.call.RestoreCall?
    ensures 2 <= k < |ws[i].history|
    ensures ws[i].history[k] == e.intent
    ensures ws[i].history[k - 1].state == Hibernated
    ensures ws[i].history[k - 1].checkpoint == Some(e.call.checkpoint)
    ensures ws[i].history[k - 2].state == Checkpointing
    ensures Effect(CheckpointCall, ws[i].history[k - 2], Artifact(e.call.checkpoint)) in ws[i].effects
  {
    hide Resume, WellFormed, Run, Inv, Accepts, EdgeStates, OnlyReassigns;
    RunKeepsInv(ws, acts, i);
    InvHistory(ws[i]);
    IntentIsPast(ws[i], e);
    RunTracesCheckpoints(ws, acts, i);
    RunFollowsEdges(ws, acts, i);
    HistoryGrows(ws, acts, 0, i);
    var h := ws[i].history;
    k :| 0 <= k < |h| && h[k] == e.intent;
    PrecededByEdge(h, k);
    RestoringEdge(h[k - 1], h[k]);
    PrecededByEdge(h, k - 1);
    HibernatedEdge(h[k - 2], h[k - 1]);
  }

  lemma RestoringEdge(a: Record, b: Record)
    requires ControllerEdge(a, b) && b.state == Restoring
    ensures a.state == Hibernated && a.checkpoint == b.checkpoint
  {
  }

  lemma HibernatedEdge(a: Record, b: Record)
    requires ControllerEdge(a, b) && b.state == Hibernated
    ensures a.state == Checkpointing
  {
  }

  lemma IntentIsPast(w: World, e: Effect)
    requires Inv(w) && e in w.effects
    ensures e.intent in w.history
  {
    hide AcceptedHistory, ControllersKnow, ArmedAreDistinct, ArmedAreFresh;
  }

  /** A record that is not `running` was published by a protocol edge. */
  lemma PrecededByEdge(h: seq<Record>, k: nat)
    requires AcceptedHistory(h) && Edges(h) && k < |h|
    requires h[0].state == Running && h[k].state != Running
    ensures k > 0 && ControllerEdge(h[k - 1], h[k])
  {
    assert Accepts(h[k - 1], h[k]);
    AcceptsIffPrecedes(h[k - 1], h[k]);
  }

  // ----- Each hibernation is restored at most once

  /** `r` was published directly on top of the hibernated record at `h`, with its checkpoint. */
  ghost predicate Awakens(history: seq<Record>, h: nat, r: Record) {
    && h + 1 < |history| && history[h + 1] == r
    && history[h].state == Hibernated && history[h].checkpoint == r.checkpoint && r.checkpoint.Some?
  }

  /** Whoever restores, or is about to, awakens a hibernated record. */
  ghost predicate RestoresAwaken(w: World) {
    && (forall e | e in w.effects && e.call.RestoreCall? ::
          e.intent.checkpoint == Some(e.call.checkpoint) && exists h: nat :: Awakens(w.history, h, e.intent))
    && (forall id | id in w.live && w.live[id].pc.At? && w.live[id].pc.point.DoRestore? ::
          exists h: nat :: Awakens(w.history, h, w.live[id].pc.base))
  }

  lemma RestoreArming(job: Job, pc: Pc, reply: Reply)
    requires WellFormed(job, pc) && !pc.Finished? && Fits(NextCall(job, pc), reply)
    requires Resume(job, pc, reply).At? && Resume(job, pc, reply).point.DoRestore?
    ensures NextCall(job, pc).ReplaceCall? && reply.Done? && NextCall(job, pc).next == Resume(job, pc, reply).base
    ensures NextCall(job, pc).expected.state == Hibernated
    ensures NextCall(job, pc).expected.checkpoint == NextCall(job, pc).next.checkpoint
    ensures NextCall(job, pc).next.checkpoint.Some?
  {
    hide Accepts, Validate;
  }

  lemma AwakensGrows(history: seq<Record>, longer: seq<Record>, h: nat, r: Record)
    requires history <= longer && Awakens(history, h, r)
    ensures Awakens(longer, h, r)
  {
  }

  lemma RestoresAwakenStep(w: World, a: Action)
    requires Inv(w) && RestoresAwaken(w) && Enabled(w, a)
    ensures RestoresAwaken(After(w, a))
  {
    hide Resume, Accepts, WellFormed, NextCall, Awakens, Inv, FreezeMay, ThawMay;
    HistoryStep(w, a);
    var v := After(w, a);
    forall h: nat, r | Awakens(w.history, h, r)
      ensures Awakens(v.history, h, r)
    {
      AwakensGrows(w.history, v.history, h, r);
    }
    if a.Interact? {
      var c := w.live[a.id];
      var next := v.live[a.id].pc;
      KnowsItsPlace(w, a.id);
      CallsOfPoints(c.job, c.pc);
      if NextCall(c.job, c.pc).RestoreCall? {
        RestoreCaller(c.job, c.pc);
      }
      if next.At? && next.point.DoRestore? {
        RestoreArming(c.job, c.pc, a.reply);
        Awakening(w.history, NextCall(c.job, c.pc).next);
        assert Awakens(v.history, |w.history| - 1, next.base);
      }
    }
  }

  lemma Awakening(history: seq<Record>, r: Record)
    requires |history| > 0 && history[|history| - 1].state == Hibernated
    requires history[|history| - 1].checkpoint == r.checkpoint && r.checkpoint.Some?
    ensures Awakens(history + [r], |history| - 1, r)
  {
  }

  lemma {:induction false} RunRestoresAwaken(ws: seq<World>, acts: seq<Action>, i: nat)
    requires Behaviour(ws, acts) && i < |ws|
    ensures RestoresAwaken(ws[i])
  {
    hide Enabled, After, Inv;
    if i > 0 {
      RunRestoresAwaken(ws, acts, i - 1);
      RunKeepsInv(ws, acts, i - 1);
      RunStep(ws, acts, i - 1);
      RestoresAwakenStep(ws[i - 1], acts[i - 1]);
    }
  }

  /**
   From any start and under any writer, every restore call is made for a record published
   directly on top of a hibernated one and is handed that record's checkpoint, and no
   hibernated record is ever restored twice.
   */
  lemma {:induction false} HibernationIsRestoredOnce(ws: seq<World>, acts: seq<Action>, i: nat)
    requires Behaviour(ws, acts) && i < |ws|
    ensures forall a | 0 <= a < |ws[i].effects| && ws[i].effects[a].call.RestoreCall? ::
              && ws[i].effects[a].intent.checkpoint == Some(ws[i].effects[a].call.checkpoint)
              && exists h: nat :: Awakens(ws[i].history, h, ws[i].effects[a].intent)
    ensures forall a, b, h: nat | 0 <= a < |ws[i].effects| && 0 <= b < |ws[i].effects| ::
              Awakens(ws[i].history, h, ws[i].effects[a].intent) && Awakens(ws[i].history, h, ws[i].effects[b].intent) ==> a == b
  {
    hide Inv;
    RunRestoresAwaken(ws, acts, i);
    forall a, b, h: nat | 0 <= a < |ws[i].effects| && 0 <= b < |ws[i].effects|
      ensures Awakens(ws[i].history, h, ws[i].effects[a].intent) && Awakens(ws[i].history, h, ws[i].effects[b].intent) ==> a == b
    {
      EffectsHappenAtMostOnce(ws, acts, i, a, b);
    }
  }
}
