/**
 The store under the controllers: what the register that the file store refines allows a
 load and a replacement to do is exactly what the lifecycle system assumes of its store,
 and what a workload's canonical file holds over any run is an accepted history.
 */
module StoreJoins {
  import opened Outcomes
  import opened LifecycleRecords
  import LifecycleControllers
  import LifecycleSystems
  import opened RecordStores
  import opened StoreRefinements

  // ----- Loads

  /** What a controller makes of a load's result. */
  function LoadReply(result: Result<Record, StoreError>): LifecycleControllers.Reply {
    if result.Ok? then LifecycleControllers.Loaded(result.value) else LifecycleControllers.Failed
  }

  /** The system's load is the register's load of the workload that the job names. */
  lemma SystemLoadsAreRegisterLoads(
    values: map<string, Record>, job: LifecycleControllers.Job, k: LifecycleSystems.Kernel,
    reply: LifecycleControllers.Reply, took: bool, k': LifecycleSystems.Kernel)
    requires var w := job.scope.workloadId; ValidIdentity(w) && w in values && values[w].workloadId == w
    ensures var w := job.scope.workloadId;
            LifecycleSystems.CallMay(values[w], k, job, LifecycleControllers.LoadCall, reply, took, k') <==>
            && !took && k' == k
            && exists result :: MayLoad(values, w, result) && reply == LoadReply(result)
  {
    var w := job.scope.workloadId;
    if reply.Failed? {
      assert MayLoad(values, w, Err(Io)) && LoadReply(Err(Io)) == reply;
    } else if reply == LifecycleControllers.Loaded(values[w]) {
      assert MayLoad(values, w, Ok(values[w])) && LoadReply(Ok(values[w])) == reply;
    }
  }

  // ----- Replacements

  /** How one call can leave the register: what it did there, and its answer unless it was cut short. */
  predicate MayEnd(values: map<string, Record>, op: Op, phase: Phase, result: Option<Result<(), StoreError>>) {
    && (phase.Effective? ==> Matches(values, op) && ValidateOp(op).None?)
    && (phase.Refused? ==> !Matches(values, op))
    && (result.Some? ==> MayAnswer(phase, result.value))
  }

  /** What a controller makes of a replacement's result, or of none. */
  function ReplaceReply(result: Option<Result<(), StoreError>>): LifecycleControllers.Reply {
    if result == Some(Ok(())) then LifecycleControllers.Done else LifecycleControllers.Failed
  }

  lemma AcceptedReplaceIsValid(expected: Record, next: Record)
    requires Accepts(expected, next)
    ensures ValidateOp(Replace(expected, next)).None?
  {
    hide Precedes;
    AcceptsIffPrecedes(expected, next);
    ValidIff(expected);
    ValidIff(next);
  }

  /**
   The system's replacement is the register's: it takes effect exactly when the register's
   call does, and answers success only then.
   */
  lemma SystemReplacesAreRegisterReplaces(
    values: map<string, Record>, job: LifecycleControllers.Job, k: LifecycleSystems.Kernel,
    expected: Record, next: Record, reply: LifecycleControllers.Reply, took: bool, k': LifecycleSystems.Kernel)
    requires Accepts(expected, next) && expected.workloadId in values
    ensures LifecycleSystems.CallMay(values[expected.workloadId], k, job,
                                     LifecycleControllers.ReplaceCall(expected, next), reply, took, k') <==>
            && k' == k
            && exists phase, result ::
                 MayEnd(values, Replace(expected, next), phase, result) && took == phase.Effective? && reply == ReplaceReply(result)
  {
    hide ValidateOp, Accepts;
    AcceptedReplaceIsValid(expected, next);
    var op := Replace(expected, next);
    var durable := values[expected.workloadId];
    if reply.Done? && took && expected == durable {
      assert MayEnd(values, op, Effective, Some(Ok(()))) && ReplaceReply(Some(Ok(()))) == reply;
    } else if reply.Failed? && took && expected == durable {
      assert MayEnd(values, op, Effective, Some(Err(Io))) && ReplaceReply(Some(Err(Io))) == reply;
    } else if reply.Failed? && !took {
      assert MayEnd(values, op, Waiting, Some(Err(Io))) && ReplaceReply(Some(Err(Io))) == reply;
    }
  }

  // ----- Histories

  lemma StoredRecordIsValid(codec: Codec, files: map<FileName, Bytes>, w: string)
    requires w in Values(codec, files)
    ensures Valid(Values(codec, files)[w]) && Values(codec, files)[w].workloadId == w
  {
    hide Validate, ValidIdentity, Values;
    ValuesLookup(codec, files, w);
  }

  /**
   Over any stretch of any run of the file-level store, the records that a workload's
   canonical file holds form an accepted history, so what is proved of every history
   holds of the files.
   */
  lemma {:induction false} StoredRecordsAreAHistory(
    codec: Codec, ss: seq<Store>, es: seq<Event>, i: nat, j: nat, w: string) returns (h: seq<Record>)
    requires Lossless(codec) && Behaviour(codec, ss, es) && i <= j < |ss|
    requires w in Values(codec, ss[i].dir.files)
    ensures AcceptedHistory(h) && h[0] == Values(codec, ss[i].dir.files)[w]
    ensures forall k | i <= k <= j :: w in Values(codec, ss[k].dir.files) && Values(codec, ss[k].dir.files)[w] in h
    ensures w in Values(codec, ss[j].dir.files) && h[|h| - 1] == Values(codec, ss[j].dir.files)[w]
    decreases j - i
  {
    hide Step, Values, LoadRecord, StoreInv, Precedes, Accepts, Valid, Enabled, After, RegisterMay, RegisterAfter;
    if i == j {
      StoredRecordIsValid(codec, ss[i].dir.files, w);
      h := [Values(codec, ss[i].dir.files)[w]];
    } else {
      h := StoredRecordsAreAHistory(codec, ss, es, i, j - 1, w);
      StoreRefinesRegister(codec, ss, es, j - 1);
      var r := Abstract(codec, ss[j - 1]);
      var x := EventOf(codec, ss[j - 1], es[j - 1]);
      if x.Some? {
        RegisterAdvances(r, x.value, w);
        var next := Values(codec, ss[j].dir.files)[w];
        if next != r.values[w] {
          HistoryExtends(h, next);
          h := h + [next];
        }
      }
    }
  }
}
