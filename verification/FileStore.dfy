/**
 The store's methods as the source has them, each a sequence of file operations on the
 records directory. Their operations are the steps of the file-level store, so the
 refinement covers them under interference; undisturbed, they meet the contract of a
 compare-and-set register directly.
 */
module FileStores {
  import opened Outcomes
  import opened LifecycleRecords
  import opened RecordStores
  import opened StoreRefinements

  /** The steps `choices` take caller `id` from `c` in `dir` to the result, without interference. */
  function Replay(codec: Codec, id: nat, dir: Dir, c: Caller, choices: seq<Choice>): Option<(Dir, Caller)>
    decreases |choices|
  {
    if |choices| == 0 then Some((dir, c))
    else
      var last := |choices| - 1;
      var before := Replay(codec, id, dir, c, choices[..last]);
      if before.None? || !CanStep(before.value.0, before.value.1, choices[last]) then None
      else Some(Step(codec, before.value.0, id, before.value.1, choices[last]))
  }

  lemma {:induction false} ReplayExtends(codec: Codec, id: nat, dir: Dir, c: Caller, choices: seq<Choice>, x: Choice)
    requires Replay(codec, id, dir, c, choices).Some?
    requires var (d, k) := Replay(codec, id, dir, c, choices).value; CanStep(d, k, x)
    ensures Replay(codec, id, dir, c, choices + [x]) ==
            (var (d, k) := Replay(codec, id, dir, c, choices).value; Some(Step(codec, d, id, k, x)))
  {
    hide Step, CanStep;
    assert (choices + [x])[..|choices|] == choices;
  }

  /** What an undisturbed call has done so far: nothing, or exactly its replacement. */
  ghost predicate SoloEffect(codec: Codec, before: map<FileName, Bytes>, after: map<FileName, Bytes>, c: Caller) {
    if c.phase.Effective? then
      && Matches(Values(codec, before), c.op)
      && Values(codec, after) == Values(codec, before)[c.op.Workload() := c.op.Wanted()]
    else
      && Values(codec, after) == Values(codec, before)
      && (c.phase.Refused? ==> !Matches(Values(codec, before), c.op))
  }

  lemma SoloStep(codec: Codec, before: map<FileName, Bytes>, dir: Dir, id: nat, c: Caller, x: Choice)
    requires Lossless(codec) && CanStep(dir, c, x)
    requires CallerOk(codec, dir.files, c) && FilesOk(codec, dir.files) && SoloEffect(codec, before, dir.files, c)
    ensures var (dir', c') := Step(codec, dir, id, c, x);
            && c'.op == c.op
            && CallerOk(codec, dir'.files, c') && FilesOk(codec, dir'.files) && SoloEffect(codec, before, dir'.files, c')
  {
    hide CallerOk, Step, FilesOk, SameExcept, SameRecords, Values, ValidateOp, CheckCurrent, Matches, CanStep;
    CallerStep(codec, dir, id, c, x);
    PhaseStep(codec, dir, id, c, x);
    SameOp(codec, dir, id, c, x);
    var (dir', c') := Step(codec, dir, id, c, x);
    if Publishes(dir, c, x) {
      PublishFiles(codec, dir, id, c, x);
      PublishStep(codec, dir, id, c, x);
      ValuesUpdate(codec, dir.files, dir'.files, c.op.Workload(), c.op.Wanted());
      CheckDecidesMatch(codec, dir.files, c.op);
    } else {
      QuietStepFiles(codec, dir, id, c, x);
      ValuesAlike(codec, dir.files, dir'.files);
      if c'.phase != c.phase {
        CheckDecidesMatch(codec, dir.files, c.op);
      }
    }
  }

  lemma SameOp(codec: Codec, dir: Dir, id: nat, c: Caller, x: Choice)
    requires CanStep(dir, c, x)
    ensures Step(codec, dir, id, c, x).1.op == c.op
  {
    hide LoadRecord, ValidateOp, CheckCurrent;
  }

  /** An undisturbed call takes effect completely or not at all, and answers accordingly. */
  lemma {:induction false} SoloCall(codec: Codec, id: nat, dir: Dir, op: Op, choices: seq<Choice>)
    requires Lossless(codec) && FilesOk(codec, dir.files)
    requires Replay(codec, id, dir, Caller(op, Validating, Waiting), choices).Some?
    ensures var (dir', c') := Replay(codec, id, dir, Caller(op, Validating, Waiting), choices).value;
            && c'.op == op && CallerOk(codec, dir'.files, c') && FilesOk(codec, dir'.files)
            && SoloEffect(codec, dir.files, dir'.files, c')
    decreases |choices|
  {
    hide Step, Values, CanStep, FilesOk, SoloEffect;
    if |choices| == 0 {
      NothingDoneYet(codec, dir.files, op);
    } else {
      var last := |choices| - 1;
      SoloCall(codec, id, dir, op, choices[..last]);
      var (d, c) := Replay(codec, id, dir, Caller(op, Validating, Waiting), choices[..last]).value;
      SoloStep(codec, dir.files, d, id, c, choices[last]);
    }
  }

  lemma NothingDoneYet(codec: Codec, files: map<FileName, Bytes>, op: Op)
    ensures SoloEffect(codec, files, files, Caller(op, Validating, Waiting))
  {
  }

  /** What a finished undisturbed call has done, by its answer. */
  lemma SoloEnd(codec: Codec, id: nat, dir: Dir, op: Op, choices: seq<Choice>, dir': Dir, c: Caller)
    requires Lossless(codec) && FilesOk(codec, dir.files)
    requires Replay(codec, id, dir, Caller(op, Validating, Waiting), choices) == Some((dir', c)) && c.stage.Returned?
    ensures FilesOk(codec, dir'.files)
    ensures var values, values' := Values(codec, dir.files), Values(codec, dir'.files);
            var replaced := values[op.Workload() := op.Wanted()];
            && (c.stage.result.Ok? ==> Matches(values, op) && values' == replaced)
            && (c.stage.result.Err? ==> values' == values || (Matches(values, op) && values' == replaced))
            && (c.stage.result.Err? && IsRefusal(c.stage.result.error) ==> values' == values && !Matches(values, op))
  {
    hide Step, Values, CanStep, FilesOk, Matches, Replay;
    SoloCall(codec, id, dir, op, choices);
    ReturnedAnswers(codec, dir'.files, c);
  }

  // ----- When a call succeeds

  /** A replacement is let through exactly when it is an accepted update. */
  lemma ValidateOpIff(op: Op)
    ensures ValidateOp(op).None? <==> if op.Replace? then Accepts(op.expected, op.next) else Valid(op.record)
  {
    hide Precedes;
    if op.Replace? {
      AcceptsIffPrecedes(op.expected, op.next);
      ValidIff(op.expected);
      ValidIff(op.next);
    } else {
      ValidIff(op.record);
    }
  }

  function TempName(op: Op, x: Choice): FileName {
    TempFile(op.Workload(), op.Wanted().revision, x.pid, x.nonce)
  }

  /** The answer that is due to a call which nothing disturbs and in which no operation fails. */
  function Due(codec: Codec, values: map<string, Record>, op: Op, newName: bool): Result<(), StoreError> {
    var w := op.Workload();
    if ValidateOp(op).Some? then Err(ValidateOp(op).value)
    else if op.Replace? && w !in values then Err(MissingRecord)
    else if op.Replace? && values[w] != op.expected then Err(UnexpectedCurrent)
    else if op.Initialize? && w in values then Err(AlreadyInitialized)
    else if |codec.encode(op.Wanted())| > MAX_RECORD_BYTES then Err(RecordTooLarge)
    else if !newName then Err(Io)
    else Ok(())
  }

  ghost predicate SameTemps(files: map<FileName, Bytes>, files': map<FileName, Bytes>) {
    forall name: FileName | name.TempFile? :: name in files <==> name in files'
  }

  /** The call's own temporary file is the only one that was added. */
  ghost predicate OneMoreTemp(files: map<FileName, Bytes>, files': map<FileName, Bytes>, own: FileName) {
    && own.TempFile? && own !in files && own in files'
    && forall name: FileName | name.TempFile? && name != own :: name in files <==> name in files'
  }

  /** Where an undisturbed, fault-free call stands after `n` steps, on the way to the answer that is due. */
  ghost predicate OnCourse(codec: Codec, dir0: Dir, dir: Dir, c: Caller, n: nat, newName: bool) {
    var values := Values(codec, dir0.files);
    var due := Due(codec, values, c.op, newName);
    match c.stage
    case Validating => n == 0 && dir.files == dir0.files
    case Locking => n == 1 && dir.files == dir0.files && ValidateOp(c.op).None?
    case Checking => n == 2 && Values(codec, dir.files) == values && SameTemps(dir0.files, dir.files) && ValidateOp(c.op).None?
    case Creating =>
      && n == 3 && SameTemps(dir0.files, dir.files) && ValidateOp(c.op).None? && Matches(values, c.op)
      && |codec.encode(c.op.Wanted())| <= MAX_RECORD_BYTES
    case Writing(name, _) => due.Ok? && OneMoreTemp(dir0.files, dir.files, name)
    case Publishing(name) => due.Ok? && OneMoreTemp(dir0.files, dir.files, name)
    case Undoing(_, _) => false
    case Tidying(name) => due.Ok? && OneMoreTemp(dir0.files, dir.files, name)
    case Syncing => due.Ok? && SameTemps(dir0.files, dir.files)
    case Confirming => due.Ok? && SameTemps(dir0.files, dir.files)
    case Unlocking(result) => result == due && SameTemps(dir0.files, dir.files)
    case Returned(result) => result == due && SameTemps(dir0.files, dir.files)
  }

  /** The locked re-read refuses with the name of what it found. */
  lemma CheckNames(codec: Codec, files: map<FileName, Bytes>, op: Op)
    requires FilesOk(codec, files) && ValidateOp(op).None?
    ensures CheckCurrent(codec, files, op).None? <==> Matches(Values(codec, files), op)
    ensures CheckCurrent(codec, files, op).Some? ==>
              CheckCurrent(codec, files, op).value ==
              if op.Initialize? then AlreadyInitialized
              else if op.Workload() !in Values(codec, files) then MissingRecord
              else UnexpectedCurrent
  {
    hide Values, Validate, ValidateUpdate, ValidIdentity;
    CheckDecidesMatch(codec, files, op);
    WantedFacts(op);
    ValuesLookup(codec, files, op.Workload());
  }

  lemma EarlyCourse(codec: Codec, dir0: Dir, dir: Dir, id: nat, c: Caller, x: Choice, n: nat, newName: bool)
    requires CanStep(dir, c, x) && !x.fault && OnCourse(codec, dir0, dir, c, n, newName)
    requires CallerOk(codec, dir.files, c) && FilesOk(codec, dir.files)
    requires c.stage.Validating? || c.stage.Locking? || c.stage.Checking?
    ensures var (dir', c') := Step(codec, dir, id, c, x);
            OnCourse(codec, dir0, dir', c', n + 1, newName)
  {
    hide Values, ValidateOp, CheckCurrent, FilesOk, CallerOk, Matches, LoadRecord;
    if c.stage.Checking? {
      assert ValidateOp(c.op).None?;
      CheckNames(codec, dir.files, c.op);
      MatchesMeans(Values(codec, dir.files), c.op);
    } else if c.stage.Locking? {
      var dir' := Step(codec, dir, id, c, x).0;
      assert SameRecords(dir.files, dir'.files);
      ValuesAlike(codec, dir.files, dir'.files);
    }
  }

  lemma MatchesMeans(values: map<string, Record>, op: Op)
    ensures Matches(values, op) <==>
            if op.Replace? then op.Workload() in values && values[op.Workload()] == op.expected
            else op.Workload() !in values
  {
  }

  lemma MiddleCourse(codec: Codec, dir0: Dir, dir: Dir, id: nat, c: Caller, x: Choice, n: nat, newName: bool)
    requires CanStep(dir, c, x) && !x.fault && OnCourse(codec, dir0, dir, c, n, newName)
    requires CallerOk(codec, dir.files, c)
    requires c.stage.Creating? || c.stage.Writing? || c.stage.Publishing?
    requires n == 3 ==> newName == (TempName(c.op, x) !in dir0.files)
    ensures var (dir', c') := Step(codec, dir, id, c, x);
            OnCourse(codec, dir0, dir', c', n + 1, newName)
  {
    hide Values, ValidateOp, Matches, LoadRecord, Lossless;
    MatchesMeans(Values(codec, dir0.files), c.op);
  }

  lemma LateCourse(codec: Codec, dir0: Dir, dir: Dir, id: nat, c: Caller, x: Choice, n: nat, newName: bool)
    requires CanStep(dir, c, x) && !x.fault && OnCourse(codec, dir0, dir, c, n, newName)
    requires CallerOk(codec, dir.files, c)
    requires c.stage.Tidying? || c.stage.Syncing? || c.stage.Confirming? || c.stage.Unlocking?
    ensures var (dir', c') := Step(codec, dir, id, c, x);
            OnCourse(codec, dir0, dir', c', n + 1, newName)
  {
    hide Values, ValidateOp, Matches, LoadRecord, CheckCurrent;
  }

  lemma CourseStep(codec: Codec, dir0: Dir, dir: Dir, id: nat, c: Caller, x: Choice, n: nat, newName: bool)
    requires CanStep(dir, c, x) && !x.fault && OnCourse(codec, dir0, dir, c, n, newName)
    requires CallerOk(codec, dir.files, c) && FilesOk(codec, dir.files)
    requires n == 3 ==> newName == (TempName(c.op, x) !in dir0.files)
    ensures var (dir', c') := Step(codec, dir, id, c, x);
            OnCourse(codec, dir0, dir', c', n + 1, newName)
  {
    hide Step, CallerOk, FilesOk, Due, Values, ValidateOp, Matches, SameTemps, TempName;
    match c.stage
    case Validating => EarlyCourse(codec, dir0, dir, id, c, x, n, newName);
    case Locking => EarlyCourse(codec, dir0, dir, id, c, x, n, newName);
    case Checking => EarlyCourse(codec, dir0, dir, id, c, x, n, newName);
    case Creating => MiddleCourse(codec, dir0, dir, id, c, x, n, newName);
    case Writing(_, _) => MiddleCourse(codec, dir0, dir, id, c, x, n, newName);
    case Publishing(_) => MiddleCourse(codec, dir0, dir, id, c, x, n, newName);
    case _ => LateCourse(codec, dir0, dir, id, c, x, n, newName);
  }

  /**
   An undisturbed call in which no operation fails gets the answer that is due: success
   exactly when the update is accepted, the register holds what the call expects, the
   record fits and its temporary name is new; otherwise the name of what stood against it.
   It leaves no temporary file behind.
   */
  lemma {:induction false} SoloAnswer(codec: Codec, id: nat, dir: Dir, op: Op, choices: seq<Choice>, newName: bool)
    requires Lossless(codec) && FilesOk(codec, dir.files)
    requires Replay(codec, id, dir, Caller(op, Validating, Waiting), choices).Some?
    requires forall i | 0 <= i < |choices| :: !choices[i].fault
    requires |choices| > 3 ==> newName == (TempName(op, choices[3]) !in dir.files)
    ensures var (dir', c) := Replay(codec, id, dir, Caller(op, Validating, Waiting), choices).value;
            && c.op == op && OnCourse(codec, dir, dir', c, |choices|, newName)
            && (c.stage.Returned? ==>
                  c.stage.result == Due(codec, Values(codec, dir.files), op, newName) && SameTemps(dir.files, dir'.files))
    decreases |choices|
  {
    hide Step, Values, CanStep, FilesOk, SoloEffect, CallerOk, TempName, Due, ValidateOp;
    if |choices| > 0 {
      var last := |choices| - 1;
      SoloCall(codec, id, dir, op, choices[..last]);
      SoloAnswer(codec, id, dir, op, choices[..last], newName);
      var (d, c) := Replay(codec, id, dir, Caller(op, Validating, Waiting), choices[..last]).value;
      CourseStep(codec, dir, d, id, c, choices[last], last, newName);
      SameOp(codec, d, id, c, choices[last]);
    }
  }

  // ----- The store object

  class FileStore {
    const codec: Codec
    const me: nat
    const faults: nat -> bool
    const chunks: nat -> nat
    const pids: nat -> nat
    const nonces: nat -> nat

    var dir: Dir
    var steps: nat

    ghost var origin: Dir
    ghost var begun: nat
    ghost var op: Op
    ghost var choices: seq<Choice>
    ghost var caller: Caller

    constructor (codec: Codec, me: nat, dir: Dir, faults: nat -> bool, chunks: nat -> nat,
                 pids: nat -> nat, nonces: nat -> nat, ghost op: Op)
      ensures Following() && this.dir == dir && this.codec == codec && this.op == op
    {
      this.codec, this.me, this.dir := codec, me, dir;
      this.faults, this.chunks, this.pids, this.nonces := faults, chunks, pids, nonces;
      this.steps := 0;
      this.origin, this.begun, this.op, this.choices, this.caller := dir, 0, op, [], Caller(op, Validating, Waiting);
    }

    /** The file operations since `origin` are the steps of the call `op`, which now is `caller`. */
    ghost predicate Following()
      reads this
    {
      && Replay(codec, me, origin, Caller(op, Validating, Waiting), choices) == Some((dir, caller))
      && steps == begun + |choices|
      && forall i | 0 <= i < |choices| :: choices[i] == ChoiceAt(begun + i)
    }

    /** What the outside world decides about step `i`. */
    function ChoiceAt(i: nat): Choice {
      Choice(faults(i), chunks(i), pids(i), nonces(i))
    }

    function Now(): Choice
      reads this
    {
      ChoiceAt(steps)
    }

    /** No file operation fails from step `i` on. */
    ghost predicate FaultFree(i: nat) {
      forall j: nat | j >= i :: !faults(j)
    }

    /** The temporary name that a call beginning at step `i` would create is not in use. */
    predicate NameIsFresh(files: map<FileName, Bytes>, op: Op, i: nat) {
      TempName(op, ChoiceAt(i + 3)) !in files
    }

    lemma AnswerIsDue()
      requires Lossless(codec) && FilesOk(codec, origin.files)
      requires Following() && caller.stage.Returned? && FaultFree(begun)
      ensures caller.stage.result == Due(codec, Values(codec, origin.files), op, NameIsFresh(origin.files, op, begun))
      ensures SameTemps(origin.files, dir.files)
    {
      hide Values, Replay, Due, FilesOk, OnCourse, SameTemps, TempName;
      SoloAnswer(codec, me, origin, op, choices, NameIsFresh(origin.files, op, begun));
    }

    /** Starts a new call on the directory as it is. */
    method Begin(ghost op: Op)
      modifies this`origin, this`begun, this`op, this`choices, this`caller
      ensures Following() && origin == dir && begun == steps && this.op == op && caller == Caller(op, Validating, Waiting)
    {
      this.origin, this.begun, this.op, this.choices, this.caller := dir, steps, op, [], Caller(op, Validating, Waiting);
    }

    /** The directory becomes `next`, which must be what the call's next step makes of it. */
    method Commit(next: Dir)
      requires Following() && CanStep(dir, caller, Now())
      requires next == Step(codec, dir, me, caller, Now()).0
      modifies this`dir, this`steps, this`choices, this`caller
      ensures Following() && dir == next && steps == old(steps) + 1
      ensures caller == old(Step(codec, dir, me, caller, Now()).1)
    {
      hide Step, CanStep, Replay;
      ReplayExtends(codec, me, origin, Caller(op, Validating, Waiting), choices, Now());
      choices := choices + [Now()];
      caller := Step(codec, dir, me, caller, Now()).1;
      dir := next;
      steps := steps + 1;
    }

    /** Replaces the durable record if it still is `expected`. */
    method ReplaceRecord(expected: Record, next: Record) returns (result: Result<(), StoreError>)
      requires Lossless(codec) && FilesOk(codec, dir.files) && expected.workloadId !in dir.locks
      modifies this
      ensures Following() && op == Replace(expected, next) && origin == old(dir)
      ensures caller.stage == Returned(result)
      ensures FilesOk(codec, dir.files)
      ensures result.Ok? ==>
                && Matches(old(Values(codec, dir.files)), Replace(expected, next))
                && Values(codec, dir.files) == old(Values(codec, dir.files))[expected.workloadId := next]
      ensures result.Err? ==>
                || Values(codec, dir.files) == old(Values(codec, dir.files))
                || Values(codec, dir.files) == old(Values(codec, dir.files))[expected.workloadId := next]
      ensures result == Err(UnexpectedCurrent) ==>
                && Values(codec, dir.files) == old(Values(codec, dir.files))
                && !Matches(Values(codec, dir.files), Replace(expected, next))
      ensures FaultFree(old(steps)) ==>
                result == Due(codec, old(Values(codec, dir.files)), Replace(expected, next),
                              NameIsFresh(old(dir.files), Replace(expected, next), old(steps)))
                && SameTemps(old(dir.files), dir.files)
    {
      hide Values, Replay, Due, FilesOk, Matches, SameTemps, NameIsFresh;
      Begin(Replace(expected, next));
      result := Call(Replace(expected, next));
      SoloEnd(codec, me, origin, op, choices, dir, caller);
      MatchesMeans(Values(codec, origin.files), op);
      if FaultFree(begun) {
        AnswerIsDue();
      }
    }

    /** Creates the first record of a workload. */
    method InitializeRecord(record: Record) returns (result: Result<(), StoreError>)
      requires Lossless(codec) && FilesOk(codec, dir.files) && record.workloadId !in dir.locks
      modifies this
      ensures Following() && op == Initialize(record) && origin == old(dir)
      ensures caller.stage == Returned(result)
      ensures FilesOk(codec, dir.files)
      ensures result.Ok? ==>
                && record.workloadId !in old(Values(codec, dir.files))
                && Values(codec, dir.files) == old(Values(codec, dir.files))[record.workloadId := record]
      ensures result == Err(AlreadyInitialized) ==>
                && record.workloadId in Values(codec, dir.files)
                && Values(codec, dir.files) == old(Values(codec, dir.files))
      ensures FaultFree(old(steps)) ==>
                result == Due(codec, old(Values(codec, dir.files)), Initialize(record),
                              NameIsFresh(old(dir.files), Initialize(record), old(steps)))
                && SameTemps(old(dir.files), dir.files)
    {
      hide Values, Replay, Due, FilesOk, Matches, SameTemps, NameIsFresh;
      Begin(Initialize(record));
      result := Call(Initialize(record));
      SoloEnd(codec, me, origin, op, choices, dir, caller);
      MatchesMeans(Values(codec, origin.files), op);
      if FaultFree(begun) {
        AnswerIsDue();
      }
    }

    /** Looks at the canonical file, then reads it; takes no lock and changes nothing. */
    method LoadCanonical(workload: string) returns (result: Result<Record, StoreError>)
      requires FilesOk(codec, dir.files)
      modifies this`steps
      ensures MayLoad(Values(codec, dir.files), workload, result)
      ensures !faults(old(steps)) && !faults(old(steps) + 1) ==> result == Held(Values(codec, dir.files), workload)
    {
      hide LoadStep, Values, MayLoad;
      var l := Loader(workload, Looking);
      LoadAnswers(codec, dir.files, l, faults(steps));
      l := LoadStep(codec, dir.files, l, faults(steps));
      steps := steps + 1;
      if !l.stage.Answered? {
        LoadAnswers(codec, dir.files, l, faults(steps));
        l := LoadStep(codec, dir.files, l, faults(steps));
        steps := steps + 1;
      }
      result := l.stage.result;
    }

    /** The body both calls share: validate, then work under the workload's lock. */
    method Call(op: Op) returns (result: Result<(), StoreError>)
      requires Following() && this.op == op && caller == Caller(op, Validating, Waiting)
      requires op.Workload() !in dir.locks
      modifies this`dir, this`steps, this`choices, this`caller
      ensures Following() && caller.op == op && caller.stage == Returned(result)
    {
      var refusal := ValidateOp(op);
      Commit(dir);
      if refusal.Some? {
        return Err(refusal.value);
      }
      var w := op.Workload();
      var fault := Now().fault;
      Commit(if fault then dir else RecordStores.Locked(dir, w, me));
      if fault {
        return Err(Io);
      }
      result := Locked(op);
      Commit(dir.(locks := dir.locks - {w}));
    }

    /** The critical section. */
    method Locked(op: Op) returns (result: Result<(), StoreError>)
      requires Following() && caller == Caller(op, Checking, Waiting)
      modifies this`dir, this`steps, this`choices, this`caller
      ensures Following() && caller.op == op && caller.stage == Unlocking(result)
    {
      var fault, refusal := Now().fault, CheckCurrent(codec, dir.files, op);
      Commit(dir);
      if fault {
        return Err(Io);
      }
      if refusal.Some? {
        return Err(refusal.value);
      }
      var bytes := codec.encode(op.Wanted());
      if |bytes| > MAX_RECORD_BYTES {
        return Err(RecordTooLarge);
      }
      var name, failure := WriteTemporary(op, bytes);
      if failure.Some? {
        return Err(failure.value);
      }
      failure := Publish(op, name);
      if failure.Some? {
        return Err(failure.value);
      }
      result := Confirm(op);
    }

    /** Creates the temporary file and writes it chunk by chunk. */
    method WriteTemporary(op: Op, bytes: Bytes) returns (name: FileName, failure: Option<StoreError>)
      requires Following() && caller == Caller(op, Creating, Waiting) && bytes == codec.encode(op.Wanted())
      modifies this`dir, this`steps, this`choices, this`caller
      ensures Following() && caller.op == op && caller.phase.Waiting?
      ensures caller.stage == if failure.Some? then Unlocking(Err(failure.value)) else Publishing(name)
    {
      var now := Now();
      name := TempFile(op.Workload(), op.Wanted().revision, now.pid, now.nonce);
      var refused := now.fault || name in dir.files;
      Commit(if refused then dir else dir.(files := dir.files[name := []]));
      if refused {
        return name, Some(Io);
      }
      var written := 0;
      while written < |bytes|
        invariant Following() && caller == Caller(op, Writing(name, written), Waiting) && written <= |bytes|
        decreases |bytes| - written
      {
        now := Now();
        if now.fault {
          Commit(dir);
          return name, Some(Io);
        }
        var n := Advance(written, now.chunk, |bytes|);
        Commit(if name in dir.files then dir.(files := dir.files[name := bytes[..n]]) else dir);
        written := n;
      }
      now := Now();
      Commit(dir);
      failure := if now.fault then Some(Io) else None;
    }

    /** Renames or links the temporary file into place. */
    method Publish(op: Op, name: FileName) returns (failure: Option<StoreError>)
      requires Following() && caller == Caller(op, Publishing(name), Waiting)
      modifies this`dir, this`steps, this`choices, this`caller
      ensures Following() && caller.op == op
      ensures caller.stage == if failure.Some? then Unlocking(Err(failure.value)) else Syncing
    {
      var w, missing := op.Workload(), Now().fault || name !in dir.files;
      if !missing && op.Replace? {
        Commit(dir.(files := (dir.files - {name})[RecordFile(w) := dir.files[name]]));
        return None;
      }
      var taken := !missing && RecordFile(w) in dir.files;
      Commit(if missing || taken then dir else dir.(files := dir.files[RecordFile(w) := dir.files[name]]));
      var unremoved := Now().fault || name !in dir.files;
      Commit(if unremoved then dir else dir.(files := dir.files - {name}));
      if unremoved {
        return Some(Io);
      }
      failure := if missing then Some(Io) else if taken then Some(AlreadyInitialized) else None;
    }

    /** Syncs the directory and re-reads the published record. */
    method Confirm(op: Op) returns (result: Result<(), StoreError>)
      requires Following() && caller.op == op && caller.stage == Syncing
      modifies this`dir, this`steps, this`choices, this`caller
      ensures Following() && caller.op == op && caller.stage == Unlocking(result)
    {
      var fault := Now().fault;
      Commit(dir);
      if fault {
        return Err(Io);
      }
      fault := Now().fault;
      var published := LoadRecord(codec, dir.files, op.Workload());
      Commit(dir);
      if fault {
        return Err(Io);
      }
      result := if published.Err? then Err(published.error)
                else if published.value != op.Wanted() then Err(BadRecord)
                else Ok(());
    }

    /**
     The sweep that opening the store performs: removes temporary files one by one until
     all are gone or a removal fails, and never touches any other file.
     */
    method RecoverTemporaryFiles() returns (ok: bool)
      modifies this`dir, this`steps
      ensures dir.locks == old(dir.locks)
      ensures forall name | name in old(dir.files) && !name.TempFile? ::
                name in dir.files && dir.files[name] == old(dir.files)[name]
      ensures forall name | name in dir.files :: name in old(dir.files)
      ensures ok <==> forall name | name in dir.files :: !name.TempFile?
      ensures FaultFree(old(steps)) ==> ok
    {
      var entries := dir.files.Keys;
      ok := true;
      while entries != {}
        invariant dir.locks == old(dir.locks) && steps >= old(steps)
        invariant forall name | name in old(dir.files) && !name.TempFile? ::
                    name in dir.files && dir.files[name] == old(dir.files)[name]
        invariant forall name | name in dir.files :: name in old(dir.files)
        invariant forall name | name in dir.files && name !in entries :: !name.TempFile?
        decreases |entries|
      {
        var name :| name in entries;
        entries := entries - {name};
        if name.TempFile? && name in dir.files {
          var fault := faults(steps);
          steps := steps + 1;
          if fault {
            return false;
          }
          dir := dir.(files := dir.files - {name});
        }
      }
    }
  }
}
