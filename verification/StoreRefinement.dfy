/**
 The file-level store refines an atomic compare-and-set register, and the canonical
 file of every workload always holds one complete, valid record.
 */
module StoreRefinements {
  import opened Outcomes
  import opened LifecycleRecords
  import opened RecordStores

  // ----- Invariant

  /** Every canonical file holds one complete, valid record of its own workload. */
  ghost predicate FilesOk(codec: Codec, files: map<FileName, Bytes>) {
    forall w | RecordFile(w) in files :: LoadRecord(codec, files, w).Ok?
  }

  predicate IsTempOf(name: FileName, w: string) {
    name.TempFile? && name.workload == w
  }

  /** The temporary file, unless it was swept, holds exactly what was written so far. */
  predicate Holds(files: map<FileName, Bytes>, name: FileName, bytes: Bytes) {
    name in files ==> files[name] == bytes
  }

  ghost predicate Preparing(codec: Codec, files: map<FileName, Bytes>, c: Caller) {
    && c.phase.Waiting?
    && ValidateOp(c.op).None?
    && |codec.encode(c.op.Wanted())| <= MAX_RECORD_BYTES
    && CheckCurrent(codec, files, c.op).None?
  }

  ghost predicate Published(codec: Codec, files: map<FileName, Bytes>, c: Caller) {
    && c.phase.Effective?
    && LoadRecord(codec, files, c.op.Workload()) == Ok(c.op.Wanted())
  }

  ghost predicate CallerOk(codec: Codec, files: map<FileName, Bytes>, c: Caller) {
    var w, bytes := c.op.Workload(), codec.encode(c.op.Wanted());
    match c.stage
    case Validating => c.phase.Waiting?
    case Locking | Checking => c.phase.Waiting? && ValidateOp(c.op).None?
    case Creating => Preparing(codec, files, c)
    case Writing(name, written) =>
      && Preparing(codec, files, c) && IsTempOf(name, w)
      && written <= |bytes| && Holds(files, name, bytes[..written])
    case Publishing(name) => Preparing(codec, files, c) && IsTempOf(name, w) && Holds(files, name, bytes)
    case Undoing(name, error) => Preparing(codec, files, c) && IsTempOf(name, w) && error.Io?
    case Tidying(name) => Published(codec, files, c) && IsTempOf(name, w)
    case Syncing | Confirming => Published(codec, files, c)
    case Unlocking(result) => MayAnswer(c.phase, result)
    case Returned(result) => MayAnswer(c.phase, result)
  }

  /** A load that has seen the file will still find it. */
  predicate LoaderOk(files: map<FileName, Bytes>, l: Loader) {
    l.stage.Reading? ==> ValidIdentity(l.workload) && RecordFile(l.workload) in files
  }

  ghost predicate StoreInv(codec: Codec, s: Store) {
    && FilesOk(codec, s.dir.files)
    && (forall id | id in s.callers :: CallerOk(codec, s.dir.files, s.callers[id]))
    && (forall id | id in s.callers && HoldsLock(s.callers[id].stage) ::
          var w := s.callers[id].op.Workload(); w in s.dir.locks && s.dir.locks[w] == id)
    && (forall id | id in s.loaders :: LoaderOk(s.dir.files, s.loaders[id]))
  }

  // ----- Frames

  /** Two directories agree on the files of every workload but `w`. */
  ghost predicate SameExcept(files: map<FileName, Bytes>, files': map<FileName, Bytes>, w: string) {
    forall name: FileName | name.workload != w ::
      && (name in files <==> name in files')
      && (name in files ==> files[name] == files'[name])
  }

  /** Two directories agree on every canonical file, and one may lack temporary files of the other. */
  ghost predicate SameRecords(files: map<FileName, Bytes>, files': map<FileName, Bytes>) {
    forall w ::
      && (RecordFile(w) in files <==> RecordFile(w) in files')
      && (RecordFile(w) in files ==> files[RecordFile(w)] == files'[RecordFile(w)])
  }

  lemma CallerFrame(codec: Codec, files: map<FileName, Bytes>, files': map<FileName, Bytes>, w: string, c: Caller)
    requires SameExcept(files, files', w) && c.op.Workload() != w
    requires CallerOk(codec, files, c)
    ensures CallerOk(codec, files', c)
  {
    hide Validate, ValidateUpdate, ValidIdentity;
    var name := RecordFile(c.op.Workload());
    assert name in files <==> name in files';
  }

  /** A caller without the lock relies on nothing in the directory. */
  lemma UnlockedFrame(codec: Codec, files: map<FileName, Bytes>, files': map<FileName, Bytes>, c: Caller)
    requires !HoldsLock(c.stage) && CallerOk(codec, files, c)
    ensures CallerOk(codec, files', c)
  {
  }

  // ----- What one step keeps

  /** The facts a valid operation gives about the record it wants. */
  lemma WantedFacts(op: Op)
    requires ValidateOp(op).None?
    ensures op.Wanted().workloadId == op.Workload()
    ensures ValidateRecord(op.Wanted()).None? && ValidIdentity(op.Workload())
  {
    hide ValidIdentity;
    if op.Replace? {
      AcceptsIffPrecedes(op.expected, op.next);
    }
  }

  /** A canonical file that holds an encoded valid record loads as that record. */
  lemma EncodedLoads(codec: Codec, files: map<FileName, Bytes>, r: Record)
    requires Lossless(codec)
    requires RecordFile(r.workloadId) in files && files[RecordFile(r.workloadId)] == codec.encode(r)
    requires |codec.encode(r)| <= MAX_RECORD_BYTES
    requires ValidateRecord(r).None? && ValidIdentity(r.workloadId)
    ensures LoadRecord(codec, files, r.workloadId) == Ok(r)
  {
    hide ValidateRecord, ValidIdentity;
    assert codec.decode(codec.encode(r)) == Some(r);
  }

  /** A load finds exactly a complete, valid, bounded record of the workload it names. */
  lemma LoadRecordIff(codec: Codec, files: map<FileName, Bytes>, w: string, r: Record)
    ensures LoadRecord(codec, files, w) == Ok(r) <==>
            && ValidIdentity(w) && RecordFile(w) in files && |files[RecordFile(w)]| <= 65536
            && codec.decode(files[RecordFile(w)]) == Some(r) && Valid(r) && r.workloadId == w
    ensures LoadRecord(codec, files, w) == Err(MissingRecord) <==> ValidIdentity(w) && RecordFile(w) !in files
  {
    hide Validate, ValidIdentity;
    if RecordFile(w) in files && codec.decode(files[RecordFile(w)]).Some? {
      ValidIff(codec.decode(files[RecordFile(w)]).value);
    }
  }

  lemma RecordsLoadAlike(codec: Codec, files: map<FileName, Bytes>, files': map<FileName, Bytes>, w: string)
    requires RecordFile(w) in files <==> RecordFile(w) in files'
    requires RecordFile(w) in files ==> files[RecordFile(w)] == files'[RecordFile(w)]
    ensures LoadRecord(codec, files, w) == LoadRecord(codec, files', w)
  {
    hide ValidateRecord, ValidIdentity;
  }

  lemma RecordsStay(files: map<FileName, Bytes>, files': map<FileName, Bytes>)
    requires SameRecords(files, files')
    ensures forall w | RecordFile(w) in files :: RecordFile(w) in files'
  {
  }

  lemma FilesOkAlike(codec: Codec, files: map<FileName, Bytes>, files': map<FileName, Bytes>)
    requires FilesOk(codec, files) && SameRecords(files, files')
    ensures FilesOk(codec, files')
  {
    hide LoadRecord;
    forall w | RecordFile(w) in files'
      ensures LoadRecord(codec, files', w).Ok?
    {
      assert RecordFile(w) in files;
      RecordsLoadAlike(codec, files, files', w);
    }
  }

  /** A step that is not a publication leaves all canonical files as they are. */
  predicate Publishes(dir: Dir, c: Caller, choice: Choice) {
    && c.stage.Publishing? && !choice.fault && c.stage.name in dir.files
    && (c.op.Replace? || RecordFile(c.op.Workload()) !in dir.files)
  }

  lemma QuietStepFiles(codec: Codec, dir: Dir, id: nat, c: Caller, choice: Choice)
    requires CanStep(dir, c, choice) && !Publishes(dir, c, choice) && CallerOk(codec, dir.files, c)
    ensures var files' := Step(codec, dir, id, c, choice).0.files;
            SameRecords(dir.files, files') && SameExcept(dir.files, files', c.op.Workload())
  {
    hide LoadRecord, ValidateOp, CheckCurrent, MayAnswer;
  }

  lemma PublishFiles(codec: Codec, dir: Dir, id: nat, c: Caller, choice: Choice)
    requires CanStep(dir, c, choice) && Publishes(dir, c, choice) && CallerOk(codec, dir.files, c)
    ensures var files' := Step(codec, dir, id, c, choice).0.files;
            var w := c.op.Workload();
            && RecordFile(w) in files' && files'[RecordFile(w)] == codec.encode(c.op.Wanted())
            && SameExcept(dir.files, files', w)
  {
    hide LoadRecord, ValidateOp, CheckCurrent, MayAnswer;
  }

  lemma PublishStep(codec: Codec, dir: Dir, id: nat, c: Caller, choice: Choice)
    requires Lossless(codec)
    requires CanStep(dir, c, choice) && Publishes(dir, c, choice) && CallerOk(codec, dir.files, c)
    requires FilesOk(codec, dir.files)
    ensures var (dir', c') := Step(codec, dir, id, c, choice);
            && FilesOk(codec, dir'.files) && CallerOk(codec, dir'.files, c')
            && LoadRecord(codec, dir'.files, c.op.Workload()) == Ok(c.op.Wanted())
  {
    hide LoadRecord, ValidateOp, CheckCurrent, MayAnswer, SameExcept;
    var (dir', c') := Step(codec, dir, id, c, choice);
    PublishFiles(codec, dir, id, c, choice);
    WantedFacts(c.op);
    EncodedLoads(codec, dir'.files, c.op.Wanted());
    forall w | RecordFile(w) in dir'.files
      ensures LoadRecord(codec, dir'.files, w).Ok?
    {
      if w != c.op.Workload() {
        OtherRecord(dir.files, dir'.files, c.op.Workload(), w);
        RecordsLoadAlike(codec, dir.files, dir'.files, w);
      }
    }
  }

  lemma OtherRecord(files: map<FileName, Bytes>, files': map<FileName, Bytes>, w: string, other: string)
    requires SameExcept(files, files', w) && other != w
    ensures RecordFile(other) in files <==> RecordFile(other) in files'
    ensures RecordFile(other) in files ==> files[RecordFile(other)] == files'[RecordFile(other)]
  {
    assert RecordFile(other).workload != w;
  }

  /** A valid expectation that is met is what the canonical file holds. */
  lemma CheckingStep(codec: Codec, dir: Dir, id: nat, c: Caller, choice: Choice)
    requires CanStep(dir, c, choice) && c.stage.Checking? && CallerOk(codec, dir.files, c)
    requires FilesOk(codec, dir.files)
    ensures var (dir', c') := Step(codec, dir, id, c, choice);
            dir' == dir && CallerOk(codec, dir'.files, c')
  {
    hide Validate, ValidateUpdate, ValidIdentity;
    WantedFacts(c.op);
  }

  lemma ConfirmingStep(codec: Codec, dir: Dir, id: nat, c: Caller, choice: Choice)
    requires CanStep(dir, c, choice) && c.stage.Confirming? && CallerOk(codec, dir.files, c)
    ensures var (dir', c') := Step(codec, dir, id, c, choice);
            dir' == dir && CallerOk(codec, dir'.files, c')
  {
    hide LoadRecord, ValidateOp, CheckCurrent;
  }

  lemma QuietStep(codec: Codec, dir: Dir, id: nat, c: Caller, choice: Choice)
    requires CanStep(dir, c, choice) && !Publishes(dir, c, choice) && CallerOk(codec, dir.files, c)
    requires FilesOk(codec, dir.files)
    requires !c.stage.Checking? && !c.stage.Confirming?
    ensures var (dir', c') := Step(codec, dir, id, c, choice);
            CallerOk(codec, dir'.files, c')
  {
    hide ValidateOp;
    QuietStepFiles(codec, dir, id, c, choice);
    var (dir', c') := Step(codec, dir, id, c, choice);
    QuietChecks(codec, dir.files, dir'.files, c.op);
    hide LoadRecord, CheckCurrent, MayAnswer;
    if c.stage.Writing? && !choice.fault && c.stage.written == |codec.encode(c.op.Wanted())| {
      var bytes := codec.encode(c.op.Wanted());
      assert bytes[..|bytes|] == bytes;
    }
    if c.stage.Validating? {
      ValidationAnswers(c.op);
    }
  }

  lemma QuietChecks(codec: Codec, files: map<FileName, Bytes>, files': map<FileName, Bytes>, op: Op)
    requires SameRecords(files, files')
    ensures CheckCurrent(codec, files, op) == CheckCurrent(codec, files', op)
    ensures LoadRecord(codec, files, op.Workload()) == LoadRecord(codec, files', op.Workload())
  {
    hide ValidateRecord, ValidIdentity;
    RecordsLoadAlike(codec, files, files', op.Workload());
  }

  lemma ValidationAnswers(op: Op)
    ensures ValidateOp(op).Some? ==> MayAnswer(Waiting, Err(ValidateOp(op).value))
  {
  }

  lemma CallerStep(codec: Codec, dir: Dir, id: nat, c: Caller, choice: Choice)
    requires Lossless(codec)
    requires CanStep(dir, c, choice) && CallerOk(codec, dir.files, c) && FilesOk(codec, dir.files)
    ensures var (dir', c') := Step(codec, dir, id, c, choice);
            && FilesOk(codec, dir'.files) && CallerOk(codec, dir'.files, c')
            && SameExcept(dir.files, dir'.files, c.op.Workload())
            && forall w | RecordFile(w) in dir.files :: RecordFile(w) in dir'.files
  {
    hide CallerOk, Step, FilesOk, SameExcept, SameRecords;
    if Publishes(dir, c, choice) {
      PublishFiles(codec, dir, id, c, choice);
      PublishStep(codec, dir, id, c, choice);
      forall w | RecordFile(w) in dir.files
        ensures RecordFile(w) in Step(codec, dir, id, c, choice).0.files
      {
        if w != c.op.Workload() {
          OtherRecord(dir.files, Step(codec, dir, id, c, choice).0.files, c.op.Workload(), w);
        }
      }
    } else {
      QuietStepFiles(codec, dir, id, c, choice);
      RecordsStay(dir.files, Step(codec, dir, id, c, choice).0.files);
      FilesOkAlike(codec, dir.files, Step(codec, dir, id, c, choice).0.files);
      if c.stage.Checking? {
        CheckingStep(codec, dir, id, c, choice);
      } else if c.stage.Confirming? {
        ConfirmingStep(codec, dir, id, c, choice);
      } else {
        QuietStep(codec, dir, id, c, choice);
      }
    }
  }

  /** What a step does to locks and to the operation it serves. */
  lemma LockStep(codec: Codec, dir: Dir, id: nat, c: Caller, choice: Choice)
    requires CanStep(dir, c, choice)
    requires HoldsLock(c.stage) ==> c.op.Workload() in dir.locks && dir.locks[c.op.Workload()] == id
    ensures var (dir', c') := Step(codec, dir, id, c, choice);
            var w := c.op.Workload();
            && c'.op == c.op
            && (HoldsLock(c'.stage) ==> w in dir'.locks && dir'.locks[w] == id)
            && (forall other | other in dir.locks && other != w ::
                  other in dir'.locks && dir'.locks[other] == dir.locks[other])
            && (w in dir.locks && dir.locks[w] != id ==> w in dir'.locks && dir'.locks[w] == dir.locks[w])
            && (!HoldsLock(c.stage) && w in dir.locks ==> dir' == dir)
  {
    hide LoadRecord, ValidateOp, CheckCurrent;
  }

  // ----- What every event keeps

  lemma ActKeepsInv(codec: Codec, s: Store, e: Event)
    requires Lossless(codec) && StoreInv(codec, s) && Enabled(s, e) && e.Act?
    ensures StoreInv(codec, After(codec, s, e))
  {
    hide CallerOk, Step, FilesOk, SameExcept;
    var c := s.callers[e.id];
    var (dir', c') := Step(codec, s.dir, e.id, c, e.choice);
    CallerStep(codec, s.dir, e.id, c, e.choice);
    LockStep(codec, s.dir, e.id, c, e.choice);
    var s' := After(codec, s, e);
    forall id | id in s'.callers
      ensures CallerOk(codec, s'.dir.files, s'.callers[id])
    {
      if id != e.id {
        var other := s.callers[id];
        if !HoldsLock(other.stage) {
          UnlockedFrame(codec, s.dir.files, dir'.files, other);
        } else if other.op.Workload() != c.op.Workload() {
          CallerFrame(codec, s.dir.files, dir'.files, c.op.Workload(), other);
        }
      }
    }
  }

  lemma SweepKeepsInv(codec: Codec, s: Store, e: Event)
    requires StoreInv(codec, s) && Enabled(s, e) && e.Sweep?
    ensures StoreInv(codec, After(codec, s, e))
  {
    hide LoadRecord, ValidateOp, CheckCurrent, MayAnswer;
    var s' := After(codec, s, e);
    FilesOkAlike(codec, s.dir.files, s'.dir.files);
    forall id | id in s'.callers
      ensures CallerOk(codec, s'.dir.files, s'.callers[id])
    {
      QuietChecks(codec, s.dir.files, s'.dir.files, s.callers[id].op);
    }
  }

  lemma EventKeepsInv(codec: Codec, s: Store, e: Event)
    requires Lossless(codec) && StoreInv(codec, s) && Enabled(s, e)
    ensures StoreInv(codec, After(codec, s, e))
  {
    hide LoadRecord, ValidateOp, CheckCurrent, MayAnswer, Step;
    match e
    case Act(_, _) => ActKeepsInv(codec, s, e);
    case Sweep(_) => SweepKeepsInv(codec, s, e);
    case Invoke(_, _) =>
    case Crash(_) =>
    case InvokeLoad(_, _) =>
    case ActLoad(_, _) =>
    case CrashLoad(_) =>
  }

  // ----- Refinement

  lemma ValuesLookup(codec: Codec, files: map<FileName, Bytes>, w: string)
    ensures w in Values(codec, files) <==> RecordFile(w) in files && LoadRecord(codec, files, w).Ok?
    ensures w in Values(codec, files) ==> Values(codec, files)[w] == LoadRecord(codec, files, w).value
  {
    hide LoadRecord;
    assert RecordFile(w).workload == w;
  }

  lemma ValuesAlike(codec: Codec, files: map<FileName, Bytes>, files': map<FileName, Bytes>)
    requires SameRecords(files, files')
    ensures Values(codec, files) == Values(codec, files')
  {
    hide LoadRecord, Values;
    forall w
      ensures w in Values(codec, files) <==> w in Values(codec, files')
      ensures w in Values(codec, files) ==> Values(codec, files)[w] == Values(codec, files')[w]
    {
      ValuesLookup(codec, files, w);
      ValuesLookup(codec, files', w);
      RecordsLoadAlike(codec, files, files', w);
    }
  }

  lemma ValuesUpdate(codec: Codec, files: map<FileName, Bytes>, files': map<FileName, Bytes>, w: string, r: Record)
    requires SameExcept(files, files', w) && LoadRecord(codec, files', w) == Ok(r) && RecordFile(w) in files'
    ensures Values(codec, files') == Values(codec, files)[w := r]
  {
    hide LoadRecord, Values, SameExcept;
    forall v
      ensures v in Values(codec, files') <==> v in Values(codec, files)[w := r]
      ensures v in Values(codec, files') ==> Values(codec, files')[v] == Values(codec, files)[w := r][v]
    {
      ValuesLookup(codec, files, v);
      ValuesLookup(codec, files', v);
      if v != w {
        OtherRecord(files, files', w, v);
        RecordsLoadAlike(codec, files, files', v);
      }
    }
  }

  /** The locked check decides exactly whether the register matches the call's expectation. */
  lemma CheckDecidesMatch(codec: Codec, files: map<FileName, Bytes>, op: Op)
    requires FilesOk(codec, files) && ValidateOp(op).None?
    ensures CheckCurrent(codec, files, op).None? <==> Matches(Values(codec, files), op)
    ensures CheckCurrent(codec, files, op).Some? ==> IsRefusal(CheckCurrent(codec, files, op).value)
  {
    hide Values, Validate, ValidateUpdate, ValidIdentity;
    WantedFacts(op);
    ValuesLookup(codec, files, op.Workload());
  }

  lemma PhaseStep(codec: Codec, dir: Dir, id: nat, c: Caller, choice: Choice)
    requires CanStep(dir, c, choice) && CallerOk(codec, dir.files, c) && FilesOk(codec, dir.files)
    ensures var c' := Step(codec, dir, id, c, choice).1;
            && (c'.stage.Returned? ==> c'.phase == c.phase && !Publishes(dir, c, choice))
            && (c'.phase != c.phase ==> c.phase.Waiting?)
            && (c'.phase.Effective? && c.phase.Waiting? <==> Publishes(dir, c, choice))
            && (c'.phase.Refused? && c.phase.Waiting? ==>
                  && c.stage.Checking? && ValidateOp(c.op).None?
                  && CheckCurrent(codec, dir.files, c.op).Some?)
            && (Publishes(dir, c, choice) ==> ValidateOp(c.op).None? && CheckCurrent(codec, dir.files, c.op).None?)
  {
    hide LoadRecord, ValidateOp, MayAnswer;
  }

  /** What it means for one store event to be the register event `EventOf` names. */
  ghost predicate Refines(codec: Codec, s: Store, e: Event)
    requires Enabled(s, e)
  {
    var r, r' := Abstract(codec, s), Abstract(codec, After(codec, s, e));
    match EventOf(codec, s, e)
    case None => r' == r
    case Some(x) => RegisterMay(r, x) && r' == RegisterAfter(r, x)
  }

  /** What one step of a caller does to the register's calls and loads. */
  lemma ActAbstracts(codec: Codec, s: Store, e: Event)
    requires Enabled(s, e) && e.Act?
    ensures var (dir', c') := Step(codec, s.dir, e.id, s.callers[e.id], e.choice);
            var r := Abstract(codec, s);
            && Abstract(codec, After(codec, s, e)) == Register(Values(codec, dir'.files), r.calls[e.id := CallOf(c')], r.loads)
            && e.id in r.calls && r.calls[e.id] == CallOf(s.callers[e.id]) && r.values == Values(codec, s.dir.files)
  {
    hide Step, Values;
  }

  lemma PublishRefines(codec: Codec, s: Store, e: Event)
    requires Lossless(codec) && StoreInv(codec, s) && Enabled(s, e) && e.Act?
    requires Publishes(s.dir, s.callers[e.id], e.choice)
    ensures Refines(codec, s, e)
  {
    hide CallerOk, Step, FilesOk, SameExcept, Values, ValidateOp, CheckCurrent, Matches, MayAnswer, Abstract, After;
    ActAbstracts(codec, s, e);
    var c := s.callers[e.id];
    var (dir', c') := Step(codec, s.dir, e.id, c, e.choice);
    PhaseStep(codec, s.dir, e.id, c, e.choice);
    LockStep(codec, s.dir, e.id, c, e.choice);
    PublishFiles(codec, s.dir, e.id, c, e.choice);
    PublishStep(codec, s.dir, e.id, c, e.choice);
    ValuesUpdate(codec, s.dir.files, dir'.files, c.op.Workload(), c.op.Wanted());
    CheckDecidesMatch(codec, s.dir.files, c.op);
  }

  lemma QuietRefines(codec: Codec, s: Store, e: Event)
    requires Lossless(codec) && StoreInv(codec, s) && Enabled(s, e) && e.Act?
    requires !Publishes(s.dir, s.callers[e.id], e.choice)
    ensures Refines(codec, s, e)
  {
    hide CallerOk, Step, FilesOk, SameExcept, SameRecords, Values, ValidateOp, CheckCurrent, Matches, MayAnswer, Abstract, After;
    ActAbstracts(codec, s, e);
    var c := s.callers[e.id];
    var (dir', c') := Step(codec, s.dir, e.id, c, e.choice);
    PhaseStep(codec, s.dir, e.id, c, e.choice);
    LockStep(codec, s.dir, e.id, c, e.choice);
    QuietStepFiles(codec, s.dir, e.id, c, e.choice);
    ValuesAlike(codec, s.dir.files, dir'.files);
    if c'.phase != c.phase {
      CheckDecidesMatch(codec, s.dir.files, c.op);
    }
    if c'.stage.Returned? {
      CallerStep(codec, s.dir, e.id, c, e.choice);
      ReturnedAnswers(codec, dir'.files, c');
    }
  }

  lemma ReturnedAnswers(codec: Codec, files: map<FileName, Bytes>, c: Caller)
    requires CallerOk(codec, files, c) && c.stage.Returned?
    ensures MayAnswer(c.phase, c.stage.result)
  {
  }

  /** Every event of the file-level store is one event of the register, or none. */
  lemma EventRefines(codec: Codec, s: Store, e: Event)
    requires Lossless(codec) && StoreInv(codec, s) && Enabled(s, e)
    ensures Refines(codec, s, e)
  {
    hide StoreInv, Step, Values, LoadRecord, Refines;
    match e
    case Act(_, _) =>
      if Publishes(s.dir, s.callers[e.id], e.choice) {
        PublishRefines(codec, s, e);
      } else {
        QuietRefines(codec, s, e);
      }
    case ActLoad(_, _) => LoadRefines(codec, s, e);
    case Sweep(_) => SweepRefines(codec, s, e);
    case Invoke(_, _) => CallArrivalRefines(codec, s, e);
    case Crash(_) => CallArrivalRefines(codec, s, e);
    case InvokeLoad(_, _) => LoadArrivalRefines(codec, s, e);
    case CrashLoad(_) => LoadArrivalRefines(codec, s, e);
  }

  lemma SweepRefines(codec: Codec, s: Store, e: Event)
    requires Enabled(s, e) && e.Sweep?
    ensures Refines(codec, s, e)
  {
    hide Values;
    var s' := After(codec, s, e);
    assert SameRecords(s.dir.files, s'.dir.files);
    ValuesAlike(codec, s.dir.files, s'.dir.files);
  }

  /** Calls that begin, and callers that die. */
  lemma CallArrivalRefines(codec: Codec, s: Store, e: Event)
    requires Enabled(s, e) && (e.Invoke? || e.Crash?)
    ensures Refines(codec, s, e)
  {
    hide Values, Step, Matches, MayAnswer, MayLoad;
    var r, r' := Abstract(codec, s), Abstract(codec, After(codec, s, e));
    assert r'.loads == r.loads && r'.values == r.values;
  }

  /** Loads that begin, and loaders that die. */
  lemma LoadArrivalRefines(codec: Codec, s: Store, e: Event)
    requires Enabled(s, e) && (e.InvokeLoad? || e.CrashLoad?)
    ensures Refines(codec, s, e)
  {
    hide Values, Step, Matches, MayAnswer, MayLoad;
    var r, r' := Abstract(codec, s), Abstract(codec, After(codec, s, e));
    assert r'.calls == r.calls && r'.values == r.values;
  }

  /** A load that answers, answers what the register holds at that moment. */
  lemma LoadRefines(codec: Codec, s: Store, e: Event)
    requires StoreInv(codec, s) && Enabled(s, e) && e.ActLoad?
    ensures Refines(codec, s, e)
  {
    hide Values, CallerOk, Step, LoadRecord, LoadStep, MayLoad;
    var l := s.loaders[e.id];
    var l' := LoadStep(codec, s.dir.files, l, e.fault);
    LoadAnswers(codec, s.dir.files, l, e.fault);
    var r, r' := Abstract(codec, s), Abstract(codec, After(codec, s, e));
    assert r.loads[e.id] == LoadOf(l);
    assert r'.loads == r.loads[e.id := LoadOf(l')];
  }

  lemma LoadAnswers(codec: Codec, files: map<FileName, Bytes>, l: Loader, fault: bool)
    requires FilesOk(codec, files) && LoaderOk(files, l) && !l.stage.Answered?
    ensures var next := LoadStep(codec, files, l, fault);
            && next.workload == l.workload
            && (next.stage.Answered? ==> MayLoad(Values(codec, files), l.workload, next.stage.result))
            && (next.stage.Answered? && !fault ==> next.stage.result == Held(Values(codec, files), l.workload))
            && (!next.stage.Answered? ==> LoaderOk(files, next) && next.stage.Reading? && l.stage.Looking?)
  {
    hide Values, ValidIdentity, ValidateRecord;
    ValuesLookup(codec, files, l.workload);
  }

  // ----- Whole runs

  ghost predicate Initial(codec: Codec, s: Store) {
    FilesOk(codec, s.dir.files) && s.dir.locks == map[] && s.callers == map[] && s.loaders == map[]
  }

  ghost predicate Behaviour(codec: Codec, ss: seq<Store>, es: seq<Event>) {
    && |ss| == |es| + 1
    && Initial(codec, ss[0])
    && forall i, j | 0 <= i && j == i + 1 && j < |ss| :: Enabled(ss[i], es[i]) && ss[j] == After(codec, ss[i], es[i])
  }

  lemma BehaviourStep(codec: Codec, ss: seq<Store>, es: seq<Event>, i: nat)
    requires Behaviour(codec, ss, es) && i < |es|
    ensures Enabled(ss[i], es[i]) && ss[i + 1] == After(codec, ss[i], es[i])
  {
    hide Enabled, After, Initial;
    var before, after := ss[i], ss[i + 1];
    assert Enabled(before, es[i]);
  }

  /**
   At every moment of every run, whatever crashes, faults and sweeps happened, each
   canonical file holds one complete, valid record of its workload.
   */
  lemma {:induction false} CanonicalFilesStayComplete(codec: Codec, ss: seq<Store>, es: seq<Event>, i: nat)
    requires Lossless(codec) && Behaviour(codec, ss, es) && i < |ss|
    ensures StoreInv(codec, ss[i])
    ensures forall w | RecordFile(w) in ss[i].dir.files :: LoadRecord(codec, ss[i].dir.files, w).Ok?
  {
    hide LoadRecord, Step;
    if i > 0 {
      CanonicalFilesStayComplete(codec, ss, es, i - 1);
      BehaviourStep(codec, ss, es, i - 1);
      EventKeepsInv(codec, ss[i - 1], es[i - 1]);
    }
  }

  /** Every run of the file-level store is a run of the register, step for step. */
  lemma {:induction false} StoreRefinesRegister(codec: Codec, ss: seq<Store>, es: seq<Event>, i: nat)
    requires Lossless(codec) && Behaviour(codec, ss, es) && i < |es|
    ensures Enabled(ss[i], es[i]) && ss[i + 1] == After(codec, ss[i], es[i])
    ensures Refines(codec, ss[i], es[i])
  {
    hide Step, Values, LoadRecord, StoreInv, Refines;
    CanonicalFilesStayComplete(codec, ss, es, i);
    BehaviourStep(codec, ss, es, i);
    EventRefines(codec, ss[i], es[i]);
  }

  /** The register changes only by an accepted update of what it holds. */
  lemma RegisterAdvances(r: Register, e: RegisterEvent, w: string)
    requires RegisterMay(r, e) && w in r.values
    ensures var r' := RegisterAfter(r, e);
            && w in r'.values
            && (r'.values[w] == r.values[w] || (Accepts(r.values[w], r'.values[w]) && Precedes(r.values[w], r'.values[w])))
  {
    hide Precedes, ValidateRecord;
    if e.TakeEffect? && r.calls[e.id].op.Replace? {
      AcceptsIffPrecedes(r.calls[e.id].op.expected, r.calls[e.id].op.next);
    }
  }

  lemma PrecedesComposes(a: Record, b: Record, c: Record)
    requires Precedes(a, b) && Precedes(b, c)
    ensures Precedes(a, c)
  {
  }

  /**
   Once a workload has a record it always has one, and over any stretch of any run that
   record either stays or is superseded: no crash, fault or sweep ever takes it back.
   */
  lemma {:induction false} StoredRecordNeverRegresses(
    codec: Codec, ss: seq<Store>, es: seq<Event>, i: nat, j: nat, w: string)
    requires Lossless(codec) && Behaviour(codec, ss, es) && i <= j < |ss|
    requires w in Values(codec, ss[i].dir.files)
    ensures w in Values(codec, ss[j].dir.files)
    ensures var a, b := Values(codec, ss[i].dir.files)[w], Values(codec, ss[j].dir.files)[w];
            a == b || Precedes(a, b)
    decreases j - i
  {
    hide Step, Values, LoadRecord, StoreInv, Precedes, Enabled, After, RegisterMay, RegisterAfter;
    if i < j {
      StoredRecordNeverRegresses(codec, ss, es, i, j - 1, w);
      StoreRefinesRegister(codec, ss, es, j - 1);
      var r := Abstract(codec, ss[j - 1]);
      var x := EventOf(codec, ss[j - 1], es[j - 1]);
      if x.Some? {
        RegisterAdvances(r, x.value, w);
        var a, b, c := Values(codec, ss[i].dir.files)[w], r.values[w], Values(codec, ss[j].dir.files)[w];
        if a != b && b != c {
          PrecedesComposes(a, b, c);
        }
      }
    }
  }

  /** The re-read under the lock never disagrees with what was just published. */
  lemma {:induction false} ConfirmationAgrees(codec: Codec, ss: seq<Store>, es: seq<Event>, i: nat)
    requires Lossless(codec) && Behaviour(codec, ss, es) && i < |es|
    requires es[i].Act? && es[i].id in ss[i].callers && ss[i].callers[es[i].id].stage.Confirming?
    requires !es[i].choice.fault
    ensures es[i].id in ss[i + 1].callers && ss[i + 1].callers[es[i].id].stage == Unlocking(Ok(()))
  {
    hide LoadRecord, ValidateOp, CheckCurrent, MayAnswer;
    CanonicalFilesStayComplete(codec, ss, es, i);
    BehaviourStep(codec, ss, es, i);
  }

  // ----- Linearisation of one call

  /** Step `m` is where call `op` acts on the register: it takes effect there, or is refused there. */
  ghost predicate DecidedAt(codec: Codec, ss: seq<Store>, m: nat, op: Op, phase: Phase)
    requires m + 1 < |ss|
  {
    var before, after := Values(codec, ss[m].dir.files), Values(codec, ss[m + 1].dir.files);
    match phase
    case Waiting => false
    case Effective => Matches(before, op) && after == before[op.Workload() := op.Wanted()]
    case Refused => !Matches(before, op) && after == before
  }

  lemma RegisterDecides(r: Register, e: RegisterEvent, id: nat)
    requires RegisterMay(r, e) && id in RegisterAfter(r, e).calls && !RegisterAfter(r, e).calls[id].phase.Waiting?
    requires id !in r.calls || r.calls[id].phase != RegisterAfter(r, e).calls[id].phase
    ensures id in r.calls && r.calls[id].phase.Waiting? && r.calls[id].op == RegisterAfter(r, e).calls[id].op
    ensures e == if RegisterAfter(r, e).calls[id].phase.Effective? then TakeEffect(id) else Refuse(id)
  {
  }

  lemma RegisterKeepsOp(r: Register, e: RegisterEvent, id: nat)
    requires RegisterMay(r, e) && id in r.calls && id in RegisterAfter(r, e).calls
    ensures r.calls[id].op == RegisterAfter(r, e).calls[id].op
  {
  }

  /**
   A call that has acted did so at one moment inside its own span: before it the call was
   waiting, after it nothing about the call's effect changes.
   */
  lemma {:induction false} CallIsDecidedOnce(codec: Codec, ss: seq<Store>, es: seq<Event>, j: nat, id: nat) returns (m: nat)
    requires Lossless(codec) && Behaviour(codec, ss, es) && j < |ss|
    requires id in ss[j].callers && !ss[j].callers[id].phase.Waiting?
    ensures m < j && id in ss[m].callers && ss[m].callers[id].phase.Waiting?
    ensures forall k | m <= k <= j :: id in ss[k].callers && ss[k].callers[id].op == ss[j].callers[id].op
    ensures forall k | m < k <= j :: ss[k].callers[id].phase == ss[j].callers[id].phase
    ensures DecidedAt(codec, ss, m, ss[j].callers[id].op, ss[j].callers[id].phase)
  {
    hide Step, Values, LoadRecord, StoreInv, Enabled, After, Matches, ValidateOp, DecidedAt, RegisterMay, RegisterAfter;
    assert j > 0;
    StoreRefinesRegister(codec, ss, es, j - 1);
    var r, r' := Abstract(codec, ss[j - 1]), Abstract(codec, ss[j]);
    assert r'.calls[id] == CallOf(ss[j].callers[id]);
    var x := EventOf(codec, ss[j - 1], es[j - 1]);
    if id in r.calls && r.calls[id].phase == r'.calls[id].phase {
      assert r.calls[id] == CallOf(ss[j - 1].callers[id]);
      if x.Some? {
        RegisterKeepsOp(r, x.value, id);
      }
      m := CallIsDecidedOnce(codec, ss, es, j - 1, id);
    } else {
      RegisterDecides(r, x.value, id);
      assert r.calls[id] == CallOf(ss[j - 1].callers[id]);
      m := j - 1;
      DecisionShows(codec, ss, es, m, id);
    }
  }

  lemma DecisionShows(codec: Codec, ss: seq<Store>, es: seq<Event>, m: nat, id: nat)
    requires Lossless(codec) && Behaviour(codec, ss, es) && m < |es|
    requires Enabled(ss[m], es[m]) && Refines(codec, ss[m], es[m]) && ss[m + 1] == After(codec, ss[m], es[m])
    requires id in ss[m].callers && id in ss[m + 1].callers && ss[m].callers[id].op == ss[m + 1].callers[id].op
    requires !ss[m + 1].callers[id].phase.Waiting?
    requires EventOf(codec, ss[m], es[m]) ==
             Some(if ss[m + 1].callers[id].phase.Effective? then TakeEffect(id) else Refuse(id))
    ensures DecidedAt(codec, ss, m, ss[m + 1].callers[id].op, ss[m + 1].callers[id].phase)
  {
    hide Step, Values, LoadRecord, Enabled, After, Matches, ValidateOp, EventOf;
    var r := Abstract(codec, ss[m]);
    assert r.calls[id] == CallOf(ss[m].callers[id]);
  }

  /**
   Every answer is true of one moment between the call and the answer: a success means
   that the expected record was replaced exactly there, a refusal that something else was
   stored there; after any other error the call acted once or not at all.
   */
  lemma {:induction false} AnswersAreLinearised(codec: Codec, ss: seq<Store>, es: seq<Event>, j: nat, id: nat) returns (m: nat)
    requires Lossless(codec) && Behaviour(codec, ss, es) && j < |ss|
    requires id in ss[j].callers && ss[j].callers[id].stage.Returned?
    ensures var c := ss[j].callers[id];
            && m <= j && (m < j <==> !c.phase.Waiting?)
            && (m < j ==> DecidedAt(codec, ss, m, c.op, c.phase))
            && (forall k | m <= k <= j :: id in ss[k].callers && ss[k].callers[id].op == c.op)
            && (c.stage.result.Ok? ==> c.phase.Effective?)
            && (c.stage.result.Err? ==> (IsRefusal(c.stage.result.error) <==> c.phase.Refused?))
  {
    hide Step, Values, LoadRecord, Enabled, After, Matches, ValidateOp, DecidedAt, FilesOk;
    CanonicalFilesStayComplete(codec, ss, es, j);
    ReturnedAnswers(codec, ss[j].dir.files, ss[j].callers[id]);
    if ss[j].callers[id].phase.Waiting? {
      m := j;
    } else {
      m := CallIsDecidedOnce(codec, ss, es, j, id);
    }
  }
}
