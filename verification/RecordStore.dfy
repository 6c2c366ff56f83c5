/**
 The file-backed record store as file-level steps: lock, re-read, create and fill a
 temporary file, rename or link it into place, re-read, unlock. Any number of callers
 interleave, any step may fail or be the last before a crash, and other processes may
 sweep temporary files at any moment. Encoding is an uninterpreted codec with an inverse.
 */
module RecordStores {
  import opened Outcomes
  import opened LifecycleRecords

  const MAX_RECORD_BYTES := 65536

  type Bytes = seq<char>

  datatype Codec = Codec(encode: Record -> Bytes, decode: Bytes -> Option<Record>)

  ghost predicate Lossless(codec: Codec) {
    forall r :: codec.decode(codec.encode(r)) == Some(r)
  }

  // ----- The directory

  datatype FileName =
    | RecordFile(workload: string)
    | LockFile(workload: string)
    | TempFile(workload: string, revision: u64, pid: nat, nonce: nat)

  /** `locks` maps a workload to the caller that holds its lock file. */
  datatype Dir = Dir(files: map<FileName, Bytes>, locks: map<string, nat>)

  datatype StoreError =
    | BadWorkloadId
    | BadRecord
    | RecordTooLarge
    | MissingRecord
    | AlreadyInitialized
    | UnexpectedCurrent
    | BadJson
    | Io

  function ValidateRecord(r: Record): Option<StoreError> {
    if !ValidIdentity(r.workloadId) then Some(BadWorkloadId)
    else if Validate(r).Some? then Some(BadRecord)
    else None
  }

  function LoadRecord(codec: Codec, files: map<FileName, Bytes>, workload: string): Result<Record, StoreError> {
    if !ValidIdentity(workload) then Err(BadWorkloadId)
    else if RecordFile(workload) !in files then Err(MissingRecord)
    else
      var bytes := files[RecordFile(workload)];
      if |bytes| > MAX_RECORD_BYTES then Err(RecordTooLarge)
      else if codec.decode(bytes).None? then Err(BadJson)
      else
        var record := codec.decode(bytes).value;
        if ValidateRecord(record).Some? then Err(ValidateRecord(record).value)
        else if record.workloadId != workload then Err(BadRecord)
        else Ok(record)
  }

  // ----- One store call

  datatype Op = Replace(expected: Record, next: Record) | Initialize(record: Record)
  {
    /** The record the call wants to make durable. */
    function Wanted(): Record {
      if Replace? then next else record
    }

    function Workload(): string {
      if Replace? then expected.workloadId else record.workloadId
    }
  }

  /** Where a call stands, named by the step it takes next. */
  datatype Stage =
    | Validating
    | Locking
    | Checking
    | Creating
    | Writing(name: FileName, written: nat)
    | Publishing(name: FileName)
    | Undoing(name: FileName, error: StoreError)
    | Tidying(name: FileName)
    | Syncing
    | Confirming
    | Unlocking(result: Result<(), StoreError>)
    | Returned(result: Result<(), StoreError>)

  /** What the call has done to the register it implements. */
  datatype Phase = Waiting | Effective | Refused

  datatype Caller = Caller(op: Op, stage: Stage, phase: Phase)

  /** What the outside world decides about one step. */
  datatype Choice = Choice(fault: bool, chunk: nat, pid: nat, nonce: nat)

  function ValidateOp(op: Op): Option<StoreError> {
    match op
    case Replace(expected, next) =>
      if ValidateRecord(expected).Some? then ValidateRecord(expected)
      else if ValidateRecord(next).Some? then ValidateRecord(next)
      else if ValidateUpdate(expected, next).Some? then Some(BadRecord)
      else None
    case Initialize(record) => ValidateRecord(record)
  }

  /** Whether the locked re-read lets the call go on. */
  function CheckCurrent(codec: Codec, files: map<FileName, Bytes>, op: Op): Option<StoreError> {
    match op
    case Replace(expected, _) =>
      var current := LoadRecord(codec, files, expected.workloadId);
      if current.Err? then Some(current.error)
      else if current.value != expected then Some(UnexpectedCurrent)
      else None
    case Initialize(record) =>
      if RecordFile(record.workloadId) in files then Some(AlreadyInitialized) else None
  }

  /** The answers that mean the register held something else than the call expects. */
  predicate IsRefusal(e: StoreError) {
    e.UnexpectedCurrent? || e.MissingRecord? || e.AlreadyInitialized?
  }

  predicate HoldsLock(stage: Stage) {
    !stage.Validating? && !stage.Locking? && !stage.Returned?
  }

  predicate CanStep(dir: Dir, c: Caller, choice: Choice) {
    && !c.stage.Returned?
    && (c.stage.Locking? && !choice.fault ==> c.op.Workload() !in dir.locks)
  }

  function Advance(written: nat, chunk: nat, total: nat): nat {
    if written + chunk + 1 <= total then written + chunk + 1 else total
  }

  /** Fails the call and gives the lock back. */
  function Fail(c: Caller, e: StoreError): Caller {
    c.(stage := Unlocking(Err(e)))
  }

  /** The stable lock file is created once and then held. */
  function Locked(dir: Dir, w: string, id: nat): Dir {
    Dir(if LockFile(w) in dir.files then dir.files else dir.files[LockFile(w) := []], dir.locks[w := id])
  }

  /** One step of caller `id`: the directory and the caller afterwards. */
  function Step(codec: Codec, dir: Dir, id: nat, c: Caller, choice: Choice): (Dir, Caller)
    requires CanStep(dir, c, choice)
  {
    var w, bytes := c.op.Workload(), codec.encode(c.op.Wanted());
    match c.stage
    case Validating =>
      var refusal := ValidateOp(c.op);
      (dir, c.(stage := if refusal.Some? then Returned(Err(refusal.value)) else Locking))
    case Locking =>
      if choice.fault then (dir, c.(stage := Returned(Err(Io))))
      else (Locked(dir, w, id), c.(stage := Checking))
    case Checking =>
      if choice.fault then (dir, Fail(c, Io))
      else
        var refusal := CheckCurrent(codec, dir.files, c.op);
        if refusal.Some? then
          (dir, Fail(c, refusal.value).(phase := if IsRefusal(refusal.value) then Refused else Waiting))
        else if |bytes| > MAX_RECORD_BYTES then (dir, Fail(c, RecordTooLarge))
        else (dir, c.(stage := Creating))
    case Creating =>
      var name := TempFile(w, c.op.Wanted().revision, choice.pid, choice.nonce);
      if choice.fault || name in dir.files then (dir, Fail(c, Io))
      else (dir.(files := dir.files[name := []]), c.(stage := Writing(name, 0)))
    case Writing(name, written) =>
      if choice.fault then (dir, Fail(c, Io))
      else if written < |bytes| then
        var n := Advance(written, choice.chunk, |bytes|);
        (if name in dir.files then dir.(files := dir.files[name := bytes[..n]]) else dir,
         c.(stage := Writing(name, n)))
      else (dir, c.(stage := Publishing(name)))
    case Publishing(name) =>
      if choice.fault || name !in dir.files then (dir, c.(stage := Undoing(name, Io)))
      else if c.op.Replace? then
        (dir.(files := (dir.files - {name})[RecordFile(w) := dir.files[name]]),
         c.(stage := Syncing, phase := Effective))
      else if RecordFile(w) in dir.files then
        (dir, c.(stage := Undoing(name, AlreadyInitialized), phase := Refused))
      else
        (dir.(files := dir.files[RecordFile(w) := dir.files[name]]),
         c.(stage := Tidying(name), phase := Effective))
    case Undoing(name, error) =>
      if choice.fault || name !in dir.files then (dir, Fail(c, Io))
      else (dir.(files := dir.files - {name}), Fail(c, error))
    case Tidying(name) =>
      if choice.fault || name !in dir.files then (dir, Fail(c, Io))
      else (dir.(files := dir.files - {name}), c.(stage := Syncing))
    case Syncing =>
      if choice.fault then (dir, Fail(c, Io)) else (dir, c.(stage := Confirming))
    case Confirming =>
      if choice.fault then (dir, Fail(c, Io))
      else
        var published := LoadRecord(codec, dir.files, w);
        (dir, if published.Err? then Fail(c, published.error)
              else if published.value != c.op.Wanted() then Fail(c, BadRecord)
              else c.(stage := Unlocking(Ok(()))))
    case Unlocking(result) =>
      (dir.(locks := dir.locks - {w}), c.(stage := Returned(result)))
  }

  // ----- One load, which takes no lock

  /** A load first looks at the file's metadata and then reads the file. */
  datatype LoadStage = Looking | Reading | Answered(result: Result<Record, StoreError>)

  datatype Loader = Loader(workload: string, stage: LoadStage)

  function LoadStep(codec: Codec, files: map<FileName, Bytes>, l: Loader, fault: bool): Loader
    requires !l.stage.Answered?
  {
    var name := RecordFile(l.workload);
    l.(stage :=
       if l.stage.Looking? then
         if !ValidIdentity(l.workload) then Answered(Err(BadWorkloadId))
         else if fault then Answered(Err(Io))
         else if name !in files then Answered(Err(MissingRecord))
         else if |files[name]| > MAX_RECORD_BYTES then Answered(Err(RecordTooLarge))
         else Reading
       else if fault || name !in files then Answered(Err(Io))
       else Answered(LoadRecord(codec, files, l.workload)))
  }

  // ----- All callers together

  datatype Store = Store(dir: Dir, callers: map<nat, Caller>, loaders: map<nat, Loader>)

  /** `Sweep` is one removal by some process that opens the store. */
  datatype Event =
    | Invoke(id: nat, op: Op)
    | Act(id: nat, choice: Choice)
    | Crash(id: nat)
    | Sweep(name: FileName)
    | InvokeLoad(id: nat, workload: string)
    | ActLoad(id: nat, fault: bool)
    | CrashLoad(id: nat)

  predicate Enabled(s: Store, e: Event) {
    match e
    case Invoke(id, _) => id !in s.callers
    case Act(id, choice) => id in s.callers && CanStep(s.dir, s.callers[id], choice)
    case Crash(id) => id in s.callers
    case Sweep(name) => name.TempFile? && name in s.dir.files
    case InvokeLoad(id, _) => id !in s.loaders
    case ActLoad(id, _) => id in s.loaders && !s.loaders[id].stage.Answered?
    case CrashLoad(id) => id in s.loaders
  }

  function Released(locks: map<string, nat>, id: nat): map<string, nat> {
    map w | w in locks && locks[w] != id :: locks[w]
  }

  function After(codec: Codec, s: Store, e: Event): Store
    requires Enabled(s, e)
  {
    match e
    case Invoke(id, op) => s.(callers := s.callers[id := Caller(op, Validating, Waiting)])
    case Act(id, choice) =>
      var (dir, c) := Step(codec, s.dir, id, s.callers[id], choice);
      s.(dir := dir, callers := s.callers[id := c])
    case Crash(id) => s.(dir := s.dir.(locks := Released(s.dir.locks, id)), callers := s.callers - {id})
    case Sweep(name) => s.(dir := s.dir.(files := s.dir.files - {name}))
    case InvokeLoad(id, w) => s.(loaders := s.loaders[id := Loader(w, Looking)])
    case ActLoad(id, fault) => s.(loaders := s.loaders[id := LoadStep(codec, s.dir.files, s.loaders[id], fault)])
    case CrashLoad(id) => s.(loaders := s.loaders - {id})
  }

  // ----- The register it implements

  /** The register's answer to a call, or that it has not answered yet. */
  datatype RegisterCall = Open(op: Op, phase: Phase) | Closed(op: Op, phase: Phase, result: Result<(), StoreError>)

  datatype RegisterLoad = Pending(workload: string) | Loaded(workload: string, result: Result<Record, StoreError>)

  datatype Register = Register(values: map<string, Record>, calls: map<nat, RegisterCall>, loads: map<nat, RegisterLoad>)

  datatype RegisterEvent =
    | Ask(id: nat, op: Op)
    | TakeEffect(id: nat)
    | Refuse(id: nat)
    | Answer(id: nat, result: Result<(), StoreError>)
    | Abandon(id: nat)
    | AskLoad(id: nat, workload: string)
    | AnswerLoad(id: nat, loaded: Result<Record, StoreError>)
    | AbandonLoad(id: nat)

  /** The register holds what the call expects. */
  predicate Matches(values: map<string, Record>, op: Op) {
    match op
    case Replace(expected, _) => expected.workloadId in values && values[expected.workloadId] == expected
    case Initialize(record) => record.workloadId !in values
  }

  /**
   A success means the call took effect, a stale or missing expectation means it was
   refused, and any other error leaves open whether it took effect.
   */
  predicate MayAnswer(phase: Phase, result: Result<(), StoreError>) {
    if result.Ok? then phase.Effective?
    else if IsRefusal(result.error) then phase.Refused?
    else !phase.Refused?
  }

  /** What the register has to say about a workload. */
  function Held(values: map<string, Record>, w: string): Result<Record, StoreError> {
    if !ValidIdentity(w) then Err(BadWorkloadId)
    else if w in values then Ok(values[w])
    else Err(MissingRecord)
  }

  /** A load answers what the register holds at that moment, or an I/O error. */
  predicate MayLoad(values: map<string, Record>, w: string, result: Result<Record, StoreError>) {
    result == Err(Io) || result == Held(values, w)
  }

  predicate RegisterMay(r: Register, e: RegisterEvent) {
    match e
    case Ask(id, _) => id !in r.calls
    case TakeEffect(id) =>
      && id in r.calls && r.calls[id].Open? && r.calls[id].phase.Waiting?
      && Matches(r.values, r.calls[id].op) && ValidateOp(r.calls[id].op).None?
    case Refuse(id) =>
      && id in r.calls && r.calls[id].Open? && r.calls[id].phase.Waiting?
      && !Matches(r.values, r.calls[id].op)
    case Answer(id, result) =>
      id in r.calls && r.calls[id].Open? && MayAnswer(r.calls[id].phase, result)
    case Abandon(id) => id in r.calls
    case AskLoad(id, _) => id !in r.loads
    case AnswerLoad(id, result) => id in r.loads && r.loads[id].Pending? && MayLoad(r.values, r.loads[id].workload, result)
    case AbandonLoad(id) => id in r.loads
  }

  function RegisterAfter(r: Register, e: RegisterEvent): Register
    requires RegisterMay(r, e)
  {
    match e
    case Ask(id, op) => r.(calls := r.calls[id := Open(op, Waiting)])
    case TakeEffect(id) =>
      var op := r.calls[id].op;
      r.(values := r.values[op.Workload() := op.Wanted()], calls := r.calls[id := Open(op, Effective)])
    case Refuse(id) => r.(calls := r.calls[id := Open(r.calls[id].op, Refused)])
    case Answer(id, result) =>
      r.(calls := r.calls[id := Closed(r.calls[id].op, r.calls[id].phase, result)])
    case Abandon(id) => r.(calls := r.calls - {id})
    case AskLoad(id, w) => r.(loads := r.loads[id := Pending(w)])
    case AnswerLoad(id, result) => r.(loads := r.loads[id := Loaded(r.loads[id].workload, result)])
    case AbandonLoad(id) => r.(loads := r.loads - {id})
  }

  // ----- The refinement mapping

  function Values(codec: Codec, files: map<FileName, Bytes>): map<string, Record> {
    map name | name in files && name.RecordFile? && LoadRecord(codec, files, name.workload).Ok? ::
      name.workload := LoadRecord(codec, files, name.workload).value
  }

  function CallOf(c: Caller): RegisterCall {
    if c.stage.Returned? then Closed(c.op, c.phase, c.stage.result) else Open(c.op, c.phase)
  }

  function LoadOf(l: Loader): RegisterLoad {
    if l.stage.Answered? then Loaded(l.workload, l.stage.result) else Pending(l.workload)
  }

  function Abstract(codec: Codec, s: Store): Register {
    Register(
      Values(codec, s.dir.files),
      map id | id in s.callers :: CallOf(s.callers[id]),
      map id | id in s.loaders :: LoadOf(s.loaders[id]))
  }

  /** The register event a store event stands for, or `None` when it changes nothing. */
  function EventOf(codec: Codec, s: Store, e: Event): Option<RegisterEvent>
    requires Enabled(s, e)
  {
    match e
    case Invoke(id, op) => Some(Ask(id, op))
    case Crash(id) => Some(Abandon(id))
    case Sweep(_) => None
    case InvokeLoad(id, w) => Some(AskLoad(id, w))
    case CrashLoad(id) => Some(AbandonLoad(id))
    case ActLoad(id, fault) =>
      var next := LoadStep(codec, s.dir.files, s.loaders[id], fault);
      if next.stage.Answered? then Some(AnswerLoad(id, next.stage.result)) else None
    case Act(id, choice) =>
      var c := s.callers[id];
      var next := Step(codec, s.dir, id, c, choice).1;
      if next.stage.Returned? then Some(Answer(id, next.stage.result))
      else if c.phase == next.phase then None
      else if next.phase.Effective? then Some(TakeEffect(id))
      else Some(Refuse(id))
  }
}
