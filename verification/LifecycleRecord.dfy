/**
 The durable lifecycle record shared by host controllers, the validation of one
 record and of one replacement, and what every accepted history of replacements
 keeps.

 Rust strings are modelled as their UTF-8 bytes, one `char` per byte.
 */
module LifecycleRecords {
  import opened Outcomes

  const MAX_CHECKPOINT_ARTIFACT_REF_BYTES := 2048
  const MAX_CHECKPOINT_FORMAT_BYTES := 128
  const MAX_IDENTITY_BYTES := 96

  datatype State =
    | Running
    | Quiescing
    | Freezing
    | Frozen
    | Checkpointing
    | Hibernated
    | Thawing
    | Restoring

  datatype Strategy = Freeze | Hibernate

  datatype Checkpoint = Checkpoint(artifactRef: string, digest: string, format: string)

  datatype Record = Record(
    workloadId: string,
    assignedNode: string,
    placementEpoch: u64,
    runtimeEpoch: u64,
    fencingToken: u64,
    revision: u64,
    state: State,
    strategy: Strategy,
    checkpoint: Option<Checkpoint>)

  datatype RecordError =
    | EmptyWorkloadId
    | EmptyAssignedNode
    | InvalidWorkloadId
    | InvalidAssignedNode
    | InvalidCheckpoint
    | InvalidCheckpointDigest
    | StateStrategyMismatch
    | ZeroPlacementEpoch
    | ZeroRuntimeEpoch
    | ZeroFencingToken
    | ZeroRevision
    | WorkloadChanged
    | StaleFencingToken
    | RevisionDidNotAdvance
    | PlacementEpochRegressed
    | PlacementChangedWithoutEpochAdvance
    | PlacementChangedWithoutRuntimeAdvance
    | RuntimeEpochRegressed
    | RuntimeChangedWithoutFenceAdvance
    | RuntimeChangedOutsideRunning
    | CheckpointRequired
    | CheckpointNotAllowed

  // ----- Validation of one record

  predicate AsciiAlphanumeric(b: char) {
    '0' <= b <= '9' || 'A' <= b <= 'Z' || 'a' <= b <= 'z'
  }

  predicate IdentityByte(b: char) {
    AsciiAlphanumeric(b) || b == '-' || b == '_' || b == '.' || b == ':'
  }

  predicate ValidIdentity(value: string) {
    && 0 < |value| <= MAX_IDENTITY_BYTES
    && forall i | 0 <= i < |value| :: IdentityByte(value[i])
  }

  /** An identity is one to 96 letters, digits, dashes, underscores, dots and colons. */
  lemma IdentityIsValidIff(value: string)
    ensures ValidIdentity(value) <==>
            && 1 <= |value| <= 96
            && forall i | 0 <= i < |value| ::
                 || 'a' <= value[i] <= 'z' || 'A' <= value[i] <= 'Z' || '0' <= value[i] <= '9'
                 || value[i] == '-' || value[i] == '_' || value[i] == '.' || value[i] == ':'
  {
  }

  predicate LowerHexDigit(b: char) {
    '0' <= b <= '9' || 'a' <= b <= 'f'
  }

  predicate ValidDigest(value: string) {
    && "sha256:" <= value
    && |value| == 7 + 64
    && forall i | 7 <= i < |value| :: LowerHexDigit(value[i])
  }

  /** A byte of a C0 control or DEL. */
  predicate ControlByte(b: char) {
    b < ' ' || b == '\U{7F}'
  }

  predicate HasControl(value: string) {
    || (exists i | 0 <= i < |value| :: ControlByte(value[i]))
    || (exists i | 0 <= i < |value| - 1 :: C1At(value, i))
  }

  predicate C1At(value: string, i: nat)
    requires i + 1 < |value|
  {
    value[i] == '\U{C2}' && '\U{80}' <= value[i + 1] <= '\U{9F}'
  }

  function ValidateCheckpoint(c: Checkpoint): Option<RecordError> {
    if || |c.artifactRef| == 0
       || |c.artifactRef| > MAX_CHECKPOINT_ARTIFACT_REF_BYTES
       || HasControl(c.artifactRef)
       || |c.format| == 0
       || |c.format| > MAX_CHECKPOINT_FORMAT_BYTES
       || HasControl(c.format)
    then Some(InvalidCheckpoint)
    else if !ValidDigest(c.digest) then Some(InvalidCheckpointDigest)
    else None
  }

  /**
   A checkpoint is accepted exactly when its reference and format are present, bounded and
   free of control characters, and its digest is a lower-case SHA-256.
   */
  lemma CheckpointIsValidIff(c: Checkpoint)
    ensures ValidateCheckpoint(c).None? <==>
            && 1 <= |c.artifactRef| <= 2048 && NoControl(c.artifactRef)
            && 1 <= |c.format| <= 128 && NoControl(c.format)
            && |c.digest| == 71 && c.digest[..7] == "sha256:"
            && forall i | 7 <= i < 71 :: '0' <= c.digest[i] <= '9' || 'a' <= c.digest[i] <= 'f'
    ensures ValidateCheckpoint(c) == Some(InvalidCheckpointDigest) ==> NoControl(c.artifactRef) && NoControl(c.format)
  {
    hide HasControl, NoControl;
    ControlIff(c.artifactRef);
    ControlIff(c.format);
    assert "sha256:" <= c.digest <==> |c.digest| >= 7 && c.digest[..7] == "sha256:";
  }

  lemma ControlIff(text: string)
    ensures HasControl(text) <==> !NoControl(text)
  {
    if NoControl(text) {
      forall i | 0 <= i < |text| - 1
        ensures !C1At(text, i)
      {
        assert !(text[i] == '\U{C2}' && '\U{80}' <= text[i + 1] <= '\U{9F}');
      }
    } else if i :| 0 <= i < |text| && !('\U{20}' <= text[i] && text[i] != '\U{7F}') {
      assert ControlByte(text[i]);
    } else {
      var i, j :| 0 <= i && j == i + 1 && j < |text| && text[i] == '\U{C2}' && '\U{80}' <= text[j] <= '\U{9F}';
      assert C1At(text, i);
    }
  }

  /** No U+0000 to U+001F, no U+007F, and no U+0080 to U+009F, which two bytes encode. */
  ghost predicate NoControl(text: string) {
    && (forall i | 0 <= i < |text| :: '\U{20}' <= text[i] && text[i] != '\U{7F}')
    && forall i, j | 0 <= i && j == i + 1 && j < |text| :: !(text[i] == '\U{C2}' && '\U{80}' <= text[j] <= '\U{9F}')
  }

  function ValidateState(r: Record): Option<RecordError> {
    match r.state
    case Hibernated | Restoring =>
      if r.strategy != Hibernate then Some(StateStrategyMismatch)
      else if r.checkpoint.None? then Some(CheckpointRequired)
      else None
    case Checkpointing =>
      if r.strategy != Hibernate then Some(StateStrategyMismatch)
      else if r.checkpoint.Some? then Some(CheckpointNotAllowed)
      else None
    case Freezing | Frozen | Thawing =>
      if r.strategy != Freeze then Some(StateStrategyMismatch)
      else if r.checkpoint.Some? then Some(CheckpointNotAllowed)
      else None
    case Running | Quiescing =>
      if r.checkpoint.Some? then Some(CheckpointNotAllowed) else None
  }

  function Validate(r: Record): Option<RecordError> {
    if |r.workloadId| == 0 then Some(EmptyWorkloadId)
    else if !ValidIdentity(r.workloadId) then Some(InvalidWorkloadId)
    else if |r.assignedNode| == 0 then Some(EmptyAssignedNode)
    else if !ValidIdentity(r.assignedNode) then Some(InvalidAssignedNode)
    else if r.placementEpoch == 0 then Some(ZeroPlacementEpoch)
    else if r.runtimeEpoch == 0 then Some(ZeroRuntimeEpoch)
    else if r.fencingToken == 0 then Some(ZeroFencingToken)
    else if r.revision == 0 then Some(ZeroRevision)
    else if r.checkpoint.Some? && ValidateCheckpoint(r.checkpoint.value).Some? then
      ValidateCheckpoint(r.checkpoint.value)
    else ValidateState(r)
  }

  predicate Valid(r: Record) {
    Validate(r).None?
  }

  /**
   A record is valid exactly when its identity is well formed and complete, and its state
   decides its strategy and whether it carries a checkpoint: `hibernated` and `restoring`
   do, every other state does not.
   */
  lemma ValidIff(r: Record)
    ensures Valid(r) <==>
            && ValidIdentity(r.workloadId) && ValidIdentity(r.assignedNode)
            && r.placementEpoch > 0 && r.runtimeEpoch > 0 && r.fencingToken > 0 && r.revision > 0
            && (r.checkpoint.Some? <==> r.state == Hibernated || r.state == Restoring)
            && (r.checkpoint.Some? ==> ValidateCheckpoint(r.checkpoint.value).None?)
            && (r.state in {Freezing, Frozen, Thawing} ==> r.strategy == Freeze)
            && (r.state in {Checkpointing, Hibernated, Restoring} ==> r.strategy == Hibernate)
  {
  }

  // ----- Validation of one compare-and-set replacement

  function ValidateUpdate(current: Record, next: Record): Option<RecordError> {
    if Validate(current).Some? then Validate(current)
    else if Validate(next).Some? then Validate(next)
    else if next.workloadId != current.workloadId then Some(WorkloadChanged)
    else if next.fencingToken < current.fencingToken then Some(StaleFencingToken)
    else if next.revision <= current.revision then Some(RevisionDidNotAdvance)
    else if next.placementEpoch < current.placementEpoch then Some(PlacementEpochRegressed)
    else if next.assignedNode != current.assignedNode && next.placementEpoch <= current.placementEpoch then
      Some(PlacementChangedWithoutEpochAdvance)
    else
      var placementChanged :=
        next.assignedNode != current.assignedNode || next.placementEpoch > current.placementEpoch;
      if placementChanged && next.runtimeEpoch <= current.runtimeEpoch then
        Some(PlacementChangedWithoutRuntimeAdvance)
      else if next.runtimeEpoch < current.runtimeEpoch then Some(RuntimeEpochRegressed)
      else if next.runtimeEpoch > current.runtimeEpoch && next.fencingToken <= current.fencingToken then
        Some(RuntimeChangedWithoutFenceAdvance)
      else if && next.runtimeEpoch > current.runtimeEpoch
              && (next.state != Running || next.checkpoint.Some?) then
        Some(RuntimeChangedOutsideRunning)
      else None
  }

  predicate Accepts(current: Record, next: Record) {
    ValidateUpdate(current, next).None?
  }

  /** `authorizes_controller`: the record was written by exactly this incarnation under exactly this fence. */
  predicate AuthorizesController(r: Record, node: string, placementEpoch: u64, runtimeEpoch: u64, fence: u64) {
    r.assignedNode == node && r.placementEpoch == placementEpoch && r.runtimeEpoch == runtimeEpoch && r.fencingToken == fence
  }

  // ----- Histories of accepted replacements

  ghost predicate AcceptedHistory(h: seq<Record>) {
    && |h| > 0
    && Valid(h[0])
    && forall i, j | 0 <= i && j == i + 1 && j < |h| :: Accepts(h[i], h[j])
  }

  /**
   What an earlier record fixes about every later one: the identity never changes,
   fences and epochs never fall, revisions rise, a new runtime needs a new fence,
   one runtime stays on one placement, and one placement stays on one node.
   */
  ghost predicate Precedes(a: Record, b: Record) {
    && a.workloadId == b.workloadId
    && a.revision < b.revision
    && a.fencingToken <= b.fencingToken
    && a.placementEpoch <= b.placementEpoch
    && a.runtimeEpoch <= b.runtimeEpoch
    && (a.runtimeEpoch < b.runtimeEpoch ==> a.fencingToken < b.fencingToken)
    && (a.runtimeEpoch == b.runtimeEpoch ==> a.placementEpoch == b.placementEpoch)
    && (a.placementEpoch == b.placementEpoch ==> a.assignedNode == b.assignedNode)
  }

  /**
   A replacement is accepted exactly when both records are valid, the order above
   holds, and a replaced runtime starts over in `running` without a checkpoint.
   */
  lemma AcceptsIffPrecedes(a: Record, b: Record)
    ensures Accepts(a, b) <==>
            && Valid(a) && Valid(b) && Precedes(a, b)
            && (a.runtimeEpoch < b.runtimeEpoch ==> b.state == Running && b.checkpoint.None?)
  {
  }

  /** The order holds between any two records of a history, however far apart. */
  lemma {:induction false} HistoryIsOrdered(h: seq<Record>, i: nat, j: nat)
    requires AcceptedHistory(h)
    requires i < j < |h|
    ensures Precedes(h[i], h[j])
    decreases j - i
  {
    assert Accepts(h[j - 1], h[j]);
    AcceptsIffPrecedes(h[j - 1], h[j]);
    if i < j - 1 {
      HistoryIsOrdered(h, i, j - 1);
    }
  }

  lemma {:induction false} HistoryIsValid(h: seq<Record>, i: nat)
    requires AcceptedHistory(h)
    requires i < |h|
    ensures Valid(h[i])
  {
    if i > 0 {
      assert Accepts(h[i - 1], h[i]);
      AcceptsIffPrecedes(h[i - 1], h[i]);
    }
  }

  /**
   Over every history: revisions strictly increase, an equal fence means the same
   runtime, the same runtime means the same placement and node.
   */
  lemma {:induction false} EpochsFollowFences(h: seq<Record>, i: nat, j: nat)
    requires AcceptedHistory(h)
    requires i < |h| && j < |h|
    ensures i < j <==> h[i].revision < h[j].revision
    ensures h[i].fencingToken == h[j].fencingToken ==> h[i].runtimeEpoch == h[j].runtimeEpoch
    ensures h[i].runtimeEpoch == h[j].runtimeEpoch ==> h[i].placementEpoch == h[j].placementEpoch
    ensures h[i].placementEpoch == h[j].placementEpoch ==> h[i].assignedNode == h[j].assignedNode
    ensures h[i].fencingToken < h[j].fencingToken ==> i < j
  {
    if i < j {
      HistoryIsOrdered(h, i, j);
    } else if j < i {
      HistoryIsOrdered(h, j, i);
    }
  }

  /**
   Every runtime other than the first begins with a `running` record that carries no
   checkpoint, and that runtime's records are contiguous from there on.
   */
  lemma {:induction false} LaterRuntimeStartsRunning(h: seq<Record>, j: nat) returns (k: nat)
    requires AcceptedHistory(h)
    requires j < |h| && h[j].runtimeEpoch != h[0].runtimeEpoch
    ensures 0 < k <= j
    ensures h[k].state == Running && h[k].checkpoint.None?
    ensures h[k - 1].fencingToken < h[k].fencingToken
    ensures forall m | 0 <= m < k :: h[m].runtimeEpoch < h[j].runtimeEpoch
    ensures forall m | k <= m <= j :: h[m].runtimeEpoch == h[j].runtimeEpoch
  {
    assert Accepts(h[j - 1], h[j]);
    AcceptsIffPrecedes(h[j - 1], h[j]);
    if h[j - 1].runtimeEpoch == h[j].runtimeEpoch {
      k := LaterRuntimeStartsRunning(h, j - 1);
    } else {
      k := j;
      forall m | 0 <= m < k
        ensures h[m].runtimeEpoch < h[j].runtimeEpoch
      {
        if m < j - 1 {
          HistoryIsOrdered(h, m, j - 1);
        }
      }
    }
  }

  /** The extension of a history by one accepted replacement is a history. */
  lemma {:induction false} HistoryExtends(h: seq<Record>, next: Record)
    requires AcceptedHistory(h)
    requires Accepts(h[|h| - 1], next)
    ensures AcceptedHistory(h + [next])
    ensures forall i | 0 <= i < |h| :: Precedes(h[i], next)
  {
    var g := h + [next];
    forall i, j | 0 <= i && j == i + 1 && j < |g|
      ensures Accepts(g[i], g[j])
    {
      if j < |h| {
        assert Accepts(h[i], h[j]);
      }
    }
    forall i | 0 <= i < |h|
      ensures Precedes(h[i], next)
    {
      HistoryIsOrdered(g, i, |h|);
    }
  }
}
