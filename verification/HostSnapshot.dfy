/**
 The trusted host's fleet snapshot and the per-workload control that pins one entry of
 it: which snapshots are accepted, which entry an observation comes from, and what
 every admission request over a whole run carries.
 */
module HostSnapshots {
  import opened Outcomes
  import opened Distinctness
  import opened LifecycleRecords
  import opened LifecyclePolicies

  const HOST_PROTOCOL_VERSION := 2
  const MAX_WORKLOADS := 1024
  const MAX_HOST_REQUEST_BYTES := 16 * 1024
  const I64_MAX := 0x7FFF_FFFF_FFFF_FFFF

  /** A path is its components, which is how the standard library compares paths. */
  datatype Component = RootDir | ParentDir | CurDir | Normal(name: string)

  type Path = seq<Component>

  datatype Workload = Workload(
    workloadId: string, assignedNode: string, runtimeEpoch: u64, placementEpoch: u64, pid: nat,
    processStartTicks: u64, managedCgroup: Path, isolationPolicyDigest: string,
    queueDepth: u64, inFlight: u64, idleForMs: u64, routable: bool)
  {
    function Process(): (nat, u64) {
      (pid, processStartTicks)
    }

    function Demand(): Activity {
      Activity(queueDepth, inFlight, idleForMs)
    }
  }

  datatype Snapshot = Snapshot(version: nat, workloads: seq<Workload>)

  datatype Admission = Admission(
    workloadId: string, assignedNode: string, runtimeEpoch: u64, placementEpoch: u64, pid: nat,
    processStartTicks: u64, managedCgroup: Path, isolationPolicyDigest: string, fencingToken: u64)

  datatype HostError =
    | HostControlUnavailable
    | HostControlResponseTooLarge
    | InvalidHostControlRequest
    | InvalidHostControlResponse
    | HostIdentityMismatch
    | HostDemandChanged

  // ----- Validation

  predicate ValidManagedCgroup(path: Path, root: Path) {
    && |path| > 0 && path[0] == RootDir
    && path != root && root <= path
    && ParentDir !in path && CurDir !in path
  }

  function ValidateWorkload(w: Workload, root: Path, node: string): Option<HostError> {
    if !ValidIdentity(w.workloadId) || !ValidIdentity(w.assignedNode) then Some(InvalidHostControlResponse)
    else if w.assignedNode != node then Some(HostIdentityMismatch)
    else if w.runtimeEpoch == 0 || w.placementEpoch == 0 || w.pid == 0 || w.processStartTicks == 0 then
      Some(InvalidHostControlResponse)
    else if w.queueDepth > I64_MAX || w.inFlight > I64_MAX || w.idleForMs > I64_MAX then
      Some(InvalidHostControlResponse)
    else if !ValidDigest(w.isolationPolicyDigest) then Some(InvalidHostControlResponse)
    else if !ValidManagedCgroup(w.managedCgroup, root) then Some(InvalidHostControlResponse)
    else None
  }

  /** A workload entry is valid exactly when each of its fields is. */
  lemma WorkloadIsValidIff(w: Workload, root: Path, node: string)
    ensures ValidateWorkload(w, root, node).None? <==>
            && ValidIdentity(w.workloadId) && ValidIdentity(node) && w.assignedNode == node
            && w.runtimeEpoch > 0 && w.placementEpoch > 0 && w.pid > 0 && w.processStartTicks > 0
            && w.queueDepth < 0x8000_0000_0000_0000 && w.inFlight < 0x8000_0000_0000_0000 && w.idleForMs < 0x8000_0000_0000_0000
            && |w.isolationPolicyDigest| == 71 && w.isolationPolicyDigest[..7] == "sha256:"
            && (forall i | 7 <= i < 71 :: LowerHexDigit(w.isolationPolicyDigest[i]))
            && |w.managedCgroup| > |root| && w.managedCgroup[..|root|] == root && w.managedCgroup[0] == RootDir
            && (forall i | 0 <= i < |w.managedCgroup| :: w.managedCgroup[i] != ParentDir && w.managedCgroup[i] != CurDir)
    ensures ValidateWorkload(w, root, node) == Some(HostIdentityMismatch) <==>
            ValidIdentity(w.workloadId) && ValidIdentity(w.assignedNode) && w.assignedNode != node
    ensures ValidateWorkload(w, root, node).Some? ==>
              ValidateWorkload(w, root, node).value in {HostIdentityMismatch, InvalidHostControlResponse}
  {
    hide ValidIdentity, LowerHexDigit;
    var d, p := w.isolationPolicyDigest, w.managedCgroup;
    assert "sha256:" <= d <==> |d| >= 7 && d[..7] == "sha256:";
    assert root <= p && p != root <==> |p| > |root| && p[..|root|] == root;
  }

  /** The first refusal among the workloads. */
  function ValidateWorkloads(ws: seq<Workload>, root: Path, node: string): Option<HostError> {
    if |ws| == 0 then None
    else if ValidateWorkload(ws[0], root, node).Some? then ValidateWorkload(ws[0], root, node)
    else ValidateWorkloads(ws[1..], root, node)
  }

  function Ids(ws: seq<Workload>): seq<string> {
    seq(|ws|, i requires 0 <= i < |ws| => ws[i].workloadId)
  }

  function Processes(ws: seq<Workload>): seq<(nat, u64)> {
    seq(|ws|, i requires 0 <= i < |ws| => ws[i].Process())
  }

  function Cgroups(ws: seq<Workload>): seq<Path> {
    seq(|ws|, i requires 0 <= i < |ws| => ws[i].managedCgroup)
  }

  function ValidateSnapshot(s: Snapshot, root: Path, node: string): Option<HostError> {
    if s.version != HOST_PROTOCOL_VERSION || |s.workloads| > MAX_WORKLOADS then Some(InvalidHostControlResponse)
    else if ValidateWorkloads(s.workloads, root, node).Some? then ValidateWorkloads(s.workloads, root, node)
    else if || |Members(Ids(s.workloads))| != |s.workloads|
            || |Members(Processes(s.workloads))| != |s.workloads|
            || |Members(Cgroups(s.workloads))| != |s.workloads|
    then Some(InvalidHostControlResponse)
    else None
  }

  /** Two entries that cannot be taken for one another. */
  predicate Apart(a: Workload, b: Workload) {
    a.workloadId != b.workloadId && a.Process() != b.Process() && a.managedCgroup != b.managedCgroup
  }

  predicate PairwiseApart(ws: seq<Workload>) {
    forall i, j | 0 <= i < |ws| && 0 <= j < |ws| && i != j :: Apart(ws[i], ws[j])
  }

  lemma {:induction false} ValidateWorkloadsIff(ws: seq<Workload>, root: Path, node: string)
    ensures ValidateWorkloads(ws, root, node).None? <==> forall i | 0 <= i < |ws| :: ValidateWorkload(ws[i], root, node).None?
  {
    hide ValidateWorkload;
    if |ws| > 0 {
      ValidateWorkloadsIff(ws[1..], root, node);
      assert forall i | 0 < i < |ws| :: ws[i] == ws[1..][i - 1];
    }
  }

  lemma {:induction false} PairwiseApartIff(ws: seq<Workload>)
    ensures PairwiseApart(ws) <==> Distinct(Ids(ws)) && Distinct(Processes(ws)) && Distinct(Cgroups(ws))
  {
    var ids, processes, cgroups := Ids(ws), Processes(ws), Cgroups(ws);
    if Distinct(ids) && Distinct(processes) && Distinct(cgroups) {
      forall i, j | 0 <= i < |ws| && 0 <= j < |ws| && i != j
        ensures Apart(ws[i], ws[j])
      {
        var low, high := if i < j then i else j, if i < j then j else i;
        assert ids[low] != ids[high] && processes[low] != processes[high] && cgroups[low] != cgroups[high];
      }
    }
    if PairwiseApart(ws) {
      forall i, j | 0 <= i < j < |ws|
        ensures ids[i] != ids[j] && processes[i] != processes[j] && cgroups[i] != cgroups[j]
      {
        assert Apart(ws[i], ws[j]);
      }
    }
  }

  /** The cardinality checks accept exactly the snapshots whose valid entries are pairwise apart. */
  lemma {:induction false} SnapshotIsAcceptedIff(s: Snapshot, root: Path, node: string)
    ensures ValidateSnapshot(s, root, node).None? <==>
            && s.version == 2
            && |s.workloads| <= 1024
            && (forall i | 0 <= i < |s.workloads| :: ValidateWorkload(s.workloads[i], root, node).None?)
            && PairwiseApart(s.workloads)
  {
    hide ValidateWorkload, PairwiseApart, Distinct, Members, Ids, Processes, Cgroups;
    var ws := s.workloads;
    ValidateWorkloadsIff(ws, root, node);
    PairwiseApartIff(ws);
    ProjectionLengths(ws);
    FullCardinalityIsDistinct(Ids(ws));
    FullCardinalityIsDistinct(Processes(ws));
    FullCardinalityIsDistinct(Cgroups(ws));
  }

  lemma ProjectionLengths(ws: seq<Workload>)
    ensures |Ids(ws)| == |Processes(ws)| == |Cgroups(ws)| == |ws|
  {
  }

  // ----- Selection

  function Matching(ws: seq<Workload>, id: string): seq<Workload> {
    if |ws| == 0 then []
    else (if ws[0].workloadId == id then [ws[0]] else []) + Matching(ws[1..], id)
  }

  predicate SameIdentity(expected: Workload, observed: Workload) {
    && observed.workloadId == expected.workloadId
    && observed.assignedNode == expected.assignedNode
    && observed.runtimeEpoch == expected.runtimeEpoch
    && observed.placementEpoch == expected.placementEpoch
    && observed.pid == expected.pid
    && observed.processStartTicks == expected.processStartTicks
    && observed.managedCgroup == expected.managedCgroup
    && observed.isolationPolicyDigest == expected.isolationPolicyDigest
  }

  function SelectExact(s: Snapshot, expected: Workload): Result<Workload, HostError> {
    var matching := Matching(s.workloads, expected.workloadId);
    if |matching| != 1 then Err(HostIdentityMismatch)
    else if !SameIdentity(expected, matching[0]) then Err(HostIdentityMismatch)
    else Ok(matching[0])
  }

  /** Entry `i` is the pinned tuple, and no other entry shares its id, its process or its cgroup. */
  ghost predicate SoleEntry(ws: seq<Workload>, i: nat, expected: Workload) {
    && i < |ws|
    && SameIdentity(expected, ws[i])
    && forall j | 0 <= j < |ws| && j != i :: Apart(ws[j], expected)
  }

  lemma {:induction false} NothingMatches(ws: seq<Workload>, id: string)
    ensures Matching(ws, id) == [] <==> forall i | 0 <= i < |ws| :: ws[i].workloadId != id
  {
    if |ws| > 0 {
      NothingMatches(ws[1..], id);
      assert forall i | 0 < i < |ws| :: ws[i] == ws[1..][i - 1];
    }
  }

  lemma {:induction false} OneMatches(ws: seq<Workload>, id: string, i: nat)
    requires i < |ws| && ws[i].workloadId == id
    requires forall j | 0 <= j < |ws| && j != i :: ws[j].workloadId != id
    ensures Matching(ws, id) == [ws[i]]
  {
    var rest := ws[1..];
    if i == 0 {
      forall j | 0 <= j < |rest| ensures rest[j].workloadId != id {
        assert rest[j] == ws[j + 1];
      }
      NothingMatches(rest, id);
    } else {
      forall j | 0 <= j < |rest| && j != i - 1 ensures rest[j].workloadId != id {
        assert rest[j] == ws[j + 1];
      }
      OneMatches(rest, id, i - 1);
    }
  }

  /**
   On an accepted snapshot a workload is selected exactly when it is the single entry
   equal to the pinned tuple, and selection fails exactly when there is no such entry.
   */
  lemma {:induction false} SelectionIsTheSoleEntry(s: Snapshot, root: Path, node: string, expected: Workload)
    requires ValidateSnapshot(s, root, node).None?
    ensures forall w :: SelectExact(s, expected) == Ok(w) <==>
                          exists i: nat :: SoleEntry(s.workloads, i, expected) && s.workloads[i] == w
    ensures SelectExact(s, expected).Err? <==> forall i | 0 <= i < |s.workloads| :: !SameIdentity(expected, s.workloads[i])
    ensures SelectExact(s, expected).Err? ==> SelectExact(s, expected).error == HostIdentityMismatch
  {
    hide ValidateWorkload, ValidateWorkloads, ValidateSnapshot;
    var ws := s.workloads;
    SnapshotIsAcceptedIff(s, root, node);
    if i: nat :| i < |ws| && ws[i].workloadId == expected.workloadId {
      assert forall j | 0 <= j < |ws| && j != i :: Apart(ws[j], ws[i]);
      OneMatches(ws, expected.workloadId, i);
      if SameIdentity(expected, ws[i]) {
        assert SoleEntry(ws, i, expected);
      }
    } else {
      NothingMatches(ws, expected.workloadId);
    }
  }

  // ----- The client and the pinned control

  /** What went over the host's socket. */
  datatype Exchange =
    | Sampled(response: Result<Snapshot, HostError>)
    | Requested(admission: Admission, answer: Result<string, HostError>)

  function AdmissionOf(w: Workload, fence: u64): Admission {
    Admission(w.workloadId, w.assignedNode, w.runtimeEpoch, w.placementEpoch, w.pid,
              w.processStartTicks, w.managedCgroup, w.isolationPolicyDigest, fence)
  }

  /** The request names the workload's own identity, field by field, and the fence. */
  ghost predicate Carries(a: Admission, w: Workload, fence: u64) {
    && a.workloadId == w.workloadId
    && a.assignedNode == w.assignedNode
    && a.runtimeEpoch == w.runtimeEpoch
    && a.placementEpoch == w.placementEpoch
    && a.pid == w.pid
    && a.processStartTicks == w.processStartTicks
    && a.managedCgroup == w.managedCgroup
    && a.isolationPolicyDigest == w.isolationPolicyDigest
    && a.fencingToken == fence
  }

  /** An accepted snapshot arrived in which the pinned tuple is the sole entry of its kind, at `i`. */
  ghost predicate ShowsAt(e: Exchange, root: Path, node: string, expected: Workload, i: nat) {
    && e.Sampled? && e.response.Ok?
    && ValidateSnapshot(e.response.value, root, node).None?
    && SoleEntry(e.response.value.workloads, i, expected)
  }

  ghost predicate Shows(e: Exchange, root: Path, node: string, expected: Workload) {
    exists i: nat :: ShowsAt(e, root, node, expected, i)
  }

  /** From `start` on, every admission request is the pinned tuple and directly follows a sample showing it. */
  ghost predicate Pinned(log: seq<Exchange>, start: nat, root: Path, node: string, expected: Workload, fence: u64) {
    forall i | start <= i < |log| && log[i].Requested? ::
      Carries(log[i].admission, expected, fence) && start < i && Shows(log[i - 1], root, node, expected)
  }

  /** The host admits in exactly one way; its two refusals are told apart from anything else. */
  function Verdict(answer: Result<string, HostError>): Option<HostError> {
    match answer
    case Err(error) => Some(error)
    case Ok(response) =>
      if response == "ok routable" then None
      else if response == "error stale_identity" then Some(HostIdentityMismatch)
      else if response == "error demand_changed" then Some(HostDemandChanged)
      else Some(InvalidHostControlResponse)
  }

  lemma OnlyRoutableAdmits(answer: Result<string, HostError>)
    ensures Verdict(answer).None? <==> answer == Ok("ok routable")
  {
    assert "ok routable" != "error stale_identity" by { assert "ok routable"[0] != "error stale_identity"[0]; }
  }

  /** The host's decoded answers are arbitrary functions of how many exchanges went before. */
  class Client {
    const root: Path
    const node: string
    const snapshots: nat -> Result<Snapshot, HostError>
    const answers: nat -> Result<string, HostError>
    const requestBytes: Admission -> nat
    var exchanges: nat
    ghost var log: seq<Exchange>

    constructor (root: Path, node: string, snapshots: nat -> Result<Snapshot, HostError>,
                 answers: nat -> Result<string, HostError>, requestBytes: Admission -> nat)
      ensures Valid() && log == []
    {
      this.root, this.node, this.snapshots, this.answers := root, node, snapshots, answers;
      this.requestBytes, exchanges, log := requestBytes, 0, [];
    }

    ghost predicate Valid()
      reads this
    {
      exchanges == |log|
    }

    method Sample() returns (r: Result<Snapshot, HostError>)
      requires Valid()
      modifies this
      ensures Valid() && log == old(log) + [Sampled(snapshots(old(exchanges)))]
      ensures r.Ok? ==> r == snapshots(old(exchanges)) && ValidateSnapshot(r.value, root, node).None?
      ensures r.Err? ==> var raw := snapshots(old(exchanges));
                         r == raw || (raw.Ok? && ValidateSnapshot(raw.value, root, node) == Some(r.error))
    {
      var raw := snapshots(exchanges);
      exchanges := exchanges + 1;
      log := log + [Sampled(raw)];
      if raw.Err? {
        return raw;
      }
      var refusal := ValidateSnapshot(raw.value, root, node);
      if refusal.Some? {
        return Err(refusal.value);
      }
      return raw;
    }

    method AdmitAfterWake(w: Workload, fence: u64) returns (refusal: Option<HostError>)
      requires Valid()
      modifies this
      ensures Valid()
      ensures log == old(log) ||
              log == old(log) + [Requested(AdmissionOf(w, fence), answers(old(exchanges)))]
      ensures log != old(log) <==>
              && ValidateWorkload(w, root, node).None? && fence != 0
              && requestBytes(AdmissionOf(w, fence)) <= 16384
      ensures refusal ==
              if ValidateWorkload(w, root, node).Some? then ValidateWorkload(w, root, node)
              else if log == old(log) then Some(InvalidHostControlRequest)
              else Verdict(answers(old(exchanges)))
    {
      var invalid := ValidateWorkload(w, root, node);
      if invalid.Some? {
        return invalid;
      }
      if fence == 0 {
        return Some(InvalidHostControlRequest);
      }
      var admission := AdmissionOf(w, fence);
      if requestBytes(admission) > MAX_HOST_REQUEST_BYTES {
        return Some(InvalidHostControlRequest);
      }
      var answer := answers(exchanges);
      exchanges := exchanges + 1;
      log := log + [Requested(admission, answer)];
      refusal := Verdict(answer);
    }
  }

  class WorkloadControl {
    const client: Client
    const expected: Workload
    const fence: u64
    ghost const start: nat

    constructor (client: Client, expected: Workload, fence: u64)
      requires client.Valid() && fence != 0
      ensures Valid() && this.client == client && this.expected == expected && this.fence == fence
      ensures start == |client.log|
    {
      this.client, this.expected, this.fence, start := client, expected, fence, |client.log|;
    }

    /** Over everything the control has done, requests carry the pinned tuple and fence and nothing else. */
    ghost predicate Valid()
      reads this, client
    {
      && client.Valid() && fence != 0 && start <= |client.log|
      && Pinned(client.log, start, client.root, client.node, expected, fence)
    }

    /** Exchange `i` of the client showed the pinned tuple. */
    ghost predicate Showed(i: nat)
      reads this, client
    {
      i < |client.log| && Shows(client.log[i], client.root, client.node, expected)
    }

    method RefreshIdentity() returns (r: Result<Workload, HostError>)
      requires Valid()
      modifies client
      ensures Valid() && old(client.log) < client.log && |client.log| == |old(client.log)| + 1
      ensures r.Ok? <==> Showed(|old(client.log)|)
      ensures r.Ok? ==> exists i: nat ::
                && ShowsAt(client.log[|old(client.log)|], client.root, client.node, expected, i)
                && r.value == client.log[|old(client.log)|].response.value.workloads[i]
    {
      hide ValidateSnapshot, SelectExact;
      var snapshot := client.Sample();
      if snapshot.Err? {
        return Err(snapshot.error);
      }
      SelectionIsTheSoleEntry(snapshot.value, client.root, client.node, expected);
      r := SelectExact(snapshot.value, expected);
      ghost var e := client.log[|old(client.log)|];
      assert e == Sampled(snapshot);
      if r.Ok? {
        ghost var i: nat :| SoleEntry(snapshot.value.workloads, i, expected) && snapshot.value.workloads[i] == r.value;
        assert ShowsAt(e, client.root, client.node, expected, i);
      }
    }

    /** Succeeds exactly when the sample shows the pinned tuple, with that entry's own demand. */
    method Observe() returns (r: Result<Activity, HostError>)
      requires Valid()
      modifies client
      ensures Valid() && old(client.log) < client.log && |client.log| == |old(client.log)| + 1
      ensures r.Ok? <==> Showed(|old(client.log)|)
      ensures r.Ok? ==> exists i: nat ::
                && ShowsAt(client.log[|old(client.log)|], client.root, client.node, expected, i)
                && var w := client.log[|old(client.log)|].response.value.workloads[i];
                   r.value.queueDepth == w.queueDepth && r.value.inFlight == w.inFlight && r.value.idleForMs == w.idleForMs
    {
      var w := RefreshIdentity();
      if w.Err? {
        return Err(w.error);
      }
      return Ok(w.value.Demand());
    }

    /** Succeeds exactly when a sample, a routable admission of the pinned tuple and a second sample went by. */
    method VerifyReady() returns (refusal: Option<HostError>)
      requires Valid()
      modifies client
      ensures Valid() && old(client.log) < client.log
      ensures refusal.None? <==>
              var n := |old(client.log)|;
              && |client.log| == n + 3
              && Showed(n)
              && client.log[n + 1].Requested? && client.log[n + 1].answer == Ok("ok routable")
              && Carries(client.log[n + 1].admission, expected, fence)
              && Showed(n + 2)
    {
      hide ValidateSnapshot, ValidateWorkload;
      var w := RefreshIdentity();
      if w.Err? {
        return Some(w.error);
      }
      ghost var before := client.log;
      ghost var i: nat :| && ShowsAt(before[|before| - 1], client.root, client.node, expected, i)
                          && w.value == before[|before| - 1].response.value.workloads[i];
      assert AdmissionOf(w.value, fence) == AdmissionOf(expected, fence);
      refusal := client.AdmitAfterWake(w.value, fence);
      if client.log != before {
        OnlyRoutableAdmits(client.log[|before|].answer);
      }
      assert client.log == before || client.log[..|before|] == before;
      if refusal.Some? {
        return;
      }
      assert client.log[|before|] == Requested(AdmissionOf(expected, fence), Ok("ok routable"));
      w := RefreshIdentity();
      refusal := if w.Err? then Some(w.error) else None;
    }
  }

  /** `with_authority`: a control exists only with a positive fence and after a sample that shows its tuple. */
  method WithAuthority(client: Client, expected: Workload, fence: u64) returns (r: Result<WorkloadControl, HostError>)
    requires client.Valid()
    modifies client
    ensures client.Valid()
    ensures fence == 0 ==> r == Err(InvalidHostControlRequest) && client.log == old(client.log)
    ensures r.Ok? ==> && r.value.Valid() && fence != 0
                      && r.value.client == client && r.value.expected == expected && r.value.fence == fence
                      && r.value.start == |old(client.log)|
    ensures fence != 0 ==> && |client.log| == |old(client.log)| + 1 && old(client.log) < client.log
                           && (r.Ok? <==> Shows(client.log[|old(client.log)|], client.root, client.node, expected))
  {
    if fence == 0 {
      return Err(InvalidHostControlRequest);
    }
    var control := new WorkloadControl(client, expected, fence);
    var w := control.RefreshIdentity();
    if w.Err? {
      return Err(w.error);
    }
    return Ok(control);
  }
}
