/** The pure lifecycle policy: one decision per state and event, with no effects. */
module LifecyclePolicies {
  import opened Outcomes
  import opened LifecycleRecords

  datatype PolicyState =
    | PolicyRunning
    | PolicyQuiescing(strategy: Strategy)
    | PolicyFreezing
    | PolicyFrozen
    | PolicyCheckpointing
    | PolicyHibernated
    | PolicyResuming(strategy: Strategy)

  datatype Activity = Activity(queueDepth: u64, inFlight: u64, idleForMs: u64)
  {
    predicate HasDemand() {
      queueDepth > 0 || inFlight > 0
    }

    predicate IsIdleFor(minimumIdleMs: u64) {
      !HasDemand() && idleForMs >= minimumIdleMs
    }
  }

  datatype Policy = Policy(strategy: Strategy, minimumIdleMs: u64)

  datatype PolicyEvent =
    | Observed(activity: Activity)
    | QuiesceSucceeded
    | FreezeSucceeded
    | CheckpointSucceeded
    | ResumeSucceeded

  datatype PolicyAction =
    | NoAction
    | BeginQuiesce
    | CancelQuiesce
    | RequestFreeze
    | CheckpointAndTerminate
    | RequestThaw
    | RequestRestore

  datatype Decision = Decision(nextState: PolicyState, action: PolicyAction)

  /** `None` is the source's `InvalidTransition`. */
  function Decide(state: PolicyState, policy: Policy, event: PolicyEvent): Option<Decision> {
    match state
    case PolicyRunning => DecideRunning(policy, event)
    case PolicyQuiescing(strategy) => DecideQuiescing(strategy, event)
    case PolicyFreezing =>
      if event.FreezeSucceeded? then Some(Decision(PolicyFrozen, NoAction)) else None
    case PolicyFrozen =>
      if !event.Observed? then None
      else if event.activity.HasDemand() then Some(Decision(PolicyResuming(Freeze), RequestThaw))
      else Some(Decision(PolicyFrozen, NoAction))
    case PolicyCheckpointing =>
      if event.CheckpointSucceeded? then Some(Decision(PolicyHibernated, NoAction)) else None
    case PolicyHibernated =>
      if !event.Observed? then None
      else if event.activity.HasDemand() then Some(Decision(PolicyResuming(Hibernate), RequestRestore))
      else Some(Decision(PolicyHibernated, NoAction))
    case PolicyResuming(_) =>
      if event.ResumeSucceeded? then Some(Decision(PolicyRunning, NoAction)) else None
  }

  function DecideRunning(policy: Policy, event: PolicyEvent): Option<Decision> {
    if !event.Observed? then None
    else if event.activity.IsIdleFor(policy.minimumIdleMs) then
      Some(Decision(PolicyQuiescing(policy.strategy), BeginQuiesce))
    else Some(Decision(PolicyRunning, NoAction))
  }

  function DecideQuiescing(strategy: Strategy, event: PolicyEvent): Option<Decision> {
    match event
    case Observed(activity) =>
      if activity.HasDemand() then Some(Decision(PolicyRunning, CancelQuiesce))
      else Some(Decision(PolicyQuiescing(strategy), NoAction))
    case QuiesceSucceeded =>
      if strategy == Freeze then Some(Decision(PolicyFreezing, RequestFreeze))
      else Some(Decision(PolicyCheckpointing, CheckpointAndTerminate))
    case _ => None
  }

  function ToPolicyState(record: Record): PolicyState {
    match record.state
    case Running => PolicyRunning
    case Quiescing => PolicyQuiescing(record.strategy)
    case Freezing => PolicyFreezing
    case Frozen => PolicyFrozen
    case Checkpointing => PolicyCheckpointing
    case Hibernated => PolicyHibernated
    case Thawing => PolicyResuming(Freeze)
    case Restoring => PolicyResuming(Hibernate)
  }

  /**
   Every decision, action and next state, from the state, the event and the fields of the
   activity; everything else is an invalid transition.
   */
  lemma DecisionTable(state: PolicyState, policy: Policy, event: PolicyEvent)
    ensures Decide(state, policy, event) ==
            match (state, event)
            case (PolicyRunning, Observed(a)) =>
              if a.queueDepth == 0 && a.inFlight == 0 && a.idleForMs >= policy.minimumIdleMs
              then Some(Decision(PolicyQuiescing(policy.strategy), BeginQuiesce))
              else Some(Decision(PolicyRunning, NoAction))
            case (PolicyQuiescing(s), Observed(a)) =>
              if a.queueDepth > 0 || a.inFlight > 0 then Some(Decision(PolicyRunning, CancelQuiesce))
              else Some(Decision(PolicyQuiescing(s), NoAction))
            case (PolicyQuiescing(s), QuiesceSucceeded) =>
              Some(if s == Freeze then Decision(PolicyFreezing, RequestFreeze)
                   else Decision(PolicyCheckpointing, CheckpointAndTerminate))
            case (PolicyFreezing, FreezeSucceeded) => Some(Decision(PolicyFrozen, NoAction))
            case (PolicyFrozen, Observed(a)) =>
              if a.queueDepth > 0 || a.inFlight > 0 then Some(Decision(PolicyResuming(Freeze), RequestThaw))
              else Some(Decision(PolicyFrozen, NoAction))
            case (PolicyCheckpointing, CheckpointSucceeded) => Some(Decision(PolicyHibernated, NoAction))
            case (PolicyHibernated, Observed(a)) =>
              if a.queueDepth > 0 || a.inFlight > 0 then Some(Decision(PolicyResuming(Hibernate), RequestRestore))
              else Some(Decision(PolicyHibernated, NoAction))
            case (PolicyResuming(_), ResumeSucceeded) => Some(Decision(PolicyRunning, NoAction))
            case _ => None
  {
  }
}
