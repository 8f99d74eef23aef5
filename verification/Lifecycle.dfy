/** The two transition tables (schemas/state_machine.py) over the state
    vocabularies of schemas/project.py. */
module Lifecycle {

  datatype Option<+T> = None | Some(value: T)

  datatype ProjectState =
    | Queued | Planning | AwaitingApproval | Building | Replanning
    | Integration | Done | Blocked | Killed

  datatype MilestoneState = Pending | Building | Done | Failed

  function ProjectSuccessors(src: ProjectState): set<ProjectState> {
    match src
    case Queued => {Planning, Blocked, Killed}
    case Planning => {AwaitingApproval, ProjectState.Building, Blocked, Killed}
    case AwaitingApproval => {ProjectState.Building, Blocked, Killed}
    case Building => {Replanning, Integration, Blocked, Killed}
    case Replanning => {ProjectState.Building, Integration, Blocked, Killed}
    case Integration => {ProjectState.Done, Blocked, Killed}
    case Blocked => {ProjectState.Building, Planning, Killed}
    case Done => {}
    case Killed => {}
  }

  function MilestoneSuccessors(src: MilestoneState): set<MilestoneState> {
    match src
    case Pending => {MilestoneState.Building, Failed}
    case Building => {MilestoneState.Done, Failed, Pending}
    case Failed => {MilestoneState.Building, Failed}
    case Done => {}
  }

  predicate LegalProject(src: ProjectState, dst: ProjectState) {
    dst in ProjectSuccessors(src)
  }

  /** The table read backwards: what a project can have been. */
  lemma Predecessors(src: ProjectState, dst: ProjectState)
    ensures LegalProject(src, dst) <==>
      match dst
      case Queued => false
      case Planning => src.Queued? || src.Blocked?
      case AwaitingApproval => src.Planning?
      case Building => src.Planning? || src.AwaitingApproval? || src.Replanning? || src.Blocked?
      case Replanning => src.Building?
      case Integration => src.Building? || src.Replanning?
      case Done => src.Integration?
      case Blocked => !src.Blocked? && !src.Done? && !src.Killed?
      case Killed => !src.Done? && !src.Killed?
  {
  }

  lemma MilestonePredecessors(src: MilestoneState, dst: MilestoneState)
    ensures LegalMilestone(src, dst) <==>
      match dst
      case Pending => src.Building?
      case Building => src.Pending? || src.Failed?
      case Done => src.Building?
      case Failed => !src.Done?
  {
  }

  predicate LegalMilestone(src: MilestoneState, dst: MilestoneState) {
    dst in MilestoneSuccessors(src)
  }

  /** The states from which a pool worker may take a project. */
  predicate Advanceable(s: ProjectState) {
    s.Queued? || s.Planning? || s.Building? || s.Replanning? || s.Integration?
  }
}
