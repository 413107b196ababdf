/** The frozen lifecycle graph of one optimization run. */
module Lifecycle {

  /** A worker process of the control plane. */
  type WorkerId = nat

  datatype RunStatus =
    | CREATED | SNAPSHOTTING | DIAGNOSING | GENERATING_CANDIDATES | RANKING | CALIBRATING | EVALUATING
    | ADMISSION | ADMITTED | APPROVAL_PENDING | APPROVED | DEPLOYING | DEPLOYED | MONITORING
    | COMPLETED | ROLLED_BACK | ROLLBACK_BLOCKED | FAILED

  /** The edges of the graph; every unfinished run may also fail. */
  predicate ValidTransition(current: RunStatus, next: RunStatus) {
    match current
    case CREATED => next == SNAPSHOTTING || next == FAILED
    case SNAPSHOTTING => next == DIAGNOSING || next == FAILED
    case DIAGNOSING => next == GENERATING_CANDIDATES || next == FAILED
    case GENERATING_CANDIDATES => next == RANKING || next == COMPLETED || next == FAILED
    case RANKING => next == CALIBRATING || next == FAILED
    case CALIBRATING => next == EVALUATING || next == FAILED
    case EVALUATING => next == ADMISSION || next == FAILED
    case ADMISSION => next == ADMITTED || next == COMPLETED || next == FAILED
    case ADMITTED => next == APPROVAL_PENDING || next == APPROVED || next == FAILED
    case APPROVAL_PENDING => next == APPROVED || next == COMPLETED || next == FAILED
    case APPROVED => next == DEPLOYING || next == FAILED
    case DEPLOYING => next == DEPLOYED || next == FAILED
    case DEPLOYED => next == MONITORING || next == ROLLED_BACK || next == ROLLBACK_BLOCKED || next == FAILED
    case MONITORING => next == COMPLETED || next == ROLLED_BACK || next == ROLLBACK_BLOCKED || next == FAILED
    case COMPLETED => false
    case ROLLED_BACK => false
    case ROLLBACK_BLOCKED => false
    case FAILED => false
  }

  /** Statuses only a finished deployment leads to. */
  predicate DeployedOrLater(s: RunStatus) {
    s == DEPLOYED || s == MONITORING || s == COMPLETED || s == ROLLED_BACK || s == ROLLBACK_BLOCKED
  }

  /** Statuses an approved run can have. */
  predicate ApprovedOrLater(s: RunStatus) {
    s == APPROVED || s == DEPLOYING || s == FAILED || DeployedOrLater(s)
  }

  /** The graph by its targets: every status is entered from exactly these, only an unfinished run may fail,
      and nothing leaves a finished one. */
  lemma EnteredFrom(s: RunStatus, t: RunStatus)
    ensures ValidTransition(s, t) <==>
            match t
            case CREATED => false
            case SNAPSHOTTING => s == CREATED
            case DIAGNOSING => s == SNAPSHOTTING
            case GENERATING_CANDIDATES => s == DIAGNOSING
            case RANKING => s == GENERATING_CANDIDATES
            case CALIBRATING => s == RANKING
            case EVALUATING => s == CALIBRATING
            case ADMISSION => s == EVALUATING
            case ADMITTED => s == ADMISSION
            case APPROVAL_PENDING => s == ADMITTED
            case APPROVED => s == ADMITTED || s == APPROVAL_PENDING
            case DEPLOYING => s == APPROVED
            case DEPLOYED => s == DEPLOYING
            case MONITORING => s == DEPLOYED
            case COMPLETED => s == GENERATING_CANDIDATES || s == ADMISSION || s == APPROVAL_PENDING || s == MONITORING
            case ROLLED_BACK => s == DEPLOYED || s == MONITORING
            case ROLLBACK_BLOCKED => s == DEPLOYED || s == MONITORING
            case FAILED => s != COMPLETED && s != ROLLED_BACK && s != ROLLBACK_BLOCKED && s != FAILED
  {
  }
}
