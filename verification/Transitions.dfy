/** The declared state machines of the control plane: every change not listed is refused. */
module Transitions {

  datatype GenerationStatus = Staging | Active | Superseded | Failed
  datatype JobStatus = Pending | Indexing | Indexed | ActiveIndexed | Failed | DeletePending | Deleted
  datatype VersionStatus =
    | Draft | Validating | Staging | Active | StalePendingReview | Superseded | Quarantined | Failed
  datatype ChangeStatus =
    | Received | Validating | ReviewRequired | PublishIntent | Active | Failed | Quarantined
  datatype RunStatus =
    | Planning | Curating | VaultStaged | Indexing | IndexVerified | VaultPublished | Activating
    | Completed | Failed

  predicate CanMoveGeneration(current: GenerationStatus, target: GenerationStatus) {
    match current
    case Staging => target.Active? || target.Failed?
    case Active => target.Superseded?
    case Superseded => target.Active?
    case Failed => false
  }

  predicate CanMoveJob(current: JobStatus, target: JobStatus) {
    match current
    case Pending => target.Indexing?
    case Indexing => target.Indexed? || target.Failed?
    case Indexed => target.ActiveIndexed?
    case ActiveIndexed => target.DeletePending?
    case DeletePending => target.Deleted? || target.ActiveIndexed?
    case Deleted => target.Pending?
    case Failed => target.Pending?
  }

  predicate CanMoveVersion(current: VersionStatus, target: VersionStatus) {
    match current
    case Draft => target.Validating?
    case Validating => target.Staging? || target.Quarantined? || target.Failed?
    case Staging => target.Active? || target.Quarantined? || target.Failed?
    case Active => target.StalePendingReview? || target.Superseded?
    case StalePendingReview => target.Superseded?
    case _ => false
  }

  predicate CanMoveChange(current: ChangeStatus, target: ChangeStatus) {
    match current
    case Received => target.Validating? || target.Failed? || target.Quarantined?
    case Validating =>
      target.PublishIntent? || target.ReviewRequired? || target.Failed? || target.Quarantined?
    case ReviewRequired => target.PublishIntent? || target.Failed? || target.Quarantined?
    case PublishIntent => target.Active? || target.Failed? || target.Quarantined?
    case _ => false
  }

  predicate CanMoveRun(current: RunStatus, target: RunStatus) {
    match current
    case Planning => target.Curating? || target.Failed?
    case Curating => target.VaultStaged? || target.Failed?
    case VaultStaged => target.Indexing? || target.Failed?
    case Indexing => target.IndexVerified? || target.Failed?
    case IndexVerified => target.VaultPublished? || target.Failed?
    case VaultPublished => target.Activating? || target.Failed?
    case Activating => target.Completed? || target.Failed?
    case Completed => false
    case Failed => !target.Planning? && !target.Completed? && !target.Failed?
  }

  // ---- The same machines, told by where a status can come from ----

  lemma GenerationComesFrom(current: GenerationStatus, target: GenerationStatus)
    ensures CanMoveGeneration(current, target) <==>
      match target
      case Staging => false
      case Active => current.Staging? || current.Superseded?
      case Superseded => current.Active?
      case Failed => current.Staging?
  {
  }

  lemma JobComesFrom(current: JobStatus, target: JobStatus)
    ensures CanMoveJob(current, target) <==>
      match target
      case Pending => current.Deleted? || current.Failed?
      case Indexing => current.Pending?
      case Indexed => current.Indexing?
      case ActiveIndexed => current.Indexed? || current.DeletePending?
      case Failed => current.Indexing?
      case DeletePending => current.ActiveIndexed?
      case Deleted => current.DeletePending?
  {
  }

  lemma VersionComesFrom(current: VersionStatus, target: VersionStatus)
    ensures CanMoveVersion(current, target) <==>
      match target
      case Draft => false
      case Validating => current.Draft?
      case Staging => current.Validating?
      case Active => current.Staging?
      case StalePendingReview => current.Active?
      case Superseded => current.Active? || current.StalePendingReview?
      case Quarantined => current.Validating? || current.Staging?
      case Failed => current.Validating? || current.Staging?
  {
  }

  lemma ChangeComesFrom(current: ChangeStatus, target: ChangeStatus)
    ensures CanMoveChange(current, target) <==>
      match target
      case Received => false
      case Validating => current.Received?
      case ReviewRequired => current.Validating?
      case PublishIntent => current.Validating? || current.ReviewRequired?
      case Active => current.PublishIntent?
      case _ => current.Received? || current.Validating? || current.ReviewRequired?
                || current.PublishIntent?
  {
  }

  // A failed run can be taken up again at any step after the planning.
  lemma RunComesFrom(current: RunStatus, target: RunStatus)
    ensures CanMoveRun(current, target) <==>
      match target
      case Planning => false
      case Curating => current.Planning? || current.Failed?
      case VaultStaged => current.Curating? || current.Failed?
      case Indexing => current.VaultStaged? || current.Failed?
      case IndexVerified => current.Indexing? || current.Failed?
      case VaultPublished => current.IndexVerified? || current.Failed?
      case Activating => current.VaultPublished? || current.Failed?
      case Completed => current.Activating?
      case Failed => !current.Completed? && !current.Failed?
  {
  }
}
