/** Classification of client exceptions, and what the runner does about each class. */
module Errors {

  /** The exception classes the source names; Other stands for everything else. */
  datatype Exc =
    | FloodWait(value: int)
    | PeerFlood
    | AuthKeyUnregistered | UserDeactivated | UserDeactivatedBan | SessionRevoked
    | ChannelPrivate | ChatAdminRequired | UserBannedInChannel | ChatWriteForbidden
    | ChannelInvalid | PeerIdInvalid | UsernameInvalid | UsernameNotOccupied
    | SessionPasswordNeeded
    | Other

  datatype ErrorKind =
    FloodShort | FloodLong | PeerFlooded | AccountDead | GroupPrivate | GroupInvalid | NeedsPassword | Unknown

  function Classify(exc: Exc, floodLongThreshold: int): ErrorKind {
    match exc
    case FloodWait(value) => if value >= floodLongThreshold then FloodLong else FloodShort
    case PeerFlood => PeerFlooded
    case AuthKeyUnregistered => AccountDead
    case UserDeactivated => AccountDead
    case UserDeactivatedBan => AccountDead
    case SessionRevoked => AccountDead
    case ChannelPrivate => GroupPrivate
    case ChatAdminRequired => GroupPrivate
    case UserBannedInChannel => GroupPrivate
    case ChatWriteForbidden => GroupPrivate
    case ChannelInvalid => GroupInvalid
    case PeerIdInvalid => GroupInvalid
    case UsernameInvalid => GroupInvalid
    case UsernameNotOccupied => GroupInvalid
    case SessionPasswordNeeded => NeedsPassword
    case Other => Unknown
  }

  function FloodSeconds(exc: Exc): int {
    if exc.FloodWait? then exc.value else 0
  }

  /** What reaches the account when the runner handles an exception. */
  datatype AccountAction = NoAction | HandleFlood(seconds: int) | MarkBanned(seconds: int) | MarkDead

  /** Which write ends the task's copy. */
  datatype Verdict = Completed | PutBack | Failed | RetriedOrFailed

  function ActionFor(exc: Exc, threshold: int): AccountAction {
    match Classify(exc, threshold)
    case FloodShort => HandleFlood(FloodSeconds(exc))
    case FloodLong => MarkBanned(FloodSeconds(exc))
    case PeerFlooded => MarkBanned(86400)
    case AccountDead => MarkDead
    case _ => NoAction
  }

  function VerdictFor(exc: Exc, threshold: int): Verdict {
    match Classify(exc, threshold)
    case FloodShort => PutBack
    case FloodLong => PutBack
    case PeerFlooded => PutBack
    case AccountDead => PutBack
    case GroupPrivate => Completed
    case GroupInvalid => Failed
    case _ => RetriedOrFailed
  }

  /** Every flood the runner hands to a limiter is short by the limiter's own threshold. */
  lemma {:induction false} DeliveredFloodsAreShort(exc: Exc, threshold: int)
    requires ActionFor(exc, threshold).HandleFlood?
    ensures ActionFor(exc, threshold).seconds < threshold
  {
  }
}
