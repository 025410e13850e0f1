/** The Command and Attempt lifecycles (backend/internal/domain/lifecycle.go). */
module Lifecycle {

  datatype CommandStatus = Queued | Sent | Acked | Success | Failed | Timeout | Cancelled

  datatype AttemptPhase = Claimed | Dispatching | Completed

  datatype Confirmation = Unconfirmed | TransportSent | ProviderAccepted | DeviceAcked | DeviceFinal

  datatype Evidence = NoEvidence | Verified | Unverified

  predicate CanTransitionCommand(from: CommandStatus, to: CommandStatus)
  {
    match from
    case Queued => to.Sent? || to.Cancelled? || to.Failed? || to.Timeout?
    case Sent => to.Acked? || to.Success? || to.Failed? || to.Timeout?
    case Acked => to.Success? || to.Failed? || to.Timeout?
    case _ => false
  }

  predicate IsTerminal(status: CommandStatus)
  {
    status.Success? || status.Failed? || status.Timeout? || status.Cancelled?
  }

  predicate CanTransitionAttempt(from: AttemptPhase, to: AttemptPhase)
  {
    || (from.Claimed? && (to.Dispatching? || to.Completed?))
    || (from.Dispatching? && to.Completed?)
  }

  function ConfirmationRank(level: Confirmation): (rank: nat)
  {
    match level
    case Unconfirmed => 0
    case TransportSent => 1
    case ProviderAccepted => 2
    case DeviceAcked => 3
    case DeviceFinal => 4
  }

  predicate CanAdvanceConfirmation(from: Confirmation, to: Confirmation)
  {
    ConfirmationRank(to) >= ConfirmationRank(from)
  }

  /**
   * The table row by row: a queued Command is sent or ends undispatched, a sent one is acknowledged
   * or ends, an acknowledged one ends; what ended is one of four.
   */
  lemma TableRows(from: CommandStatus, to: CommandStatus)
    ensures CanTransitionCommand(from, to) <==>
              (from, to) in {(Queued, Sent), (Queued, Cancelled), (Queued, Failed), (Queued, Timeout),
                             (Sent, Acked), (Sent, Success), (Sent, Failed), (Sent, Timeout),
                             (Acked, Success), (Acked, Failed), (Acked, Timeout)}
    ensures IsTerminal(from) <==> forall next :: !CanTransitionCommand(from, next)
  {
    assert !IsTerminal(from) ==> CanTransitionCommand(from, Timeout);
  }

  /** Attempts only go forward, and confirmation never goes back along its five levels. */
  lemma LevelRows(from: AttemptPhase, to: AttemptPhase, level: Confirmation, next: Confirmation)
    ensures CanTransitionAttempt(from, to) <==>
              (from, to) in {(Claimed, Dispatching), (Claimed, Completed), (Dispatching, Completed)}
    ensures CanAdvanceConfirmation(level, next) <==>
              || next == level || next == DeviceFinal || level == Unconfirmed
              || (level == TransportSent && next != Unconfirmed)
              || (level == ProviderAccepted && next == DeviceAcked)
  {
  }

  /** How far a status lies along the transition table. */
  function Depth(status: CommandStatus): (depth: nat)
  {
    match status
    case Queued => 0
    case Sent => 1
    case Acked => 2
    case _ => 3
  }

  /** `path` is a walk of the transition table: every step of it is declared there. */
  ghost predicate Walk(path: seq<CommandStatus>)
  {
    forall i :: 0 <= i < |path| - 1 ==> CanTransitionCommand(path[i], path[i + 1])
  }

  /** The table has no cycle, so no walk visits a status twice and none is longer than four. */
  lemma {:induction false} WalkNeverRepeats(path: seq<CommandStatus>, i: nat, j: nat)
    requires Walk(path)
    requires i < j < |path|
    ensures Depth(path[i]) + (j - i) <= Depth(path[j])
    ensures path[i] != path[j]
    decreases j - i
  {
    assert CanTransitionCommand(path[j - 1], path[j]);
    if i == j - 1 {
    } else {
      WalkNeverRepeats(path, i, j - 1);
    }
  }

  lemma WalkIsShort(path: seq<CommandStatus>)
    requires Walk(path)
    ensures |path| <= 4
    ensures forall i :: 0 <= i < |path| - 1 ==> !IsTerminal(path[i])
  {
    if |path| >= 2 {
      WalkNeverRepeats(path, 0, |path| - 1);
    }
    forall i | 0 <= i < |path| - 1
      ensures !IsTerminal(path[i])
    {
      assert CanTransitionCommand(path[i], path[i + 1]);
    }
  }
}
