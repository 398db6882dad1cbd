/** The transition table of a hedge group. */
module StateMachine {

  datatype HedgeState =
    | New | Planning | Submitting | Hedging
    | Completed | FailedNeedsRepair | Repairing | Aborted

  function Successors(from: HedgeState): set<HedgeState> {
    match from
    case New => {Planning, Aborted}
    case Planning => {Submitting, Aborted}
    case Submitting => {Hedging, FailedNeedsRepair, Aborted}
    case Hedging => {Completed, FailedNeedsRepair, Aborted}
    case FailedNeedsRepair => {HedgeState.Repairing, Aborted}
    case Repairing => {Completed, FailedNeedsRepair, Aborted}
    case Completed => {}
    case Aborted => {}
  }

  predicate CanTransition(from: HedgeState, to: HedgeState) {
    to in Successors(from)
  }

  predicate Terminal(state: HedgeState) {
    state.Completed? || state.Aborted?
  }

  /** How many table steps away from a terminal state a group can still be without repairs. */
  function Stage(s: HedgeState): nat {
    match s
    case New => 0
    case Planning => 1
    case Submitting => 2
    case Hedging => 3
    case FailedNeedsRepair => 4
    case Repairing => 4
    case Completed => 5
    case Aborted => 5
  }

  /** A terminal state is exactly one without successors, and every edge of the table moves forward
      except the repair cycle between FailedNeedsRepair and Repairing. */
  lemma TableShape(from: HedgeState, to: HedgeState)
    ensures Terminal(from) <==> Successors(from) == {}
    ensures CanTransition(from, to) ==>
              Stage(from) < Stage(to) || {from, to} == {FailedNeedsRepair, HedgeState.Repairing}
  {
    match from {
      case New => assert Planning in Successors(from);
      case Planning => assert Submitting in Successors(from);
      case Submitting => assert Hedging in Successors(from);
      case Hedging => assert Completed in Successors(from);
      case FailedNeedsRepair => assert Aborted in Successors(from);
      case Repairing => assert Completed in Successors(from);
      case Completed =>
      case Aborted =>
    }
  }

  /** The whole table: a group moves on to submission and hedging one step at a time, fails from
      submission, hedging or repair, completes from hedging or repair, is repaired only once failed,
      and aborts from anywhere it can still move. */
  lemma TableEdges(from: HedgeState, to: HedgeState)
    ensures
      CanTransition(from, to) <==>
      || (from, to) in {(New, Planning), (Planning, Submitting), (Submitting, Hedging)}
      || (to.FailedNeedsRepair? && from in {Submitting, Hedging, HedgeState.Repairing})
      || (to.Completed? && from in {Hedging, HedgeState.Repairing})
      || (to == HedgeState.Repairing && from.FailedNeedsRepair?)
      || (to.Aborted? && !from.Completed? && !from.Aborted?)
  {
    match from {
      case New => assert CanTransition(from, to) <==> to in {Planning, Aborted};
      case Planning => assert CanTransition(from, to) <==> to in {Submitting, Aborted};
      case Submitting => assert CanTransition(from, to) <==> to in {Hedging, FailedNeedsRepair, Aborted};
      case Hedging => assert CanTransition(from, to) <==> to in {Completed, FailedNeedsRepair, Aborted};
      case FailedNeedsRepair => assert CanTransition(from, to) <==> to in {HedgeState.Repairing, Aborted};
      case Repairing => assert CanTransition(from, to) <==> to in {Completed, FailedNeedsRepair, Aborted};
      case Completed =>
      case Aborted =>
    }
  }
}
