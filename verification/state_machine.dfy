/** The phase state machine (server/src/game/StateMachine.ts): a fixed table of
    allowed phase changes, the current phase and the history of phases
    entered. An illegal change throws in the source; here it is either ruled
    out by a precondition (TransitionTo) or reported as a value
    (AttemptTransition). */
module StateMachine {
  import opened Wrappers
  import opened Types

  /** VALID_TRANSITIONS: the phases each phase may move to. */
  function Successors(p: Phase): (next: seq<Phase>)
    ensures |next| <= 3
    ensures forall i, j :: 0 <= i < j < |next| ==> next[i] != next[j]
    ensures next == [] <==> p == MatchEnd
    ensures p in next <==> p == TrickPlay || p == VakkaiPlay
  {
    match p
    case WaitingForPlayers => [ReadyCheck]
    case ReadyCheck => [InitialToss, WaitingForPlayers]
    case InitialToss => [DealingFirst]
    case DealingFirst => [VakkaiDecision]
    case VakkaiDecision => [HukumSelection, VakkaiPlay]
    case HukumSelection => [DealingSecond]
    case DealingSecond => [TrickPlay]
    case TrickPlay => [TrickPlay, HandEnd, MatchEnd]
    case VakkaiPlay => [VakkaiPlay, HandEnd, MatchEnd]
    case HandEnd => [DealerSelection, MatchEnd]
    case DealerSelection => [DealingFirst]
    case MatchEnd => []
  }

  /** Whether the table allows moving from one phase to another, read off
      the table row by row. */
  predicate CanTransition(from: Phase, to: Phase)
  {
    match from
    case WaitingForPlayers => to == ReadyCheck
    case ReadyCheck => to == InitialToss || to == WaitingForPlayers
    case InitialToss => to == DealingFirst
    case DealingFirst => to == VakkaiDecision
    case VakkaiDecision => to == HukumSelection || to == VakkaiPlay
    case HukumSelection => to == DealingSecond
    case DealingSecond => to == TrickPlay
    case TrickPlay => to == TrickPlay || to == HandEnd || to == MatchEnd
    case VakkaiPlay => to == VakkaiPlay || to == HandEnd || to == MatchEnd
    case HandEnd => to == DealerSelection || to == MatchEnd
    case DealerSelection => to == DealingFirst
    case MatchEnd => false
  }

  /** The row-by-row reading agrees with the table: a phase may move to
      exactly the phases listed for it. */
  lemma CanTransitionReadsTheTable(from: Phase, to: Phase)
    ensures CanTransition(from, to) <==> to in Successors(from)
  {
  }

  /** MATCH_END is the one phase the table lets nothing leave; every other
      phase has a way out. */
  lemma MatchEndIsTheOnlyDeadEnd(p: Phase)
    ensures |Successors(p)| == 0 <==> p == MatchEnd
    ensures forall q :: !CanTransition(MatchEnd, q)
    ensures p != MatchEnd ==> CanTransition(p, Successors(p)[0])
  {
    forall q ensures !CanTransition(MatchEnd, q) {
      CanTransitionReadsTheTable(MatchEnd, q);
    }
  }

  /** Only the two play phases may be re-entered (one trick after another);
      dealing the first half is entered only from the toss or from dealer
      selection, and leads only to the Vakkai decision. */
  lemma TableShape(p: Phase, q: Phase)
    ensures CanTransition(p, p) <==> p == TrickPlay || p == VakkaiPlay
    ensures CanTransition(q, DealingFirst) <==> q == InitialToss || q == DealerSelection
    ensures CanTransition(DealingFirst, q) <==> q == VakkaiDecision
    ensures CanTransition(q, ReadyCheck) <==> q == WaitingForPlayers
  {
  }

  /** The one way into each step of setting up a hand: the phase each of
      them may be entered from. */
  lemma Predecessors(p: Phase)
    ensures CanTransition(p, ReadyCheck) <==> p == WaitingForPlayers
    ensures CanTransition(p, InitialToss) <==> p == ReadyCheck
    ensures CanTransition(p, VakkaiDecision) <==> p == DealingFirst
    ensures CanTransition(p, HukumSelection) <==> p == VakkaiDecision
    ensures CanTransition(p, DealingSecond) <==> p == HukumSelection
    ensures CanTransition(p, DealerSelection) <==> p == HandEnd
  {
  }

  /** A path of phases in which every step is a table edge. */
  predicate Lawful(path: seq<Phase>)
  {
    forall i :: 0 <= i < |path| - 1 ==> CanTransition(path[i], path[i + 1])
  }

  /** A whole match can be played along the table: a normal hand, then a
      Vakkai hand that ends the match. */
  lemma TableAllowsAFullMatch()
    ensures Lawful([WaitingForPlayers, ReadyCheck, InitialToss, DealingFirst, VakkaiDecision,
                    HukumSelection, DealingSecond, TrickPlay, TrickPlay, HandEnd, DealerSelection,
                    DealingFirst, VakkaiDecision, VakkaiPlay, MatchEnd])
  {
    var lobby := [WaitingForPlayers, ReadyCheck, InitialToss];
    var hand := [DealingFirst, VakkaiDecision, HukumSelection, DealingSecond, TrickPlay, TrickPlay, HandEnd, DealerSelection];
    var vakkai := [DealingFirst, VakkaiDecision, VakkaiPlay, MatchEnd];
    LawfulJoin(lobby, hand);
    LawfulJoin(lobby + hand, vakkai);
    assert lobby + hand + vakkai == [WaitingForPlayers, ReadyCheck, InitialToss, DealingFirst, VakkaiDecision,
                    HukumSelection, DealingSecond, TrickPlay, TrickPlay, HandEnd, DealerSelection,
                    DealingFirst, VakkaiDecision, VakkaiPlay, MatchEnd];
  }

  /** Two lawful paths joined by a table edge make a lawful path. */
  lemma LawfulJoin(p: seq<Phase>, q: seq<Phase>)
    requires Lawful(p) && Lawful(q) && |p| > 0 && |q| > 0 && CanTransition(p[|p| - 1], q[0])
    ensures Lawful(p + q)
  {
    forall i | 0 <= i < |p + q| - 1 ensures CanTransition((p + q)[i], (p + q)[i + 1]) {
      if i + 1 < |p| {
        assert (p + q)[i] == p[i] && (p + q)[i + 1] == p[i + 1];
      } else if i + 1 == |p| {
        assert (p + q)[i] == p[|p| - 1] && (p + q)[i + 1] == q[0];
      } else {
        assert (p + q)[i] == q[i - |p|] && (p + q)[i + 1] == q[i - |p| + 1];
      }
    }
  }

  datatype Machine = Machine(phase: Phase, history: seq<Phase>)

  /** The history is never empty and ends with the current phase. */
  predicate Valid(m: Machine)
  {
    |m.history| > 0 && m.history[|m.history| - 1] == m.phase
  }

  /** The constructor: the given phase, which is also the whole history. */
  function NewMachine(initial: Phase): (m: Machine)
    ensures m.phase == initial && m.history == [initial]
    ensures Valid(m) && Lawful(m.history)
  {
    Machine(initial, [initial])
  }

  /** canTransitionTo: the table's verdict for the current phase. */
  function CanTransitionTo(m: Machine, next: Phase): (ok: bool)
    ensures ok <==> next in Successors(m.phase)
  {
    CanTransitionReadsTheTable(m.phase, next);
    CanTransition(m.phase, next)
  }

  /** transitionTo along a table edge: the phase moves and is recorded. */
  function TransitionTo(m: Machine, next: Phase): (m': Machine)
    requires CanTransition(m.phase, next)
    ensures m'.phase == next && m'.history == m.history + [next]
    ensures Valid(m')
    ensures Valid(m) && Lawful(m.history) ==> Lawful(m'.history)
  {
    Machine(next, m.history + [next])
  }

  datatype TransitionError = InvalidTransition(from: Phase, to: Phase)

  /** transitionTo as the source runs it: an edge outside the table throws
      and leaves phase and history as they were. */
  function AttemptTransition(m: Machine, next: Phase): (r: Result<Machine, TransitionError>)
    ensures r.Success? <==> CanTransition(m.phase, next)
    ensures r.Success? ==> r.value == TransitionTo(m, next)
    ensures r.Failure? ==> r.error == InvalidTransition(m.phase, next)
  {
    if CanTransition(m.phase, next) then Success(TransitionTo(m, next))
    else Failure(InvalidTransition(m.phase, next))
  }

  /** Once at MATCH_END, every transition attempt fails. */
  lemma NoWayOutOfMatchEnd(m: Machine, next: Phase)
    requires m.phase == MatchEnd
    ensures AttemptTransition(m, next).Failure?
  {
  }

  /** forcePhase: any phase, unconditionally, still recorded in the history. */
  function ForcePhase(m: Machine, p: Phase): (m': Machine)
    ensures m'.phase == p && m'.history == m.history + [p]
    ensures Valid(m')
  {
    Machine(p, m.history + [p])
  }

  /** Forcing a phase can leave the table: the history of a forced jump from
      HAND_END to DEALING_FIRST is no longer lawful. */
  lemma ForcedJumpBreaksLawfulness(m: Machine)
    requires m.phase == HandEnd && Valid(m)
    ensures !Lawful(ForcePhase(m, DealingFirst).history)
  {
    var h := ForcePhase(m, DealingFirst).history;
    assert h[|h| - 2] == HandEnd && h[|h| - 1] == DealingFirst;
  }

  /** reset: back to WAITING_FOR_PLAYERS with a fresh history. */
  function Reset(m: Machine): (m': Machine)
    ensures m' == NewMachine(WaitingForPlayers)
  {
    Machine(WaitingForPlayers, [WaitingForPlayers])
  }

  /** isTerminal: exactly at MATCH_END, where the table has no way out. */
  function IsTerminal(m: Machine): (t: bool)
    ensures t <==> m.phase == MatchEnd
    ensures t <==> forall q :: !CanTransition(m.phase, q)
  {
    MatchEndIsTheOnlyDeadEnd(m.phase);
    m.phase == MatchEnd
  }

  /** isPlaying: exactly in the two trick-play phases. */
  function IsPlaying(m: Machine): (playing: bool)
    ensures playing <==> m.phase == TrickPlay || m.phase == VakkaiPlay
    ensures playing <==> CanTransition(m.phase, m.phase)
  {
    m.phase in [TrickPlay, VakkaiPlay]
  }
}
