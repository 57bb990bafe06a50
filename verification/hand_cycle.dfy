/** Between hands and between matches (server/src/game/GameState.ts,
    transitionToDealerSelection, selectDealer, resetForNewHand, resetMatch).
    Two of these cannot run as written: selectDealer forces the machine to
    DEALING_FIRST and then asks the table for DEALING_FIRST again, and
    resetMatch asks for READY_CHECK from MATCH_END. Each is modelled as
    written, with the transition failure as a value, next to a corrected
    version that the rest of the model would use. */
module HandCycle {
  import opened Wrappers
  import opened Types
  import opened Deck
  import opened Scoring
  import opened GameEngine
  import opened Dealing
  import StateMachine

  // ---------------------------------------------------------------- dealer selection

  /** transitionToDealerSelection: from HAND_END the phase moves on to
      DEALER_SELECTION; in any other phase nothing happens. */
  function TransitionToDealerSelection(e: Engine): (e': Engine)
    requires PhasesAgree(e)
    ensures e.game.phase != HandEnd ==> e' == e
    ensures e.game.phase == HandEnd ==>
      && e'.game == e.game.(phase := DealerSelection)
      && e'.machine.history == e.machine.history + [DealerSelection]
      && e'.players == e.players && e'.deck == e.deck && e'.remainingDeck == e.remainingDeck
    ensures PhasesAgree(e')
  {
    if e.game.phase != HandEnd then e
    else e.(machine := StateMachine.TransitionTo(e.machine, DealerSelection),
            game := e.game.(phase := DealerSelection))
  }

  lemma TransitionToDealerSelectionKeepsValid(e: Engine)
    requires Valid(e)
    ensures Valid(TransitionToDealerSelection(e))
  {
  }

  /** Why selectDealer returns false without changing anything. */
  datatype DealerError = NotBetweenHands | UnknownPlayer | NotOnChoosingTeam

  /** The checks selectDealer makes before it changes anything: the phase is
      HAND_END or DEALER_SELECTION, the player exists, and the player is on
      the team getDealerChoosingTeam names. */
  function DealerRefusal(e: Engine, dealerId: PlayerId): (err: Option<DealerError>)
    ensures err.None? <==>
      && (e.game.phase == HandEnd || e.game.phase == DealerSelection)
      && Known(e.players, dealerId)
      && PlayerWith(e.players, dealerId).team == GetDealerChoosingTeam(e.game.score)
  {
    if e.game.phase != HandEnd && e.game.phase != DealerSelection then Some(NotBetweenHands)
    else if !Known(e.players, dealerId) then Some(UnknownPlayer)
    else if PlayerWith(e.players, dealerId).team != GetDealerChoosingTeam(e.game.score) then Some(NotOnChoosingTeam)
    else None
  }

  /** Every player's hand emptied. */
  function ClearHands(ps: seq<Player>): (qs: seq<Player>)
    ensures SameSeating(ps, qs)
    ensures forall i :: 0 <= i < |qs| ==> qs[i] == ps[i].(hand := [])
  {
    seq(|ps|, i requires 0 <= i < |ps| => ps[i].(hand := []))
  }

  /** The dealer is named, the trump chooser is the player in the next seat,
      and resetForNewHand's bookkeeping is done: no Vakkai, no decisions, no
      trump, an empty trick, no tricks counted and every hand empty. The
      machine is not touched. */
  function PrepareHand(e: Engine, dealerId: PlayerId): (e': Engine)
    requires Full(e.players) && Known(e.players, dealerId)
    ensures e'.machine == e.machine && e'.deck == e.deck && e'.remainingDeck == e.remainingDeck
    ensures SameSeating(e.players, e'.players) && Full(e'.players) && Known(e'.players, dealerId)
    ensures forall i :: 0 <= i < |e'.players| ==> e'.players[i].hand == []
    ensures e'.game == e.game.(dealerId := Some(dealerId), trumpChooserId := Some(NextPlayer(e.players, dealerId)),
                               vakkai := VakkaiState(false, None, 0), vakkaiDecisionIndex := 0, trumpSuit := None,
                               currentTrick := TrickState([], None, None), trickCounts := PerTeam(0, 0))
  {
    var qs := ClearHands(e.players);
    SameSeatingKeepsRoster(e.players, qs);
    var g := e.game.(dealerId := Some(dealerId), trumpChooserId := Some(NextPlayer(e.players, dealerId)),
                     vakkai := VakkaiState(false, None, 0), vakkaiDecisionIndex := 0, trumpSuit := None,
                     currentTrick := TrickState([], None, None), trickCounts := PerTeam(0, 0));
    e.(players := qs, game := g)
  }

  /** selectDealer with the phase change the table allows: refused (and
      nothing changes) unless the checks pass; otherwise the hand is
      prepared, HAND_END moves on to DEALER_SELECTION, and the first half is
      dealt from there. */
  function SelectDealer(e: Engine, dealerId: PlayerId, swaps: seq<nat>): (r: Result<Engine, DealerError>)
    requires Operable(e) && ValidSwaps(swaps, 32)
    ensures r.Failure? <==> DealerRefusal(e, dealerId).Some?
    ensures r.Failure? ==> r.error == DealerRefusal(e, dealerId).value
  {
    var refusal := DealerRefusal(e, dealerId);
    if refusal.Some? then Failure(refusal.value) else Success(StartHand(e, dealerId, swaps))
  }

  /** The accepted branch of selectDealer: from DEALER_SELECTION (entered
      from HAND_END if need be) the hand is prepared and the first half
      dealt. */
  function StartHand(e: Engine, dealerId: PlayerId, swaps: seq<nat>): (e': Engine)
    requires Operable(e) && ValidSwaps(swaps, 32) && DealerRefusal(e, dealerId).None?
    ensures PhasesAgree(e') && e'.game.phase == VakkaiDecision && e'.game.dealerId == Some(dealerId)
  {
    var e0 := TransitionToDealerSelection(e);
    var e1 := PrepareHand(e0, dealerId);
    StateMachine.TableShape(DealerSelection, e1.machine.phase);
    DealFirstHalf(e1, swaps)
  }

  /** Who sits in the next seat depends only on the seating. */
  lemma NextPlayerUnderSameSeating(ps: seq<Player>, qs: seq<Player>, id: PlayerId)
    requires Full(ps) && SameSeating(ps, qs) && Known(ps, id)
    ensures Full(qs) && Known(qs, id) && NextPlayer(qs, id) == NextPlayer(ps, id)
  {
    SameSeatingKeepsPlaces(ps, qs);
    SameSeatingKeepsRoster(ps, qs);
  }

  /** The engine an accepted selectDealer returns, step by step. */
  lemma SelectDealerSteps(e: Engine, dealerId: PlayerId, swaps: seq<nat>)
    requires Operable(e) && ValidSwaps(swaps, 32) && DealerRefusal(e, dealerId).None?
    ensures var e0 := TransitionToDealerSelection(e);
      && e0.players == e.players && e0.game == e.game.(phase := DealerSelection)
      && e0.machine.phase == DealerSelection && Full(e0.players) && Known(e0.players, dealerId)
      && PrepareHand(e0, dealerId).machine.phase == DealerSelection
      && StateMachine.CanTransition(PrepareHand(e0, dealerId).machine.phase, DealingFirst)
      && SelectDealer(e, dealerId, swaps) == Success(StartHand(e, dealerId, swaps))
      && StartHand(e, dealerId, swaps) == DealFirstHalf(PrepareHand(e0, dealerId), swaps)
  {
    StateMachine.TableShape(DealerSelection, DealerSelection);
  }

  /** An accepted selectDealer records the way through DEALER_SELECTION and
      DEALING_FIRST to the Vakkai decision. */
  lemma SelectDealerRecordsThePhases(e: Engine, dealerId: PlayerId, swaps: seq<nat>)
    requires Operable(e) && ValidSwaps(swaps, 32) && SelectDealer(e, dealerId, swaps).Success?
    ensures var e' := SelectDealer(e, dealerId, swaps).value;
      && (e.game.phase == HandEnd ==>
            e'.machine.history == e.machine.history + [DealerSelection] + [DealingFirst] + [VakkaiDecision])
      && (e.game.phase == DealerSelection ==>
            e'.machine.history == e.machine.history + [DealingFirst] + [VakkaiDecision])
  {
    SelectDealerSteps(e, dealerId, swaps);
  }

  /** An accepted selectDealer leaves nothing of the last hand but the
      score: no tricks counted, no trump, no Vakkai, no decisions yet. */
  lemma SelectDealerClearsTheLastHand(e: Engine, dealerId: PlayerId, swaps: seq<nat>)
    requires Operable(e) && ValidSwaps(swaps, 32) && SelectDealer(e, dealerId, swaps).Success?
    ensures var e' := SelectDealer(e, dealerId, swaps).value;
      && e'.game.score == e.game.score
      && e'.game.trickCounts == PerTeam(0, 0) && e'.game.trumpSuit.None?
      && e'.game.vakkai == VakkaiState(false, None, 0) && e'.game.vakkaiDecisionIndex == 0
  {
    SelectDealerSteps(e, dealerId, swaps);
  }

  /** An accepted selectDealer deals the first half of a fresh shuffle to
      the same seating. */
  lemma SelectDealerDealsAFreshHand(e: Engine, dealerId: PlayerId, swaps: seq<nat>)
    requires Operable(e) && ValidSwaps(swaps, 32) && SelectDealer(e, dealerId, swaps).Success?
    ensures var e' := SelectDealer(e, dealerId, swaps).value;
      && SameSeating(e.players, e'.players) && Full(e'.players)
      && e'.deck == ShuffleDeck(CreateDeck(), swaps)
      && HandsBySeat(e'.players) == FourEach(e'.deck) && e'.remainingDeck == e'.deck[16..]
  {
    SelectDealerSteps(e, dealerId, swaps);
    var e1 := PrepareHand(TransitionToDealerSelection(e), dealerId);
    var e' := DealFirstHalf(e1, swaps);
    SameSeatingChains(e.players, e1.players, e'.players);
  }

  /** An accepted selectDealer makes the player in the seat after the new
      dealer the trump chooser, and the Vakkai decision opens with them. */
  lemma SelectDealerOpensWithTheTrumpChooser(e: Engine, dealerId: PlayerId, swaps: seq<nat>)
    requires Operable(e) && ValidSwaps(swaps, 32) && SelectDealer(e, dealerId, swaps).Success?
    ensures Full(e.players) && Known(e.players, dealerId)
    ensures var e' := SelectDealer(e, dealerId, swaps).value;
      && e'.game.trumpChooserId == Some(NextPlayer(e.players, dealerId))
      && e'.game.currentTurnId == e'.game.trumpChooserId
  {
    SelectDealerSteps(e, dealerId, swaps);
    var e1 := PrepareHand(TransitionToDealerSelection(e), dealerId);
    NextPlayerUnderSameSeating(e.players, e1.players, dealerId);
  }

  /** The corrected selectDealer keeps the engine invariant. */
  lemma SelectDealerKeepsValid(e: Engine, dealerId: PlayerId, swaps: seq<nat>)
    requires Valid(e) && ValidSwaps(swaps, 32)
    ensures SelectDealer(e, dealerId, swaps).Success? ==> Valid(SelectDealer(e, dealerId, swaps).value)
  {
    if DealerRefusal(e, dealerId).None? {
      SelectDealerSteps(e, dealerId, swaps);
      var e0 := TransitionToDealerSelection(e);
      TransitionToDealerSelectionKeepsValid(e);
      PrepareHandKeepsValid(e0, dealerId);
      DealFirstHalfKeepsValid(PrepareHand(e0, dealerId), swaps);
    }
  }

  /** Preparing a hand between hands keeps the engine invariant, and leaves
      no Vakkai active for the first deal. */
  lemma PrepareHandKeepsValid(e: Engine, dealerId: PlayerId)
    requires Valid(e) && Known(e.players, dealerId)
    requires e.game.phase == DealerSelection
    ensures Valid(PrepareHand(e, dealerId)) && !PrepareHand(e, dealerId).game.vakkai.active
  {
    var e1 := PrepareHand(e, dealerId);
    SameSeatingKeepsRoster(e.players, e1.players);
    SameSeatingSameSeats(e.players, e1.players, dealerId);
    SameSeatingSameSeats(e.players, e1.players, NextPlayer(e.players, dealerId));
  }

  /** Under the zero-sum score the dealer comes from the team that is not
      ahead, and the trump chooser, in the next seat, from the other team. */
  lemma NewDealerFromTeamNotAhead(e: Engine, dealerId: PlayerId, swaps: seq<nat>)
    requires Valid(e) && ValidSwaps(swaps, 32) && SelectDealer(e, dealerId, swaps).Success?
    ensures var e' := SelectDealer(e, dealerId, swaps).value;
      && Known(e'.players, dealerId) && e.game.score.Of(PlayerWith(e'.players, dealerId).team) <= 0
      && KnownOpt(e'.players, e'.game.trumpChooserId)
      && PlayerWith(e'.players, e'.game.trumpChooserId.value).team == Opposite(PlayerWith(e'.players, dealerId).team)
  {
    var e' := SelectDealer(e, dealerId, swaps).value;
    SelectDealerOpensWithTheTrumpChooser(e, dealerId, swaps);
    SelectDealerDealsAFreshHand(e, dealerId, swaps);
    DealerAndChooserTeams(e.players, e'.players, dealerId);
  }

  /** On the same seating, the player after a given one is on the other
      team. */
  lemma DealerAndChooserTeams(ps: seq<Player>, qs: seq<Player>, id: PlayerId)
    requires Full(ps) && SameSeating(ps, qs) && Known(ps, id)
    ensures Known(qs, id) && Known(qs, NextPlayer(ps, id))
    ensures PlayerWith(qs, id).team == PlayerWith(ps, id).team
    ensures PlayerWith(qs, NextPlayer(ps, id)).team == Opposite(PlayerWith(ps, id).team)
  {
    var c := NextPlayer(ps, id);
    SameSeatingKeepsRoster(ps, qs);
    SameSeatingSameSearch(ps, qs, 0, id);
    SameSeatingSameSearch(ps, qs, 0, c);
    SeatAndIdAgree(ps, id);
    SeatAndIdAgree(ps, c);
    NextSeatOtherTeam(SeatOf(ps, id));
  }

  /** The seat after any seat is on the other team. */
  lemma NextSeatOtherTeam(s: Seat)
    ensures TeamForSeat(NextSeat(s)) == Opposite(TeamForSeat(s))
  {
    SeatingAlternatesTeams(s);
  }

  /** In a valid engine after the toss, the dealer and the trump chooser
      are players on opposite teams, as are the dealing and trump teams. */
  lemma RolesOnOppositeTeams(e: Engine)
    requires Valid(e) && e.game.phase != WaitingForPlayers && e.game.phase != ReadyCheck
    ensures Known(e.players, e.game.dealerId.value) && Known(e.players, e.game.trumpChooserId.value)
    ensures PlayerWith(e.players, e.game.trumpChooserId.value).team
            == Opposite(PlayerWith(e.players, e.game.dealerId.value).team)
    ensures e.game.trumpTeam.value == Opposite(e.game.dealerTeam.value)
  {
    var d, c := e.game.dealerId.value, e.game.trumpChooserId.value;
    SeatAndIdAgree(e.players, d);
    SeatAndIdAgree(e.players, c);
    NextSeatOtherTeam(SeatOf(e.players, d));
  }

  // ---------------------------------------------------------------- selectDealer as written

  /** How a call as written ends: by returning a flag, or by throwing after
      having changed the engine. */
  datatype Ending = Returned(ok: bool, engine: Engine) | Threw(error: StateMachine.TransitionError, engine: Engine)

  /** dealFirstHalf as written, as the last step of a call: it begins by
      asking the table for DEALING_FIRST, which throws unless the machine's
      phase allows it; otherwise the first half is dealt and the call
      returns true. */
  function DealFirstHalfAsWritten(e: Engine, swaps: seq<nat>): (r: Ending)
    requires Full(e.players) && KnownOpt(e.players, e.game.dealerId) && ValidSwaps(swaps, 32)
    ensures r.Returned? <==> StateMachine.CanTransition(e.machine.phase, DealingFirst)
    ensures r.Returned? ==> r.ok && r.engine.machine.phase == VakkaiDecision
    ensures r.Threw? ==> r == Threw(StateMachine.InvalidTransition(e.machine.phase, DealingFirst), e)
  {
    match StateMachine.AttemptTransition(e.machine, DealingFirst)
    case Failure(err) => Threw(err, e)
    case Success(_) => Returned(true, DealFirstHalf(e, swaps))
  }

  /** selectDealer as written: after the checks, resetForNewHand forces the
      machine to DEALING_FIRST and dealFirstHalf then asks for DEALING_FIRST
      again. */
  function SelectDealerAsWritten(e: Engine, dealerId: PlayerId, swaps: seq<nat>): (r: Ending)
    requires Operable(e) && ValidSwaps(swaps, 32)
    ensures DealerRefusal(e, dealerId).Some? ==> r == Returned(false, e)
    ensures DealerRefusal(e, dealerId).None? ==> r.Threw?
  {
    if DealerRefusal(e, dealerId).Some? then Returned(false, e)
    else
      var e1 := PrepareHand(e, dealerId);
      var e2 := e1.(machine := StateMachine.ForcePhase(e1.machine, DealingFirst));
      StateMachine.TableShape(e2.machine.phase, e2.machine.phase);
      DealFirstHalfAsWritten(e2, swaps)
  }

  /** selectDealer as written never completes: every call that passes the
      checks throws, and leaves the engine with the machine at DEALING_FIRST
      while the game record is still between hands, with the hands emptied
      and nothing dealt. */
  lemma SelectDealerNeverCompletes(e: Engine, dealerId: PlayerId, swaps: seq<nat>)
    requires Operable(e) && ValidSwaps(swaps, 32)
    ensures !SelectDealerAsWritten(e, dealerId, swaps).Returned? || !SelectDealerAsWritten(e, dealerId, swaps).ok
    ensures DealerRefusal(e, dealerId).None? ==>
      var r := SelectDealerAsWritten(e, dealerId, swaps);
      && r == Threw(StateMachine.InvalidTransition(DealingFirst, DealingFirst), r.engine)
      && r.engine.machine.phase == DealingFirst && r.engine.game.phase == e.game.phase
      && !PhasesAgree(r.engine)
      && r.engine.game.dealerId == Some(dealerId)
      && forall i :: 0 <= i < |r.engine.players| ==> r.engine.players[i].hand == []
  {
  }

  // ---------------------------------------------------------------- resetting the match

  /** Every player's hand emptied and ready flag cleared; seat and team stay. */
  function Unready(ps: seq<Player>): (qs: seq<Player>)
    ensures SameSeating(ps, qs)
    ensures forall i :: 0 <= i < |qs| ==> qs[i].hand == [] && !qs[i].isReady
    ensures forall i :: 0 <= i < |qs| ==> qs[i].name == ps[i].name
  {
    seq(|ps|, i requires 0 <= i < |ps| => ps[i].(hand := [], isReady := false))
  }

  /** resetMatch as written: it first asks the table for READY_CHECK, which
      only WAITING_FOR_PLAYERS allows; then a fresh game record at
      READY_CHECK and every player emptied and unready. */
  function ResetMatchAsWritten(e: Engine): (r: Result<Engine, StateMachine.TransitionError>)
    ensures r.Success? <==> e.machine.phase == WaitingForPlayers
    ensures r.Failure? ==> r.error == StateMachine.InvalidTransition(e.machine.phase, ReadyCheck)
  {
    StateMachine.Predecessors(e.machine.phase);
    match StateMachine.AttemptTransition(e.machine, ReadyCheck)
    case Failure(err) => Failure(err)
    case Success(m) =>
      Success(Engine(m, Unready(e.players), InitialGameState().(phase := ReadyCheck), e.deck, e.remainingDeck))
  }

  /** resetMatch as written fails at MATCH_END, the one phase it is called
      from: the table gives MATCH_END no way out. */
  lemma ResetMatchFailsAtMatchEnd(e: Engine)
    requires PhasesAgree(e) && e.game.phase == MatchEnd
    ensures ResetMatchAsWritten(e) == Failure(StateMachine.InvalidTransition(MatchEnd, ReadyCheck))
  {
  }

  /** Where resetMatch as written does complete, from the lobby, it skips the
      seat check that startReadyCheck makes: an empty table reaches the ready
      check and breaks the engine invariant. */
  lemma ResetMatchFromTheLobbySkipsTheSeatCheck()
    ensures var r := ResetMatchAsWritten(NewEngine());
      && r.Success? && r.value.game.phase == ReadyCheck && |r.value.players| == 0
      && !Valid(r.value)
  {
  }

  /** resetMatch corrected: the machine is reset to WAITING_FOR_PLAYERS and
      then moves along the table to READY_CHECK; the game record starts
      afresh at READY_CHECK with a zero score; every player keeps seat and
      team but has an empty hand and is not ready. */
  function ResetMatch(e: Engine): (e': Engine)
    ensures PhasesAgree(e') && e'.game.phase == ReadyCheck
    ensures e'.machine.history == [WaitingForPlayers, ReadyCheck] && StateMachine.Lawful(e'.machine.history)
    ensures e'.game.score == CreateScore() && e'.game.trickCounts == PerTeam(0, 0)
    ensures e'.game.dealerId.None? && e'.game.currentTurnId.None? && !e'.game.vakkai.active
    ensures e'.game.trumpChooserId.None? && e'.game.dealerTeam.None? && e'.game.trumpTeam.None? && e'.game.trumpSuit.None?
    ensures SameSeating(e.players, e'.players)
    ensures forall i :: 0 <= i < |e'.players| ==> e'.players[i].hand == [] && !e'.players[i].isReady
  {
    var m := StateMachine.TransitionTo(StateMachine.Reset(e.machine), ReadyCheck);
    Engine(m, Unready(e.players), InitialGameState().(phase := ReadyCheck), e.deck, e.remainingDeck)
  }

  /** From any phase past the lobby, the corrected resetMatch leaves a valid
      engine ready for a new match. */
  lemma ResetMatchKeepsValid(e: Engine)
    requires Valid(e) && e.game.phase != WaitingForPlayers
    ensures Valid(ResetMatch(e))
  {
    assert Full(e.players);
    ReadyCheckAgainValid(e.players, ResetMatch(e));
  }

  /** A full table with no hand, no roles and a zero score, at the ready
      check, is a valid engine. */
  lemma ReadyCheckAgainValid(ps: seq<Player>, e': Engine)
    requires Full(ps) && SameSeating(ps, e'.players)
    requires PhasesAgree(e') && e'.game.phase == ReadyCheck
    requires e'.game.score == CreateScore() && !e'.game.vakkai.active
    ensures Valid(e')
  {
    SameSeatingKeepsRoster(ps, e'.players);
  }

  /** The corrected resetMatch is what the written one does when the machine
      is first reset: the two agree wherever the written one succeeds. */
  lemma ResetMatchAgreesWhereWrittenSucceeds(e: Engine)
    requires e.machine == StateMachine.NewMachine(WaitingForPlayers)
    ensures ResetMatchAsWritten(e) == Success(ResetMatch(e))
  {
  }
}
