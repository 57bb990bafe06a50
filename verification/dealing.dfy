/** From the ready check to the first trick (server/src/game/GameState.ts,
    performInitialToss to dealSecondHalf): the toss that fixes the dealing and
    trump teams, the first deal of four cards, the round of Vakkai decisions,
    the trump choice and the second deal. The shuffle's random draws are a
    parameter. */
module Dealing {
  import opened Wrappers
  import opened Types
  import opened Deck
  import opened Tricks
  import opened Scoring
  import opened GameEngine
  import StateMachine

  // ---------------------------------------------------------------- toss

  /** The player in the seat after a given player's. */
  function NextPlayer(ps: seq<Player>, id: PlayerId): (n: PlayerId)
    requires Full(ps) && Known(ps, id)
    ensures Known(ps, n) && SeatOf(ps, n) == NextSeat(SeatOf(ps, id))
  {
    SeatOfPlayerAt(ps, NextSeat(SeatOf(ps, id)));
    PlayerAt(ps, NextSeat(SeatOf(ps, id))).id
  }

  /** `players.find(p => p.team === team)` over the players sorted by seat,
      from seat `from` on. */
  function FindOnTeam(ps: seq<Player>, t: Team, from: nat): (r: Option<Seat>)
    requires Full(ps) && from <= 4
    ensures r.Some? ==> from <= r.value && PlayerAt(ps, r.value).team == t
    ensures r.Some? ==> forall s: Seat :: from <= s < r.value ==> PlayerAt(ps, s).team != t
    ensures r.None? ==> forall s: Seat :: from <= s ==> PlayerAt(ps, s).team != t
    decreases 4 - from
  {
    if from == 4 then None
    else if PlayerAt(ps, from).team == t then Some(from)
    else FindOnTeam(ps, t, from + 1)
  }

  /** On a full table the search stops at the team's lower seat: 0 for A, 1 for B. */
  lemma FirstOnTeamIsLowerSeat(ps: seq<Player>, t: Team)
    requires Full(ps)
    ensures FindOnTeam(ps, t, 0) == Some(if t == A then 0 else 1)
  {
    assert PlayerAt(ps, 0).team == A && PlayerAt(ps, 1).team == B;
  }

  /** The seat `find` stops at is the lowest seat of the team: no seat before
      it belongs to the team. */
  lemma DealerSeatIsLowest(t: Team)
    ensures var ds: Seat := if t == A then 0 else 1;
      TeamForSeat(ds) == t && forall s: Seat :: s < ds ==> TeamForSeat(s) != t
  {
  }

  /** The rank points of the toss cards drawn at the seats of one team. */
  function TeamTossPoints(toss: seq<Card>, t: Team): int
    requires |toss| == 4
  {
    if t == A then RankValue(toss[0].rank) + RankValue(toss[2].rank)
    else RankValue(toss[1].rank) + RankValue(toss[3].rank)
  }

  /** The dealing team: the one whose toss cards score lower, team A on a
      tie. The tally gives team A the cards at even positions, which are the
      cards drawn at team A's seats. */
  function TossDealerTeam(toss: seq<Card>): (t: Team)
    requires |toss| == 4
    ensures t == A <==> TeamTossPoints(toss, A) <= TeamTossPoints(toss, B)
  {
    var tally := CalculateTossPoints(toss);
    TossPointsSplitRankPoints(toss);
    if tally.teamA <= tally.teamB then A else B
  }

  /** The toss as returned: the two teams and, in seat order, who drew which
      card (the source's Map is filled in seat order). */
  datatype TossOutcome = TossOutcome(dealerTeam: Team, trumpTeam: Team, cards: seq<TrickCard>)

  /** performInitialToss: four cards are drawn and handed out by seat; the
      team with the lower total deals (A on a tie) and the other chooses trump;
      the dealer is the dealing team's player in the lowest seat and the trump
      chooser sits next. */
  function PerformInitialToss(e: Engine, swaps: seq<nat>): (r: Outcome<TossOutcome>)
    requires Full(e.players) && ValidSwaps(swaps, 32)
    requires StateMachine.CanTransition(e.machine.phase, InitialToss)
    ensures var toss := DrawTossCards(4, swaps);
      r.value.dealerTeam == A <==> TeamTossPoints(toss, A) <= TeamTossPoints(toss, B)
    ensures r.value.trumpTeam == Opposite(r.value.dealerTeam)
    ensures r.engine.game.dealerTeam == Some(r.value.dealerTeam) && r.engine.game.trumpTeam == Some(r.value.trumpTeam)
    ensures var ds: Seat := if r.value.dealerTeam == A then 0 else 1;
      && r.engine.game.dealerId == Some(PlayerAt(e.players, ds).id)
      && r.engine.game.trumpChooserId == Some(PlayerAt(e.players, NextSeat(ds)).id)
  {
    var ps := e.players;
    var toss := DrawTossCards(4, swaps);
    var dealerTeam := TossDealerTeam(toss);
    var trumpTeam := if dealerTeam == A then B else A;
    var ds := DealerSeat(ps, dealerTeam);
    var g := e.game.(phase := InitialToss, dealerTeam := Some(dealerTeam), trumpTeam := Some(trumpTeam),
                     dealerId := Some(PlayerAt(ps, ds).id), trumpChooserId := Some(PlayerAt(ps, NextSeat(ds)).id));
    var e' := e.(machine := StateMachine.TransitionTo(e.machine, InitialToss), game := g);
    Outcome(e', TossOutcome(dealerTeam, trumpTeam, TossCards(ps, toss)))
  }

  /** The dealing team's first player in seat order (`find` over the players
      sorted by seat). */
  function DealerSeat(ps: seq<Player>, t: Team): (ds: Seat)
    requires Full(ps)
    ensures ds == if t == A then 0 else 1
  {
    FirstOnTeamIsLowerSeat(ps, t);
    FindOnTeam(ps, t, 0).value
  }

  /** The toss cards paired, seat by seat, with the players who drew them. */
  function TossCards(ps: seq<Player>, toss: seq<Card>): (cards: seq<TrickCard>)
    requires Full(ps) && |toss| == 4
    ensures |cards| == 4 && forall s: Seat :: cards[s] == TrickCard(PlayerAt(ps, s).id, toss[s])
  {
    seq(4, s requires 0 <= s < 4 => TrickCard(PlayerAt(ps, s).id, toss[s]))
  }

  /** The toss reports, seat by seat, who drew which of the four cards. */
  lemma TossDealsOneCardPerSeat(e: Engine, swaps: seq<nat>)
    requires Full(e.players) && ValidSwaps(swaps, 32)
    requires StateMachine.CanTransition(e.machine.phase, InitialToss)
    ensures var r := PerformInitialToss(e, swaps);
      && |r.value.cards| == 4
      && (forall s: Seat :: r.value.cards[s].playerId == PlayerAt(e.players, s).id)
      && (forall s: Seat :: r.value.cards[s].card == DrawTossCards(4, swaps)[s])
  {
  }

  /** The toss moves the machine to INITIAL_TOSS and, in the game record,
      changes nothing but the phase and the four roles. */
  lemma TossChangesOnlyTheRoles(e: Engine, swaps: seq<nat>)
    requires Full(e.players) && ValidSwaps(swaps, 32)
    requires StateMachine.CanTransition(e.machine.phase, InitialToss)
    ensures var r := PerformInitialToss(e, swaps);
      && r.engine.game.phase == InitialToss && r.engine.machine.phase == InitialToss
      && r.engine.machine.history == e.machine.history + [InitialToss]
      && r.engine.players == e.players && r.engine.deck == e.deck && r.engine.remainingDeck == e.remainingDeck
      && r.engine.game == e.game.(phase := InitialToss, dealerTeam := r.engine.game.dealerTeam,
           trumpTeam := r.engine.game.trumpTeam, dealerId := r.engine.game.dealerId,
           trumpChooserId := r.engine.game.trumpChooserId)
  {
  }

  /** The toss keeps the engine invariant. */
  lemma PerformInitialTossKeepsValid(e: Engine, swaps: seq<nat>)
    requires Valid(e) && ValidSwaps(swaps, 32)
    requires StateMachine.CanTransition(e.machine.phase, InitialToss)
    ensures Valid(PerformInitialToss(e, swaps).engine)
  {
    var r := PerformInitialToss(e, swaps);
    var ds: Seat := if r.value.dealerTeam == A then 0 else 1;
    TossChangesOnlyTheRoles(e, swaps);
    StateMachine.Predecessors(e.machine.phase);
    RolesAfterToss(e, r.engine, r.value.dealerTeam, ds);
  }

  /** Naming a dealer and the player after as trump chooser, with their
      teams, moves a valid engine from the ready check to a valid toss. */
  lemma RolesAfterToss(e: Engine, e': Engine, t: Team, ds: Seat)
    requires Valid(e) && e.game.phase == ReadyCheck
    requires e'.players == e.players && e'.deck == e.deck && e'.remainingDeck == e.remainingDeck
    requires StateMachine.Valid(e'.machine) && e'.machine.phase == InitialToss
    requires e'.game == e.game.(phase := InitialToss, dealerTeam := Some(t), trumpTeam := Some(Opposite(t)),
      dealerId := Some(PlayerAt(e.players, ds).id), trumpChooserId := Some(PlayerAt(e.players, NextSeat(ds)).id))
    ensures Valid(e')
  {
    SeatOfPlayerAt(e.players, ds);
    SeatOfPlayerAt(e.players, NextSeat(ds));
  }

  /** The player found in a seat is the one whose seat lookup gives it back. */
  lemma SeatOfPlayerAt(ps: seq<Player>, s: Seat)
    requires Full(ps)
    ensures Known(ps, PlayerAt(ps, s).id) && SeatOf(ps, PlayerAt(ps, s).id) == s
  {
    FullTableSeatsEveryone(ps);
    var i := FindSeat(ps, s).value;
    FindIdAt(ps, i);
  }

  // ---------------------------------------------------------------- first deal

  /** dealFirstHalf: a freshly shuffled deck, four cards to each seat in
      rounds, the rest kept back; then the Vakkai decision opens with the
      player after the dealer. The Vakkai flag is left as it was. The source
      sorts the four players by seat and needs the dealer to be one of them. */
  function DealFirstHalf(e: Engine, swaps: seq<nat>): (e': Engine)
    requires Full(e.players) && KnownOpt(e.players, e.game.dealerId) && ValidSwaps(swaps, 32)
    requires StateMachine.CanTransition(e.machine.phase, DealingFirst)
    ensures e'.deck == ShuffleDeck(CreateDeck(), swaps)
    ensures SameSeating(e.players, e'.players) && Full(e'.players)
    ensures HandsBySeat(e'.players) == FourEach(e'.deck)
    ensures e'.remainingDeck == e'.deck[16..]
    ensures e'.machine.phase == VakkaiDecision && StateMachine.Valid(e'.machine)
    ensures e'.machine.history == e.machine.history + [DealingFirst] + [VakkaiDecision]
    ensures e'.game == e.game.(phase := VakkaiDecision, vakkaiDecisionIndex := 0,
      currentTurnId := Some(NextPlayer(e.players, e.game.dealerId.value)))
  {
    var ps := e.players;
    var deck := ShuffleDeck(CreateDeck(), swaps);
    // dealCards(deck, 4, 4), spelt out; FirstDealHands ties the two together
    var qs := WithHands(ps, FourEach(deck));
    var m := StateMachine.TransitionTo(StateMachine.TransitionTo(e.machine, DealingFirst), VakkaiDecision);
    var g := e.game.(phase := VakkaiDecision, vakkaiDecisionIndex := 0,
                     currentTurnId := Some(NextPlayer(ps, e.game.dealerId.value)));
    WithHandsBySeat(ps, FourEach(deck));
    Engine(m, qs, g, deck, deck[16..])
  }

  /** What the first deal hands out: the deck is a shuffle of the full deck,
      the hands by seat and the kept cards are what dealCards(deck, 4, 4)
      returns, so seat s holds the cards at indices s, s+4, s+8 and s+12, and
      no card is lost or doubled. */
  lemma FirstDealHands(e: Engine, swaps: seq<nat>)
    requires Full(e.players) && KnownOpt(e.players, e.game.dealerId) && ValidSwaps(swaps, 32)
    requires StateMachine.CanTransition(e.machine.phase, DealingFirst)
    ensures var e' := DealFirstHalf(e, swaps);
      && |e'.deck| == 32 && multiset(e'.deck) == multiset(CreateDeck())
      && DealCards(e'.deck, 4, 4) == Dealt(HandsBySeat(e'.players), e'.remainingDeck)
      && (forall s: Seat, k :: 0 <= k < 4 ==> PlayerAt(e'.players, s).hand[k] == e'.deck[4 * k + s])
      && multiset(Flatten(HandsBySeat(e'.players)) + e'.remainingDeck) == multiset(CreateDeck())
  {
    var e' := DealFirstHalf(e, swaps);
    DealFourEach(e'.deck);
    FourEachSlots(e'.deck);
    assert forall s: Seat :: PlayerAt(e'.players, s).hand == FourEach(e'.deck)[s];
  }

  /** Seat s of the spelt-out deal holds, in round k, the card at index 4k + s. */
  lemma FourEachSlots(deck: seq<Card>)
    requires |deck| >= 16
    ensures forall s: Seat, k :: 0 <= k < 4 ==> FourEach(deck)[s][k] == deck[4 * k + s]
  {
  }

  /** The first deal keeps the engine invariant, provided no Vakkai is
      still marked active from the hand before. */
  lemma DealFirstHalfKeepsValid(e: Engine, swaps: seq<nat>)
    requires Valid(e) && ValidSwaps(swaps, 32) && !e.game.vakkai.active
    requires StateMachine.CanTransition(e.machine.phase, DealingFirst)
    ensures Valid(DealFirstHalf(e, swaps))
  {
    StateMachine.TableShape(e.machine.phase, e.machine.phase);
    var e' := DealFirstHalf(e, swaps);
    FirstDealtEngineValid(e.players, e.game, e');
  }

  /** An engine in the Vakkai decision whose game record is the one before
      the deal with the turn at the seat after the dealer, and whose hands
      are the first deal, is valid. */
  lemma FirstDealtEngineValid(ps: seq<Player>, g: GameState, e': Engine)
    requires Full(ps) && KnownOpt(ps, g.dealerId) && KnownOpt(ps, g.trumpChooserId)
    requires SeatOf(ps, g.trumpChooserId.value) == NextSeat(SeatOf(ps, g.dealerId.value))
    requires g.dealerTeam.Some? && g.trumpTeam == Some(Opposite(g.dealerTeam.value))
    requires g.score.a + g.score.b == 0 && !g.vakkai.active
    requires SameSeating(ps, e'.players) && Full(e'.players)
    requires |e'.deck| == 32 && multiset(e'.deck) == multiset(CreateDeck())
    requires HandsBySeat(e'.players) == FourEach(e'.deck) && e'.remainingDeck == e'.deck[16..]
    requires StateMachine.Valid(e'.machine) && e'.machine.phase == VakkaiDecision
    requires e'.game == g.(phase := VakkaiDecision, vakkaiDecisionIndex := 0,
      currentTurnId := Some(NextPlayer(ps, g.dealerId.value)))
    ensures Valid(e')
  {
    var qs := e'.players;
    SameSeatingSameSeats(ps, qs, g.dealerId.value);
    SameSeatingSameSeats(ps, qs, g.trumpChooserId.value);
    DecisionOpensAfterDealer(ps, g.dealerId.value, e');
  }

  /** The decision opening at the seat after the dealer, with no pass yet,
      is the start of the rotation. */
  lemma DecisionOpensAfterDealer(ps: seq<Player>, d: PlayerId, e': Engine)
    requires Full(ps) && Known(ps, d) && SameSeating(ps, e'.players)
    requires e'.game.phase == VakkaiDecision && e'.game.vakkaiDecisionIndex == 0
    requires e'.game.dealerId == Some(d) && e'.game.currentTurnId == Some(NextPlayer(ps, d))
    ensures DecisionRotates(e')
  {
    var qs, n := e'.players, NextPlayer(ps, d);
    SameSeatingSameSeats(ps, qs, n);
    SameSeatingSameSeats(ps, qs, d);
    RotationStarts(e', SeatOf(qs, d));
  }

  lemma RotationStarts(e': Engine, sd: Seat)
    requires e'.game.phase == VakkaiDecision && e'.game.vakkaiDecisionIndex == 0
    requires KnownOpt(e'.players, e'.game.dealerId) && KnownOpt(e'.players, e'.game.currentTurnId)
    requires SeatOf(e'.players, e'.game.dealerId.value) == sd
    requires SeatOf(e'.players, e'.game.currentTurnId.value) == NextSeat(sd)
    ensures DecisionRotates(e')
  {
  }

  // ---------------------------------------------------------------- Vakkai decision

  /** passVakkai: refused outside the decision or out of turn; otherwise one
      more pass is counted, and the turn goes to the next seat, or after the
      fourth pass to the trump chooser as trump selection opens. Nothing else
      changes. */
  function PassVakkai(e: Engine, playerId: PlayerId): (r: Outcome<bool>)
    requires Operable(e)
    ensures r.value <==> e.game.phase == VakkaiDecision && e.game.currentTurnId == Some(playerId)
    ensures !r.value ==> r.engine == e
    ensures r.value ==>
      && r.engine.players == e.players && r.engine.deck == e.deck && r.engine.remainingDeck == e.remainingDeck
      && r.engine.game.vakkaiDecisionIndex == e.game.vakkaiDecisionIndex + 1
    ensures r.value && e.game.vakkaiDecisionIndex + 1 >= 4 ==>
      && r.engine.game == e.game.(vakkaiDecisionIndex := e.game.vakkaiDecisionIndex + 1,
           phase := HukumSelection, currentTurnId := e.game.trumpChooserId)
      && r.engine.machine.phase == HukumSelection
      && r.engine.machine.history == e.machine.history + [HukumSelection]
    ensures r.value && e.game.vakkaiDecisionIndex + 1 < 4 ==>
      && r.engine.game == e.game.(vakkaiDecisionIndex := e.game.vakkaiDecisionIndex + 1,
           currentTurnId := Some(NextPlayer(e.players, playerId)))
      && r.engine.machine == e.machine
  {
    if e.game.phase != VakkaiDecision then Outcome(e, false)
    else if e.game.currentTurnId != Some(playerId) then Outcome(e, false)
    else
      var idx := e.game.vakkaiDecisionIndex + 1;
      if idx >= 4 then
        var e' := e.(machine := StateMachine.TransitionTo(e.machine, HukumSelection),
                     game := e.game.(vakkaiDecisionIndex := idx, phase := HukumSelection,
                                     currentTurnId := e.game.trumpChooserId));
        Outcome(e', true)
      else
        var e' := e.(game := e.game.(vakkaiDecisionIndex := idx,
                                     currentTurnId := Some(NextPlayer(e.players, playerId))));
        Outcome(e', true)
  }

  /** A pass keeps the engine invariant: the turn moves one seat on, in step
      with the count of passes. */
  lemma PassVakkaiKeepsValid(e: Engine, playerId: PlayerId)
    requires Valid(e)
    ensures Valid(PassVakkai(e, playerId).engine)
  {
    var r := PassVakkai(e, playerId);
    if r.value {
      if e.game.vakkaiDecisionIndex + 1 < 4 {
        PassMovesTheTurn(e, r.engine, playerId);
      }
    }
  }

  lemma PassMovesTheTurn(e: Engine, e': Engine, playerId: PlayerId)
    requires DecisionRotates(e) && Full(e.players) && e.game.phase == VakkaiDecision
    requires e.game.currentTurnId == Some(playerId) && e.game.vakkaiDecisionIndex + 1 < 4
    requires e'.players == e.players && e'.game.phase == VakkaiDecision
    requires e'.game.dealerId == e.game.dealerId
    requires e'.game.vakkaiDecisionIndex == e.game.vakkaiDecisionIndex + 1
    requires e'.game.currentTurnId == Some(NextPlayer(e.players, playerId))
    ensures DecisionRotates(e')
  {
    var n := NextPlayer(e.players, playerId);
    var d := SeatOf(e.players, e.game.dealerId.value);
    SeatRotationStep(d, SeatOf(e.players, playerId), SeatOf(e.players, n),
      e.game.vakkaiDecisionIndex, e'.game.vakkaiDecisionIndex);
  }

  /** The player after the one counted i seats past the dealer is counted
      i + 1 seats past. */
  lemma SeatRotationStep(d: Seat, t: Seat, t': Seat, i: int, j: int)
    requires t == DecisionSeat(d, i) && t' == NextSeat(t) && j == i + 1
    ensures t' == DecisionSeat(d, j)
  {
    NextSeatAdvances(d as int + 1 + i);
  }

  /** One seat on from the seat counted x places from seat 0 is the seat
      counted x + 1 places. */
  lemma NextSeatAdvances(x: int)
    ensures NextSeat(x % 4) == (x + 1) % 4
    ensures (x % 4 + 1) % 4 == (x + 1) % 4
  {
  }

  /** Everybody passes in turn until the decision closes. */
  function PassRound(e: Engine): (e': Engine)
    requires Valid(e)
    ensures Valid(e')
    ensures e'.players == e.players && e'.deck == e.deck && e'.remainingDeck == e.remainingDeck
    decreases if e.game.phase == VakkaiDecision then 4 - e.game.vakkaiDecisionIndex else 0
  {
    if e.game.phase != VakkaiDecision then e
    else
      var r := PassVakkai(e, e.game.currentTurnId.value);
      PassVakkaiKeepsValid(e, e.game.currentTurnId.value);
      PassRound(r.engine)
  }

  /** When nobody declares, four passes close the decision and hand trump
      selection to the trump chooser, with the first-deal hands untouched. */
  lemma {:induction false} NobodyDeclaresLeadsToHukum(e: Engine)
    requires Valid(e) && e.game.phase == VakkaiDecision
    ensures PassRound(e).game.phase == HukumSelection
    ensures PassRound(e).game.currentTurnId == e.game.trumpChooserId
    ensures PassRound(e).game.vakkaiDecisionIndex == 4
    ensures HandsBySeat(PassRound(e).players) == HandsBySeat(e.players)
    decreases 4 - e.game.vakkaiDecisionIndex
  {
    var r := PassVakkai(e, e.game.currentTurnId.value);
    PassVakkaiKeepsValid(e, e.game.currentTurnId.value);
    if r.engine.game.phase == VakkaiDecision {
      NobodyDeclaresLeadsToHukum(r.engine);
    }
  }

  /** declareVakkai: refused outside the decision or out of turn; otherwise the
      player becomes the declarer, there is no trump, and the declarer leads
      the first trick with the four cards already held. Hands, deck and roles
      stay as they were. */
  function DeclareVakkai(e: Engine, playerId: PlayerId): (r: Outcome<bool>)
    requires Operable(e)
    ensures r.value <==> e.game.phase == VakkaiDecision && e.game.currentTurnId == Some(playerId)
    ensures !r.value ==> r.engine == e
    ensures r.value ==>
      && r.engine.game == e.game.(vakkai := VakkaiState(true, Some(playerId), 0), phase := VakkaiPlay,
           trumpSuit := None, currentTurnId := Some(playerId), currentTrick := TrickState([], None, None))
      && r.engine.machine.phase == VakkaiPlay
      && r.engine.machine.history == e.machine.history + [VakkaiPlay]
      && r.engine.players == e.players && r.engine.deck == e.deck && r.engine.remainingDeck == e.remainingDeck
  {
    if e.game.phase != VakkaiDecision then Outcome(e, false)
    else if e.game.currentTurnId != Some(playerId) then Outcome(e, false)
    else
      var g := e.game.(vakkai := VakkaiState(true, Some(playerId), 0), phase := VakkaiPlay,
                       trumpSuit := None, currentTurnId := Some(playerId), currentTrick := CreateTrickState());
      var e' := e.(machine := StateMachine.TransitionTo(e.machine, VakkaiPlay), game := g);
      Outcome(e', true)
  }

  /** A declaration keeps the engine invariant, and the declarer starts the
      Vakkai with the four cards of the first deal in every hand. */
  lemma DeclareVakkaiKeepsValid(e: Engine, playerId: PlayerId)
    requires Valid(e)
    ensures Valid(DeclareVakkai(e, playerId).engine)
    ensures DeclareVakkai(e, playerId).value ==>
      forall s: Seat :: |PlayerAt(e.players, s).hand| == 4
  {
    var r := DeclareVakkai(e, playerId);
    if r.value {
      var ds := SeatOf(e.players, playerId);
      assert ds != Partner(ds);
      assert VakkaiTurns(r.engine);
      assert forall s: Seat :: PlayerAt(e.players, s).hand == FourEach(e.deck)[s];
    }
  }

  // ---------------------------------------------------------------- trump and second deal

  /** dealSecondHalf's hands: dealCards(remainingDeck, 4, 4) again, each seat's
      four appended to the hand it holds; the source goes through the players
      sorted by seat, which on a full table is seat order. */
  function SecondHalfHands(ps: seq<Player>, remaining: seq<Card>): (hs: seq<seq<Card>>)
    requires Full(ps)
    ensures |hs| == 4
    ensures forall s: Seat :: hs[s] == PlayerAt(ps, s).hand + DealCards(remaining, 4, 4).hands[s]
  {
    var extra := DealCards(remaining, 4, 4).hands;
    seq(4, s requires 0 <= s < 4 => PlayerAt(ps, s).hand + extra[s])
  }

  /** chooseHukum: refused outside trump selection or for anyone but the
      trump chooser; otherwise the trump is set, the second half is dealt,
      the kept cards are used up, and the player after the chooser leads the
      first trick. */
  function ChooseHukum(e: Engine, playerId: PlayerId, suit: Suit): (r: Outcome<bool>)
    requires Operable(e)
    ensures r.value <==> e.game.phase == HukumSelection && e.game.trumpChooserId == Some(playerId)
    ensures !r.value ==> r.engine == e
    ensures r.value ==>
      && r.engine.game == e.game.(trumpSuit := Some(suit), phase := TrickPlay,
           currentTurnId := Some(NextPlayer(e.players, playerId)), currentTrick := TrickState([], None, None))
      && r.engine.machine.phase == TrickPlay
      && r.engine.machine.history == e.machine.history + [DealingSecond] + [TrickPlay]
      && r.engine.deck == e.deck && r.engine.remainingDeck == []
      && SameSeating(e.players, r.engine.players) && Full(r.engine.players)
      && forall s: Seat :: PlayerAt(r.engine.players, s).hand
                          == PlayerAt(e.players, s).hand + DealCards(e.remainingDeck, 4, 4).hands[s]
  {
    if e.game.phase != HukumSelection then Outcome(e, false)
    else if e.game.trumpChooserId != Some(playerId) then Outcome(e, false)
    else Outcome(DealSecondHalf(e, playerId, suit), true)
  }

  /** The accepted branch of chooseHukum. */
  function DealSecondHalf(e: Engine, playerId: PlayerId, suit: Suit): (e': Engine)
    requires Operable(e) && e.game.phase == HukumSelection && e.game.trumpChooserId == Some(playerId)
    ensures e'.game == e.game.(trumpSuit := Some(suit), phase := TrickPlay,
              currentTurnId := Some(NextPlayer(e.players, playerId)), currentTrick := TrickState([], None, None))
    ensures e'.machine.phase == TrickPlay
    ensures e'.machine.history == e.machine.history + [DealingSecond] + [TrickPlay]
    ensures e'.deck == e.deck && e'.remainingDeck == []
    ensures SameSeating(e.players, e'.players) && Full(e'.players)
    ensures forall s: Seat :: PlayerAt(e'.players, s).hand
                              == PlayerAt(e.players, s).hand + DealCards(e.remainingDeck, 4, 4).hands[s]
  {
    var hands := SecondHalfHands(e.players, e.remainingDeck);
    var qs := WithHands(e.players, hands);
    var m := StateMachine.TransitionTo(StateMachine.TransitionTo(e.machine, DealingSecond), TrickPlay);
    var g := e.game.(trumpSuit := Some(suit), phase := TrickPlay,
                     currentTurnId := Some(NextPlayer(e.players, playerId)), currentTrick := CreateTrickState());
    WithHandsBySeat(e.players, hands);
    Engine(m, qs, g, e.deck, [])
  }

  /** After a valid first deal the second deal completes it: the two deals of
      four are one deal of eight from the same deck, every seat holds eight
      cards, and the hands split the whole deck between them. */
  lemma SecondDealCompletesTheDeal(e: Engine, suit: Suit)
    requires Valid(e) && e.game.phase == HukumSelection
    ensures var r := ChooseHukum(e, e.game.trumpChooserId.value, suit);
      && r.value
      && HandsBySeat(r.engine.players) == DealCards(e.deck, 4, 8).hands
      && (forall s: Seat :: |PlayerAt(r.engine.players, s).hand| == 8)
      && multiset(Flatten(HandsBySeat(r.engine.players))) == multiset(CreateDeck())
  {
    var r := ChooseHukum(e, e.game.trumpChooserId.value, suit);
    SecondDealHands(e.deck, HandsBySeat(e.players), HandsBySeat(r.engine.players));
  }

  /** Hands that hold the first deal of a full deck, each with the second deal
      of the rest appended, are the deal of eight. */
  lemma SecondDealHands(deck: seq<Card>, first: seq<seq<Card>>, hands: seq<seq<Card>>)
    requires |deck| == 32 && multiset(deck) == multiset(CreateDeck())
    requires first == FourEach(deck) && |hands| == 4
    requires forall s :: 0 <= s < 4 ==> hands[s] == first[s] + DealCards(deck[16..], 4, 4).hands[s]
    ensures hands == DealCards(deck, 4, 8).hands
    ensures forall s :: 0 <= s < 4 ==> |hands[s]| == 8
    ensures multiset(Flatten(hands)) == multiset(CreateDeck())
  {
    SecondDealIsDealOfEight(deck, first, hands);
    DealOfEightUsesTheDeck(deck);
  }

  lemma SecondDealIsDealOfEight(deck: seq<Card>, first: seq<seq<Card>>, hands: seq<seq<Card>>)
    requires |deck| == 32 && first == FourEach(deck) && |hands| == 4
    requires forall s :: 0 <= s < 4 ==> hands[s] == first[s] + DealCards(deck[16..], 4, 4).hands[s]
    ensures hands == DealCards(deck, 4, 8).hands
  {
    DealFourEach(deck[16..]);
    DealEightIsTwoDealsOfFour(deck);
  }

  /** The deal of eight from a full deck uses every card: eight to a hand,
      none left over. */
  lemma DealOfEightUsesTheDeck(deck: seq<Card>)
    requires |deck| == 32 && multiset(deck) == multiset(CreateDeck())
    ensures var whole := DealCards(deck, 4, 8);
      && (forall s :: 0 <= s < 4 ==> |whole.hands[s]| == 8)
      && multiset(Flatten(whole.hands)) == multiset(CreateDeck())
  {
    var whole := DealCards(deck, 4, 8);
    assert whole.remaining == deck[32..] == [];
    assert Flatten(whole.hands) + whole.remaining == Flatten(whole.hands);
  }

  /** Choosing trump keeps the engine invariant. */
  lemma ChooseHukumKeepsValid(e: Engine, playerId: PlayerId, suit: Suit)
    requires Valid(e)
    ensures Valid(ChooseHukum(e, playerId, suit).engine)
  {
    var r := ChooseHukum(e, playerId, suit);
    if r.value {
      var ps, qs := e.players, r.engine.players;
      SameSeatingKeepsRoster(ps, qs);
      SameSeatingSameSeats(ps, qs, e.game.dealerId.value);
      SameSeatingSameSeats(ps, qs, playerId);
      SameSeatingSameSeats(ps, qs, NextPlayer(ps, playerId));
    }
  }
}
