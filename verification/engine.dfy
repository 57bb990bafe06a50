/** The game engine's state (server/src/game/GameState.ts, class GameEngine):
    the phase machine, the players in joining order, the game record, the
    dealt deck and what is left of it; player lookups; and the invariant every
    operation keeps. The operations themselves live in the modules Lobby,
    Dealing, Play and HandCycle. */
module GameEngine {
  import opened Wrappers
  import opened Types
  import opened Deck
  import opened Tricks
  import opened Scoring
  import StateMachine

  /** The engine. `players` lists the entries of the source's Map in insertion
      order; setting an existing id keeps its place. */
  datatype Engine = Engine(
    machine: StateMachine.Machine,
    players: seq<Player>,
    game: GameState,
    deck: seq<Card>,
    remainingDeck: seq<Card>)

  /** An operation's new engine together with what the source method returns. */
  datatype Outcome<T> = Outcome(engine: Engine, value: T)

  // ---------------------------------------------------------------- lookups

  predicate Known(ps: seq<Player>, id: PlayerId)
  {
    exists i :: 0 <= i < |ps| && ps[i].id == id
  }

  predicate Occupied(ps: seq<Player>, s: Seat)
  {
    exists i :: 0 <= i < |ps| && ps[i].seat == s
  }

  /** Position of the first player with the given id (`Map.get`). */
  function FindId(ps: seq<Player>, id: PlayerId): (r: Option<nat>)
    ensures r.None? <==> !Known(ps, id)
    ensures r.Some? ==> r.value < |ps| && ps[r.value].id == id
    ensures r.Some? ==> forall j :: 0 <= j < r.value ==> ps[j].id != id
  {
    if |ps| == 0 then None
    else if ps[0].id == id then Some(0)
    else
      var r := FindId(ps[1..], id);
      if r.None? then
        assert forall i :: 1 <= i < |ps| ==> ps[i] == ps[1..][i - 1];
        None
      else
        assert ps[r.value + 1] == ps[1..][r.value];
        Some(r.value + 1)
  }

  /** Position of the first player in the given seat (`find` over the values). */
  function FindSeat(ps: seq<Player>, s: Seat): (r: Option<nat>)
    ensures r.None? <==> !Occupied(ps, s)
    ensures r.Some? ==> r.value < |ps| && ps[r.value].seat == s
    ensures r.Some? ==> forall j :: 0 <= j < r.value ==> ps[j].seat != s
  {
    if |ps| == 0 then None
    else if ps[0].seat == s then Some(0)
    else
      var r := FindSeat(ps[1..], s);
      if r.None? then
        assert forall i :: 1 <= i < |ps| ==> ps[i] == ps[1..][i - 1];
        None
      else
        assert ps[r.value + 1] == ps[1..][r.value];
        Some(r.value + 1)
  }

  /** getPlayer. */
  function GetPlayer(ps: seq<Player>, id: PlayerId): (p: Option<Player>)
    ensures p.Some? <==> Known(ps, id)
    ensures p.Some? ==> p.value in ps && p.value.id == id
  {
    var i := FindId(ps, id);
    if i.Some? then Some(ps[i.value]) else None
  }

  /** getPlayerBySeat. */
  function GetPlayerBySeat(ps: seq<Player>, s: Seat): (p: Option<Player>)
    ensures p.Some? <==> Occupied(ps, s)
    ensures p.Some? ==> p.value in ps && p.value.seat == s
  {
    var i := FindSeat(ps, s);
    if i.Some? then Some(ps[i.value]) else None
  }

  // ---------------------------------------------------------------- seating

  /** Who sits where: at most four players, distinct ids, distinct seats, and
      every player on the team of their seat (addPlayer and changePlayerTeam
      only ever assign seats that way). */
  predicate RosterOk(ps: seq<Player>)
  {
    && |ps| <= 4
    && DistinctIds(ps)
    && (forall i, j :: 0 <= i < j < |ps| ==> ps[i].seat != ps[j].seat)
    && (forall i :: 0 <= i < |ps| ==> ps[i].team == TeamForSeat(ps[i].seat))
  }

  /** The Map's keys: no id twice. */
  predicate DistinctIds(ps: seq<Player>)
  {
    forall i, j :: 0 <= i < j < |ps| ==> ps[i].id != ps[j].id
  }

  /** With distinct ids, looking a player's id up finds that player. */
  lemma FindIdAt(ps: seq<Player>, i: nat)
    requires DistinctIds(ps) && i < |ps|
    ensures FindId(ps, ps[i].id) == Some(i)
    ensures GetPlayer(ps, ps[i].id) == Some(ps[i])
  {
  }

  /** With distinct seats, looking a player's seat up finds that player. */
  lemma FindSeatAt(ps: seq<Player>, i: nat)
    requires RosterOk(ps) && i < |ps|
    ensures FindSeat(ps, ps[i].seat) == Some(i)
    ensures GetPlayerBySeat(ps, ps[i].seat) == Some(ps[i])
  {
  }

  predicate Full(ps: seq<Player>)
  {
    RosterOk(ps) && |ps| == 4
  }

  /** Four players on four distinct seats fill the table. */
  lemma FullTableSeatsEveryone(ps: seq<Player>)
    requires Full(ps)
    ensures forall s: Seat :: Occupied(ps, s)
  {
    forall s: Seat ensures Occupied(ps, s) {
      assert ps[0].seat == s || ps[1].seat == s || ps[2].seat == s || ps[3].seat == s;
    }
  }

  /** A table on which every seat is taken has at least four players. */
  lemma AllSeatsTakenNeedsFour(ps: seq<Player>)
    requires forall s: Seat :: Occupied(ps, s)
    ensures |ps| >= 4
  {
    var i0, i1, i2, i3 := FindSeat(ps, 0).value, FindSeat(ps, 1).value, FindSeat(ps, 2).value, FindSeat(ps, 3).value;
    assert i0 != i1 && i0 != i2 && i0 != i3 && i1 != i2 && i1 != i3 && i2 != i3;
  }

  /** The player in a seat of a full table. */
  function PlayerAt(ps: seq<Player>, s: Seat): (p: Player)
    requires Full(ps)
    ensures p in ps && p.seat == s && p.team == TeamForSeat(s)
  {
    FullTableSeatsEveryone(ps);
    ps[FindSeat(ps, s).value]
  }

  /** The seat of a known player. */
  function SeatOf(ps: seq<Player>, id: PlayerId): Seat
    requires Known(ps, id)
  {
    ps[FindId(ps, id).value].seat
  }

  /** The player with a given id, when ids are distinct. */
  function PlayerWith(ps: seq<Player>, id: PlayerId): (p: Player)
    requires Known(ps, id)
    ensures p in ps && p.id == id
  {
    GetPlayer(ps, id).value
  }

  /** On a well-seated table a player's seat and id determine each other. */
  lemma SeatAndIdAgree(ps: seq<Player>, id: PlayerId)
    requires Full(ps) && Known(ps, id)
    ensures PlayerAt(ps, SeatOf(ps, id)).id == id
    ensures PlayerAt(ps, SeatOf(ps, id)) == PlayerWith(ps, id)
  {
  }

  /** The players' hands in seat order: what the source obtains by sorting the
      players by seat and indexing. */
  function HandsBySeat(ps: seq<Player>): (hs: seq<seq<Card>>)
    requires Full(ps)
    ensures |hs| == 4 && forall s: Seat :: hs[s] == PlayerAt(ps, s).hand
  {
    seq(4, s requires 0 <= s < 4 => PlayerAt(ps, s).hand)
  }

  /** Two rosters with the same people in the same seats and teams; hands and
      ready flags may differ. */
  predicate SameSeating(ps: seq<Player>, qs: seq<Player>)
  {
    |qs| == |ps| &&
    forall i :: 0 <= i < |ps| ==> qs[i].id == ps[i].id && qs[i].seat == ps[i].seat && qs[i].team == ps[i].team
  }

  lemma SameSeatingKeepsRoster(ps: seq<Player>, qs: seq<Player>)
    requires SameSeating(ps, qs)
    ensures RosterOk(ps) ==> RosterOk(qs)
    ensures forall id :: Known(ps, id) <==> Known(qs, id)
    ensures forall s: Seat :: Occupied(ps, s) <==> Occupied(qs, s)
  {
    forall id ensures Known(ps, id) <==> Known(qs, id) {
      if Known(ps, id) { var i :| 0 <= i < |ps| && ps[i].id == id; assert qs[i].id == id; }
      if Known(qs, id) { var i :| 0 <= i < |qs| && qs[i].id == id; assert ps[i].id == id; }
    }
    forall s: Seat ensures Occupied(ps, s) <==> Occupied(qs, s) {
      if Occupied(ps, s) { var i :| 0 <= i < |ps| && ps[i].seat == s; assert qs[i].seat == s; }
      if Occupied(qs, s) { var i :| 0 <= i < |qs| && qs[i].seat == s; assert ps[i].seat == s; }
    }
  }

  lemma SameSeatingChains(ps: seq<Player>, qs: seq<Player>, rs: seq<Player>)
    requires SameSeating(ps, qs) && SameSeating(qs, rs)
    ensures SameSeating(ps, rs)
  {
  }

  /** Searching by seat or by id looks only at seats and ids. */
  lemma {:induction false} SameSeatingSameSearch(ps: seq<Player>, qs: seq<Player>, s: Seat, id: PlayerId)
    requires SameSeating(ps, qs)
    ensures FindSeat(qs, s) == FindSeat(ps, s)
    ensures FindId(qs, id) == FindId(ps, id)
  {
    if |ps| > 0 {
      SameSeatingSameSearch(ps[1..], qs[1..], s, id);
    }
  }

  /** On a full table, re-seating nobody keeps who sits where. */
  lemma SameSeatingKeepsPlaces(ps: seq<Player>, qs: seq<Player>)
    requires SameSeating(ps, qs) && Full(ps)
    ensures Full(qs)
    ensures forall s: Seat :: PlayerAt(qs, s).id == PlayerAt(ps, s).id
    ensures forall id :: Known(ps, id) ==> SeatOf(qs, id) == SeatOf(ps, id)
  {
    SameSeatingKeepsRoster(ps, qs);
    forall s: Seat ensures PlayerAt(qs, s).id == PlayerAt(ps, s).id {
      SameSeatingSameSearch(ps, qs, s, "");
    }
    forall id | Known(ps, id) ensures SeatOf(qs, id) == SeatOf(ps, id) {
      SameSeatingSameSearch(ps, qs, 0, id);
    }
  }

  /** Each player's hand replaced by the one for their seat. */
  function WithHands(ps: seq<Player>, hands: seq<seq<Card>>): (qs: seq<Player>)
    requires |hands| == 4
    ensures SameSeating(ps, qs)
    ensures forall i :: 0 <= i < |ps| ==> qs[i] == ps[i].(hand := hands[ps[i].seat])
  {
    seq(|ps|, i requires 0 <= i < |ps| => ps[i].(hand := hands[ps[i].seat]))
  }

  /** Giving every seat its hand and then reading the hands back by seat
      returns exactly those hands. */
  lemma WithHandsBySeat(ps: seq<Player>, hands: seq<seq<Card>>)
    requires Full(ps) && |hands| == 4
    ensures Full(WithHands(ps, hands)) && HandsBySeat(WithHands(ps, hands)) == hands
  {
    var qs := WithHands(ps, hands);
    SameSeatingKeepsRoster(ps, qs);
    forall s: Seat ensures PlayerAt(qs, s).hand == hands[s] {
      var p := PlayerAt(qs, s);
      var i :| 0 <= i < |qs| && qs[i] == p;
    }
  }

  // ---------------------------------------------------------------- invariant

  predicate KnownOpt(ps: seq<Player>, id: Option<PlayerId>)
  {
    id.Some? && Known(ps, id.value)
  }

  predicate IsPlayPhase(p: Phase)
  {
    p == TrickPlay || p == VakkaiPlay
  }

  /** The engine's two copies of the phase agree, and the machine's history
      ends with it. */
  predicate PhasesAgree(e: Engine)
  {
    StateMachine.Valid(e.machine) && e.machine.phase == e.game.phase
  }

  /** Seating: a sound roster, full once the ready check has started. */
  predicate Seated(e: Engine)
  {
    RosterOk(e.players) && (e.game.phase != WaitingForPlayers ==> |e.players| == 4)
  }

  /** The seat after a player's, clockwise. */
  function NextSeat(s: Seat): Seat
  {
    (s + 1) % 4
  }

  /** After the toss the dealer and trump chooser are players, the chooser
      sits in the seat after the dealer's, and the dealing and trump teams
      are opposite. */
  predicate RolesSet(e: Engine)
  {
    e.game.phase != WaitingForPlayers && e.game.phase != ReadyCheck ==>
      && KnownOpt(e.players, e.game.dealerId)
      && KnownOpt(e.players, e.game.trumpChooserId)
      && SeatOf(e.players, e.game.trumpChooserId.value) == NextSeat(SeatOf(e.players, e.game.dealerId.value))
      && e.game.dealerTeam.Some?
      && e.game.trumpTeam == Some(Opposite(e.game.dealerTeam.value))
  }

  /** Whenever someone is expected to act, that someone is a player. */
  predicate TurnSet(e: Engine)
  {
    e.game.phase == VakkaiDecision || e.game.phase == HukumSelection || IsPlayPhase(e.game.phase) ==>
      KnownOpt(e.players, e.game.currentTurnId)
  }

  /** The Vakkai decision goes round the table once, starting at the seat
      after the dealer: the index counts the passes so far. */
  predicate DecisionRotates(e: Engine)
  {
    e.game.phase == VakkaiDecision ==>
      && 0 <= e.game.vakkaiDecisionIndex < 4
      && KnownOpt(e.players, e.game.dealerId)
      && KnownOpt(e.players, e.game.currentTurnId)
      && SeatOf(e.players, e.game.currentTurnId.value)
         == DecisionSeat(SeatOf(e.players, e.game.dealerId.value), e.game.vakkaiDecisionIndex)
  }

  /** The seat whose turn it is after `passes` passes, counted clockwise
      from the seat after the dealer's. */
  function DecisionSeat(dealer: Seat, passes: int): Seat
  {
    (dealer + 1 + passes) % 4
  }

  /** No Vakkai is running before a hand's trick play, nor during normal play. */
  predicate VakkaiOnlyInVakkaiPlay(e: Engine)
  {
    var p := e.game.phase;
    !(p == VakkaiPlay || p == HandEnd || p == DealerSelection || p == MatchEnd) ==> !e.game.vakkai.active
  }

  /** During play the current trick was built card by card by known players. */
  predicate TrickShape(e: Engine)
  {
    IsPlayPhase(e.game.phase) ==>
      && LeadFixed(e.game.currentTrick)
      && forall j :: 0 <= j < |e.game.currentTrick.cards| ==> Known(e.players, e.game.currentTrick.cards[j].playerId)
  }

  /** Between plays the current trick is still open. */
  predicate TrickOpen(e: Engine)
  {
    IsPlayPhase(e.game.phase) ==>
      |e.game.currentTrick.cards| < RequiredCards(e.game.vakkai.active)
  }

  /** In Vakkai play there is a known declarer and the turn is never with the
      declarer's partner. */
  predicate VakkaiTurns(e: Engine)
  {
    e.game.phase == VakkaiPlay ==>
      && e.game.vakkai.active
      && KnownOpt(e.players, e.game.vakkai.declarerId)
      && KnownOpt(e.players, e.game.currentTurnId)
      && SeatOf(e.players, e.game.currentTurnId.value) != Partner(SeatOf(e.players, e.game.vakkai.declarerId.value))
  }

  /** While the first half is in the hands (Vakkai decision, trump choice):
      the deck is a shuffle of the full deck, each seat holds its first-deal
      hand and the rest of the deck is kept for the second deal. */
  predicate FirstHalfDealt(e: Engine)
  {
    e.game.phase == VakkaiDecision || e.game.phase == HukumSelection ==>
      && Full(e.players)
      && |e.deck| == 32 && multiset(e.deck) == multiset(CreateDeck())
      && HandsBySeat(e.players) == FourEach(e.deck)
      && e.remainingDeck == e.deck[16..]
  }

  /** The part of the invariant the source's non-null assertions and phase
      transitions rely on: the phase copies agree, the table is seated, and
      the players named in the roles and the turn exist. */
  predicate Operable(e: Engine)
  {
    PhasesAgree(e) && Seated(e) && RolesSet(e) && TurnSet(e)
  }

  /** The engine invariant: what the operations re-establish, on top of
      Operable the zero-sum score and the facts about turns, tricks and the
      first deal that the game's rules depend on. */
  predicate Valid(e: Engine)
  {
    && Operable(e)
    && e.game.score.a + e.game.score.b == 0
    && DecisionRotates(e)
    && VakkaiOnlyInVakkaiPlay(e)
    && TrickShape(e)
    && TrickOpen(e)
    && VakkaiTurns(e)
    && FirstHalfDealt(e)
  }

  /** Same seating and the same hands give the same hands by seat. */
  lemma SameSeatingSameHands(ps: seq<Player>, qs: seq<Player>)
    requires Full(ps) && SameSeating(ps, qs)
    requires forall i :: 0 <= i < |qs| ==> qs[i].hand == ps[i].hand
    ensures Full(qs) && HandsBySeat(qs) == HandsBySeat(ps)
  {
    SameSeatingKeepsRoster(ps, qs);
    forall s: Seat ensures PlayerAt(qs, s).hand == PlayerAt(ps, s).hand {
      SameSeatingSameSearch(ps, qs, s, "");
    }
  }

  /** Same seating keeps every seat-of-id the invariant mentions. */
  lemma SameSeatingSameSeats(ps: seq<Player>, qs: seq<Player>, id: PlayerId)
    requires Full(ps) && SameSeating(ps, qs) && Known(ps, id)
    ensures Known(qs, id) && SeatOf(qs, id) == SeatOf(ps, id)
  {
    SameSeatingSameSearch(ps, qs, 0, id);
  }

  lemma DecisionRotatesUnderSameSeating(e: Engine, qs: seq<Player>)
    requires DecisionRotates(e) && Full(e.players) && SameSeating(e.players, qs)
    ensures DecisionRotates(e.(players := qs))
  {
    if e.game.phase == VakkaiDecision {
      var t, d := e.game.currentTurnId.value, e.game.dealerId.value;
      SameSeatingSameSeats(e.players, qs, t);
      SameSeatingSameSeats(e.players, qs, d);
      RotationCarriesOver(e, e.(players := qs));
    }
  }

  /** The rotation only looks at the two seats, so another engine with the
      same game record and the same two seats rotates too. */
  lemma RotationCarriesOver(e: Engine, e': Engine)
    requires DecisionRotates(e) && e'.game == e.game && e.game.phase == VakkaiDecision
    requires KnownOpt(e'.players, e.game.dealerId) && KnownOpt(e'.players, e.game.currentTurnId)
    requires SeatOf(e'.players, e.game.currentTurnId.value) == SeatOf(e.players, e.game.currentTurnId.value)
    requires SeatOf(e'.players, e.game.dealerId.value) == SeatOf(e.players, e.game.dealerId.value)
    ensures DecisionRotates(e')
  {
  }

  /** The roles only look at the seating and the role fields, so an engine
      with the same seating and the same roles has them set too. */
  lemma RolesSetUnderSameSeating(e: Engine, e1: Engine)
    requires RolesSet(e) && Seated(e) && SameSeating(e.players, e1.players)
    requires e1.game.phase == e.game.phase
    requires e1.game.dealerId == e.game.dealerId && e1.game.trumpChooserId == e.game.trumpChooserId
    requires e1.game.dealerTeam == e.game.dealerTeam && e1.game.trumpTeam == e.game.trumpTeam
    ensures RolesSet(e1)
  {
    var p := e.game.phase;
    if p != WaitingForPlayers && p != ReadyCheck {
      SameSeatingSameSeats(e.players, e1.players, e.game.dealerId.value);
      SameSeatingSameSeats(e.players, e1.players, e.game.trumpChooserId.value);
    }
  }

  lemma VakkaiTurnsUnderSameSeating(e: Engine, qs: seq<Player>)
    requires VakkaiTurns(e) && Full(e.players) && SameSeating(e.players, qs)
    ensures VakkaiTurns(e.(players := qs))
  {
    if e.game.phase == VakkaiPlay {
      SameSeatingSameSeats(e.players, qs, e.game.currentTurnId.value);
      SameSeatingSameSeats(e.players, qs, e.game.vakkai.declarerId.value);
    }
  }

  /** Changing only what the invariant does not look at (ready flags,
      names) keeps it. */
  lemma ValidUnderSameSeating(e: Engine, qs: seq<Player>)
    requires Valid(e) && SameSeating(e.players, qs)
    requires forall i :: 0 <= i < |qs| ==> qs[i].hand == e.players[i].hand
    ensures Valid(e.(players := qs))
  {
    var ps, e' := e.players, e.(players := qs);
    SameSeatingKeepsRoster(ps, qs);
    assert Seated(e');
    RolesSetUnderSameSeating(e, e');
    assert TurnSet(e') && TrickShape(e');
    if |ps| == 4 {
      DecisionRotatesUnderSameSeating(e, qs);
      VakkaiTurnsUnderSameSeating(e, qs);
      SameSeatingSameHands(ps, qs);
    }
  }

  // ---------------------------------------------------------------- creation

  /** createInitialGameState. */
  function InitialGameState(): (g: GameState)
    ensures g.phase == WaitingForPlayers && g.score == CreateScore()
    ensures g.trickCounts == PerTeam(0, 0) && !g.vakkai.active && |g.currentTrick.cards| == 0
  {
    GameState(
      WaitingForPlayers, None, None, None, 0, None,
      VakkaiState(false, None, 0),
      CreateTrickState(),
      PerTeam(0, 0),
      CreateScore(),
      None, None)
  }

  /** The constructor: no players, waiting for them, nothing dealt. */
  function NewEngine(): (e: Engine)
    ensures Valid(e)
    ensures e.game.phase == WaitingForPlayers && |e.players| == 0
    ensures e.machine.history == [WaitingForPlayers]
  {
    Engine(StateMachine.NewMachine(WaitingForPlayers), [], InitialGameState(), [], [])
  }
}
