/** Trick play (server/src/game/GameState.ts, playCard to endHand): the checks
    a play must pass, the card moving from the hand to the trick, the turn
    passing on, and a complete trick being resolved, in normal play by the
    trick targets and in a Vakkai by the declarer's run of wins, ending the
    hand or the match when it is decided. */
module Play {
  import opened Wrappers
  import opened Types
  import opened Cards
  import opened Tricks
  import opened Scoring
  import opened GameEngine
  import opened Dealing
  import StateMachine

  // ---------------------------------------------------------------- hands

  /** `hand.filter(c => c.id !== cardId)`: every copy of the card goes and the
      rest keep their order (a card's id is its suit and rank). */
  function Without(hand: seq<Card>, card: Card): (h: seq<Card>)
    ensures multiset(h) == multiset(hand)[card := 0]
    ensures card !in hand ==> h == hand
  {
    if |hand| == 0 then []
    else
      var rest := Without(hand[1..], card);
      assert hand == [hand[0]] + hand[1..];
      if hand[0] == card then rest else [hand[0]] + rest
  }

  /** Filtering works piece by piece: the cards left from two runs of a hand
      are the cards left from the first run followed by those from the
      second, so the remaining cards keep their order. */
  lemma {:induction false} WithoutSplits(a: seq<Card>, b: seq<Card>, card: Card)
    ensures Without(a + b, card) == Without(a, card) + Without(b, card)
    decreases |a|
  {
    if |a| == 0 {
      assert a + b == b;
    } else {
      assert (a + b)[1..] == a[1..] + b;
      WithoutSplits(a[1..], b, card);
    }
  }

  /** The card is gone from the hand and every other card is still there. */
  lemma WithoutKeepsTheRest(hand: seq<Card>, card: Card)
    ensures forall c :: c in Without(hand, card) <==> c in hand && c != card
  {
    var h := Without(hand, card);
    forall c ensures c in h <==> c in hand && c != card {
      assert c in h <==> multiset(h)[c] > 0;
      assert c in hand <==> multiset(hand)[c] > 0;
    }
  }

  /** The player with the given id gets a new hand; the Map entry is updated
      in place, so nobody moves. */
  function SetHand(ps: seq<Player>, id: PlayerId, h: seq<Card>): (qs: seq<Player>)
    requires Known(ps, id)
    ensures SameSeating(ps, qs)
    ensures forall i :: 0 <= i < |ps| ==> qs[i].hand == if i == FindId(ps, id).value then h else ps[i].hand
    ensures forall i :: 0 <= i < |ps| ==> qs[i] == ps[i].(hand := qs[i].hand)
  {
    var i := FindId(ps, id).value;
    ps[i := ps[i].(hand := h)]
  }

  /** Reading the hands back: the player's is the new one, everybody else's is
      as it was. */
  lemma SetHandReadBack(ps: seq<Player>, id: PlayerId, h: seq<Card>)
    requires DistinctIds(ps) && Known(ps, id)
    ensures var qs := SetHand(ps, id, h);
      && Known(qs, id) && PlayerWith(qs, id).hand == h
      && forall o :: Known(ps, o) && o != id ==> Known(qs, o) && PlayerWith(qs, o).hand == PlayerWith(ps, o).hand
  {
    var qs := SetHand(ps, id, h);
    SameSeatingKeepsRoster(ps, qs);
    SameSeatingSameSearch(ps, qs, 0, id);
    forall o | Known(ps, o) && o != id
      ensures PlayerWith(qs, o).hand == PlayerWith(ps, o).hand
    {
      SameSeatingSameSearch(ps, qs, 0, o);
    }
  }

  // ---------------------------------------------------------------- readiness

  /** What playCard needs of the engine beyond the checks it makes itself:
      the players it looks up with `!` (the player on turn, the trick's
      winner, the Vakkai declarer) exist, the roles it reads with `!` are set,
      and the phase it leaves has an edge in the table. */
  predicate PlayReady(e: Engine)
  {
    && Operable(e)
    && TrickShape(e)
    && (IsPlayPhase(e.game.phase) && e.game.vakkai.active ==> KnownOpt(e.players, e.game.vakkai.declarerId))
  }

  // ---------------------------------------------------------------- turn

  /** `indexOf`: the first position of a seat in a turn order, -1 when absent. */
  function IndexOf(order: seq<Seat>, s: Seat): (i: int)
    ensures -1 <= i < |order|
    ensures i == -1 <==> s !in order
    ensures i >= 0 ==> order[i] == s && s !in order[..i]
  {
    if |order| == 0 then -1
    else if order[0] == s then 0
    else
      var j := IndexOf(order[1..], s);
      assert order == [order[0]] + order[1..];
      if j == -1 then -1
      else
        assert order[..j + 1] == [order[0]] + order[1..][..j];
        j + 1
  }

  /** advanceToNextPlayer: clockwise in normal play; in a Vakkai the next
      seat of the declarer's turn order (declarer, then the two opponents),
      where a seat missing from the order (indexOf gives -1) is followed by
      the order's first seat, the declarer. Only the turn changes. */
  function AdvanceToNextPlayer(e: Engine): (e': Engine)
    requires Full(e.players) && KnownOpt(e.players, e.game.currentTurnId)
    requires e.game.vakkai.active ==> KnownOpt(e.players, e.game.vakkai.declarerId)
    ensures e'.players == e.players && e'.machine == e.machine
    ensures e'.deck == e.deck && e'.remainingDeck == e.remainingDeck
    ensures e'.game == e.game.(currentTurnId := e'.game.currentTurnId)
    ensures KnownOpt(e'.players, e'.game.currentTurnId)
    ensures var cur, next := SeatOf(e.players, e.game.currentTurnId.value), SeatOf(e.players, e'.game.currentTurnId.value);
      && (!e.game.vakkai.active ==> next == GetNextPlayer(cur, false, None))
      && (e.game.vakkai.active ==>
            var d := SeatOf(e.players, e.game.vakkai.declarerId.value);
            && next != Partner(d)
            && (cur != Partner(d) ==> next == GetNextPlayer(cur, true, Some(d)))
            && (cur == Partner(d) ==> next == d))
  {
    var ps := e.players;
    var cur := SeatOf(ps, e.game.currentTurnId.value);
    var d := if e.game.vakkai.active then SeatOf(ps, e.game.vakkai.declarerId.value) else 0;
    var nextSeat := NextTurnSeat(cur, e.game.vakkai.active, d);
    SeatOfPlayerAt(ps, nextSeat);
    e.(game := e.game.(currentTurnId := Some(PlayerAt(ps, nextSeat).id)))
  }

  /** The seat after `cur`: the next seat clockwise, or in a Vakkai hand the
      next seat of the declarer's turn order, which leaves out the partner. */
  function NextTurnSeat(cur: Seat, vakkai: bool, d: Seat): (next: Seat)
    ensures !vakkai ==> next == GetNextPlayer(cur, false, None)
    ensures vakkai ==>
      && next != Partner(d)
      && (cur != Partner(d) ==> next == GetNextPlayer(cur, true, Some(d)))
      && (cur == Partner(d) ==> next == d)
  {
    if vakkai then
      var order := GetTrickTurnOrder(d, true, Some(d));
      VakkaiStep(d, cur);
      order[(IndexOf(order, cur) + 1) % |order|]
    else (cur + 1) % 4
  }

  /** The Vakkai step through the declarer's turn order agrees with
      getNextPlayer for every seat in the order, never lands on the partner,
      and sends the partner's seat back to the declarer. */
  lemma VakkaiStep(d: Seat, cur: Seat)
    ensures var order := GetTrickTurnOrder(d, true, Some(d));
      var next := order[(IndexOf(order, cur) + 1) % |order|];
      && next != Partner(d)
      && (cur != Partner(d) ==> next == GetNextPlayer(cur, true, Some(d)))
      && (cur == Partner(d) ==> next == d)
  {
    var order := GetTrickTurnOrder(d, true, Some(d));
    NextPlayerFollowsTurnOrder(d, true, Some(d));
    VakkaiOrderSkipsOnlyPartner(d, cur);
    IndexOfThree(order, cur);
  }

  /** indexOf on a list of three distinct seats. */
  lemma IndexOfThree(order: seq<Seat>, x: Seat)
    requires |order| == 3 && DistinctSeats(order)
    ensures x == order[0] ==> IndexOf(order, x) == 0
    ensures x == order[1] ==> IndexOf(order, x) == 1
    ensures x == order[2] ==> IndexOf(order, x) == 2
    ensures x !in order ==> IndexOf(order, x) == -1
  {
    var i := IndexOf(order, x);
    if x in order {
      assert order[..1] == [order[0]] && order[..2] == [order[0], order[1]];
    }
  }

  // ---------------------------------------------------------------- hand end

  /** Why a hand ended. */
  datatype EndReason = VakkaiSuccess | VakkaiFailure | TargetReached(reason: HandReason)

  datatype HandSummary = HandSummary(team: Team, points: int, reason: EndReason)

  /** What resolving a trick reports: the trick's winner and team while the
      hand goes on; once it has ended, an empty winner id and the hand's
      result. */
  datatype TrickResult = TrickResult(winnerId: PlayerId, team: Team, handEnd: Option<HandSummary>)

  /** endHand: the match ends when the score has reached ±16; otherwise the
      hand ends, the team that is behind chooses the next dealer, and the
      other team will choose trump. The trick, the turn and the hands stay as
      they are. */
  function EndHand(e: Engine, team: Team, points: int, reason: EndReason): (r: Outcome<TrickResult>)
    requires PhasesAgree(e) && IsPlayPhase(e.game.phase)
    ensures r.value == TrickResult("", team, Some(HandSummary(team, points, reason)))
    ensures r.engine.game.phase == MatchEnd <==> IsMatchEnd(e.game.score)
    ensures r.engine.game.phase == MatchEnd || r.engine.game.phase == HandEnd
    ensures r.engine.machine.phase == r.engine.game.phase
    ensures r.engine.machine.history == e.machine.history + [r.engine.game.phase]
    ensures IsMatchEnd(e.game.score) ==> r.engine.game == e.game.(phase := MatchEnd)
    ensures !IsMatchEnd(e.game.score) ==>
      var chooser := GetDealerChoosingTeam(e.game.score);
      r.engine.game == e.game.(phase := HandEnd, dealerTeam := Some(chooser), trumpTeam := Some(Opposite(chooser)))
    ensures r.engine.players == e.players && r.engine.deck == e.deck && r.engine.remainingDeck == e.remainingDeck
  {
    var info := TrickResult("", team, Some(HandSummary(team, points, reason)));
    if IsMatchEnd(e.game.score) then
      Outcome(e.(machine := StateMachine.TransitionTo(e.machine, MatchEnd), game := e.game.(phase := MatchEnd)), info)
    else
      var chooser := GetDealerChoosingTeam(e.game.score);
      var g := e.game.(phase := HandEnd, dealerTeam := Some(chooser), trumpTeam := Some(if chooser == A then B else A));
      Outcome(e.(machine := StateMachine.TransitionTo(e.machine, HandEnd), game := g), info)
  }

  // ---------------------------------------------------------------- resolving a trick

  /** The hand is over: HAND_END, or MATCH_END exactly when the score has
      reached ±16. */
  predicate Ended(g: GameState)
  {
    (g.phase == HandEnd || g.phase == MatchEnd) && (g.phase == MatchEnd <==> IsMatchEnd(g.score))
  }

  /** resolveVakkaiTrick, after the trick count has been raised: a trick the
      declarer wins adds to the run, and the fourth ends the hand paying the
      declarer's team 8; a trick the declarer loses ends the hand paying the
      opponents 16. While the run goes on the declarer leads an empty trick. */
  function ResolveVakkaiTrick(e: Engine, winnerId: PlayerId, team: Team): (r: Outcome<TrickResult>)
    requires PhasesAgree(e) && IsPlayPhase(e.game.phase) && KnownOpt(e.players, e.game.vakkai.declarerId)
    ensures var d := e.game.vakkai.declarerId.value;
      var dTeam := PlayerWith(e.players, d).team;
      var wins := e.game.vakkai.consecutiveWins + 1;
      && r.engine.players == e.players && r.engine.game.trickCounts == e.game.trickCounts
      && (winnerId != d ==>
            && Ended(r.engine.game)
            && r.engine.game.score.Of(Opposite(dTeam)) == e.game.score.Of(Opposite(dTeam)) + 16
            && r.engine.game.score.Of(dTeam) == e.game.score.Of(dTeam) - 16
            && r.value.handEnd == Some(HandSummary(Opposite(dTeam), 16, VakkaiFailure)))
      && (winnerId == d && wins >= 4 ==>
            && Ended(r.engine.game)
            && r.engine.game.score.Of(dTeam) == e.game.score.Of(dTeam) + 8
            && r.engine.game.score.Of(Opposite(dTeam)) == e.game.score.Of(Opposite(dTeam)) - 8
            && r.value.handEnd == Some(HandSummary(dTeam, 8, VakkaiSuccess)))
      && (winnerId == d && wins < 4 ==>
            && r.engine.machine == e.machine
            && r.engine.game == e.game.(vakkai := e.game.vakkai.(consecutiveWins := wins),
                                        currentTrick := TrickState([], None, None), currentTurnId := Some(d))
            && r.value == TrickResult(winnerId, team, None))
  {
    var d := e.game.vakkai.declarerId.value;
    var dTeam := PlayerWith(e.players, d).team;
    if winnerId == d then
      var wins := e.game.vakkai.consecutiveWins + 1;
      var g := e.game.(vakkai := e.game.vakkai.(consecutiveWins := wins));
      if wins >= VakkaiTarget then
        var result := CalculateVakkaiResult(wins, dTeam);
        EndHand(e.(game := g.(score := ApplyScore(g.score, result.winnerTeam, result.points))),
                result.winnerTeam, result.points, VakkaiSuccess)
      else
        Outcome(e.(game := g.(currentTrick := CreateTrickState(), currentTurnId := Some(d))),
                TrickResult(winnerId, team, None))
    else
      var result := CalculateVakkaiResult(0, dTeam);
      OppositeIsInvolution(dTeam);
      EndHand(e.(game := e.game.(score := ApplyScore(e.game.score, result.winnerTeam, result.points))),
              result.winnerTeam, result.points, VakkaiFailure)
  }

  /** resolveNormalTrick, after the trick count has been raised: when
      checkHandWinner names a winner the hand ends and that team gains its
      points from the other; otherwise the trick's winner leads an empty
      trick. */
  function ResolveNormalTrick(e: Engine, winnerId: PlayerId, team: Team): (r: Outcome<TrickResult>)
    requires PhasesAgree(e) && IsPlayPhase(e.game.phase)
    requires e.game.trumpTeam.Some? && e.game.dealerTeam.Some?
    ensures var hr := CheckHandWinner(e.game.trickCounts, e.game.trumpTeam.value, e.game.dealerTeam.value);
      && r.engine.players == e.players && r.engine.game.trickCounts == e.game.trickCounts
      && (hr.Some? ==>
            && Ended(r.engine.game)
            && r.engine.game.score.Of(hr.value.team) == e.game.score.Of(hr.value.team) + hr.value.points
            && r.engine.game.score.Of(Opposite(hr.value.team)) == e.game.score.Of(Opposite(hr.value.team)) - hr.value.points
            && r.value.handEnd == Some(HandSummary(hr.value.team, hr.value.points, TargetReached(hr.value.reason))))
      && (hr.None? ==>
            && r.engine.machine == e.machine
            && r.engine.game == e.game.(currentTrick := TrickState([], None, None), currentTurnId := Some(winnerId))
            && r.value == TrickResult(winnerId, team, None))
  {
    var hr := CheckHandWinner(e.game.trickCounts, e.game.trumpTeam.value, e.game.dealerTeam.value);
    if hr.Some? then
      EndHand(e.(game := e.game.(score := ApplyScore(e.game.score, hr.value.team, hr.value.points))),
              hr.value.team, hr.value.points, TargetReached(hr.value.reason))
    else
      Outcome(e.(game := e.game.(currentTrick := CreateTrickState(), currentTurnId := Some(winnerId))),
              TrickResult(winnerId, team, None))
  }

  /** The winner of the current trick, which the source takes with `!`. */
  function TrickWinner(e: Engine): (w: PlayerId)
    requires PlayReady(e) && IsPlayPhase(e.game.phase) && |e.game.currentTrick.cards| > 0
    ensures Known(e.players, w)
    ensures w == PlayerOf(DetermineTrickWinner(e.game.currentTrick.cards, e.game.trumpSuit)).value
  {
    var t := e.game.currentTrick;
    assert SuitPlayed(t.cards, t.leadSuit.value, |t.cards|) by { assert t.cards[0].card.suit == t.leadSuit.value; }
    CalculateTrickWinner(t, e.game.trumpSuit).value
  }

  /** resolveTrick: the winner's team is credited with the trick, then the
      Vakkai or the normal rules decide what follows. */
  function ResolveTrick(e: Engine): (r: Outcome<TrickResult>)
    requires PlayReady(e) && IsPlayPhase(e.game.phase) && |e.game.currentTrick.cards| > 0
    ensures var w := TrickWinner(e);
      var team := PlayerWith(e.players, w).team;
      var e1 := e.(game := e.game.(trickCounts := Credit(e.game.trickCounts, team, 1)));
      r == if e.game.vakkai.active then ResolveVakkaiTrick(e1, w, team) else ResolveNormalTrick(e1, w, team)
    ensures var w := TrickWinner(e);
      var team := PlayerWith(e.players, w).team;
      && r.engine.players == e.players
      && r.engine.game.trickCounts.Of(team) == e.game.trickCounts.Of(team) + 1
      && r.engine.game.trickCounts.Of(Opposite(team)) == e.game.trickCounts.Of(Opposite(team))
      && (r.value.handEnd.None? ==>
            && r.value.winnerId == w && r.value.team == team
            && r.engine.game.phase == e.game.phase
            && r.engine.game.currentTrick == TrickState([], None, None))
      && (r.value.handEnd.Some? ==> Ended(r.engine.game))
  {
    var w := TrickWinner(e);
    var team := PlayerWith(e.players, w).team;
    var e1 := e.(game := e.game.(trickCounts := Credit(e.game.trickCounts, team, 1)));
    if e.game.vakkai.active then ResolveVakkaiTrick(e1, w, team) else ResolveNormalTrick(e1, w, team)
  }

  // ---------------------------------------------------------------- playing a card

  /** Why playCard refuses a play; a refusal changes nothing. */
  datatype PlayError = NotInTrickPlayPhase | NotYourTurn | CardNotInHand | MustFollowSuit(suit: Suit)

  /** The card leaves the player's hand and joins the trick. */
  function TakeCard(e: Engine, playerId: PlayerId, card: Card): (e': Engine)
    requires Known(e.players, playerId)
    ensures SameSeating(e.players, e'.players)
    ensures e'.players == SetHand(e.players, playerId, Without(PlayerWith(e.players, playerId).hand, card))
    ensures e'.game == e.game.(currentTrick := AddCardToTrick(e.game.currentTrick, playerId, card))
    ensures e'.machine == e.machine && e'.deck == e.deck && e'.remainingDeck == e.remainingDeck
  {
    var h := Without(PlayerWith(e.players, playerId).hand, card);
    e.(players := SetHand(e.players, playerId, h),
       game := e.game.(currentTrick := AddCardToTrick(e.game.currentTrick, playerId, card)))
  }

  /** playCard: refused outside the play phases, out of turn, for a card not
      in the hand, and for an off-suit card while the hand holds the lead
      suit; otherwise the card is taken from the hand onto the trick, and a
      complete trick is resolved while an incomplete one passes the turn. */
  function PlayCard(e: Engine, playerId: PlayerId, card: Card): (r: Result<Engine, PlayError>)
    requires PlayReady(e)
    ensures !IsPlayPhase(e.game.phase) ==> r == Failure(NotInTrickPlayPhase)
    ensures IsPlayPhase(e.game.phase) && e.game.currentTurnId != Some(playerId) ==> r == Failure(NotYourTurn)
    ensures IsPlayPhase(e.game.phase) && e.game.currentTurnId == Some(playerId) ==>
      var verdict := ValidateCardPlay(card, PlayerWith(e.players, playerId).hand, e.game.currentTrick.leadSuit);
      && (r.Success? <==> verdict == Legal)
      && (verdict == NotHeld ==> r == Failure(CardNotInHand))
      && (verdict.MustFollow? ==> r == Failure(MustFollowSuit(verdict.suit)))
    ensures r.Success? ==>
      && IsPlayPhase(e.game.phase) && e.game.currentTurnId == Some(playerId)
      && card in PlayerWith(e.players, playerId).hand
      && var e1 := TakeCard(e, playerId, card);
         && PlayReady(e1) && Full(e1.players) && |e1.game.currentTrick.cards| > 0
         && r.value == if IsTrickComplete(e1.game.currentTrick, e1.game.vakkai.active) then ResolveTrick(e1).engine
                       else AdvanceToNextPlayer(e1)
  {
    if !IsPlayPhase(e.game.phase) then Failure(NotInTrickPlayPhase)
    else if e.game.currentTurnId != Some(playerId) then Failure(NotYourTurn)
    else
      var hand := PlayerWith(e.players, playerId).hand;
      var lead := e.game.currentTrick.leadSuit;
      if card !in hand then Failure(CardNotInHand)
      else if lead.Some? && (exists c :: c in hand && c.suit == lead.value) && card.suit != lead.value then
        Failure(MustFollowSuit(lead.value))
      else Success(CommitPlay(e, playerId, card))
  }

  /** The accepted play: the card goes onto the trick, then the trick is
      resolved if complete and the turn passes on if not. */
  function CommitPlay(e: Engine, playerId: PlayerId, card: Card): (e': Engine)
    requires PlayReady(e) && IsPlayPhase(e.game.phase) && e.game.currentTurnId == Some(playerId)
    ensures var e1 := TakeCard(e, playerId, card);
      && PlayReady(e1) && Full(e1.players) && |e1.game.currentTrick.cards| > 0
      && e' == if IsTrickComplete(e1.game.currentTrick, e1.game.vakkai.active) then ResolveTrick(e1).engine
               else AdvanceToNextPlayer(e1)
  {
    var e1 := TakeCard(e, playerId, card);
    TakeCardKeepsReady(e, playerId, card);
    if IsTrickComplete(e1.game.currentTrick, e1.game.vakkai.active) then ResolveTrick(e1).engine
    else AdvanceToNextPlayer(e1)
  }

  /** Taking a card keeps what the rest of playCard relies on. */
  lemma TakeCardKeepsReady(e: Engine, playerId: PlayerId, card: Card)
    requires PlayReady(e) && IsPlayPhase(e.game.phase) && e.game.currentTurnId == Some(playerId)
    ensures var e1 := TakeCard(e, playerId, card);
      PlayReady(e1) && Full(e1.players) && |e1.game.currentTrick.cards| > 0
  {
    var e1 := TakeCard(e, playerId, card);
    SameSeatingKeepsRoster(e.players, e1.players);
    OperableWithNewHandsAndTrick(e, e1);
    PlayersOfTrickStayKnown(e.players, e1.players, e.game.currentTrick, playerId, card);
  }

  /** New hands on the same seating and a new current trick leave the roles,
      the turn and the phases as they were. */
  lemma OperableWithNewHandsAndTrick(e: Engine, e1: Engine)
    requires Operable(e) && SameSeating(e.players, e1.players) && e1.machine == e.machine
    requires e1.game == e.game.(currentTrick := e1.game.currentTrick)
    ensures Operable(e1)
    ensures e.game.vakkai.active && KnownOpt(e.players, e.game.vakkai.declarerId) ==>
      KnownOpt(e1.players, e1.game.vakkai.declarerId)
  {
    SameSeatingKeepsRoster(e.players, e1.players);
    RolesSetUnderSameSeating(e, e1);
  }

  /** Adding a known player's card to a trick of known players' cards, on a
      roster with the same ids, leaves a trick of known players' cards. */
  lemma PlayersOfTrickStayKnown(ps: seq<Player>, qs: seq<Player>, t: TrickState, playerId: PlayerId, card: Card)
    requires SameSeating(ps, qs) && Known(ps, playerId)
    requires forall j :: 0 <= j < |t.cards| ==> Known(ps, t.cards[j].playerId)
    ensures var t1 := AddCardToTrick(t, playerId, card);
      forall j :: 0 <= j < |t1.cards| ==> Known(qs, t1.cards[j].playerId)
  {
    SameSeatingKeepsRoster(ps, qs);
    var t1 := AddCardToTrick(t, playerId, card);
    forall j | 0 <= j < |t1.cards| ensures Known(qs, t1.cards[j].playerId) {
      if j < |t.cards| {
        assert t1.cards[j] == t1.cards[..|t.cards|][j];
      }
    }
  }

  // ---------------------------------------------------------------- the invariant during play

  /** What holds of the engine during trick play whether or not the trick is
      still open: the invariant short of TrickOpen, in a play phase. */
  predicate InPlay(e: Engine)
  {
    && Operable(e) && IsPlayPhase(e.game.phase)
    && e.game.score.a + e.game.score.b == 0
    && VakkaiOnlyInVakkaiPlay(e) && TrickShape(e) && VakkaiTurns(e)
  }

  /** Ending a hand leaves a valid engine at HAND_END or MATCH_END. */
  lemma EndHandKeepsValid(e: Engine, team: Team, points: int, reason: EndReason)
    requires Operable(e) && IsPlayPhase(e.game.phase) && e.game.score.a + e.game.score.b == 0
    ensures Valid(EndHand(e, team, points, reason).engine)
  {
  }

  /** Resolving a complete trick leaves a valid engine: either the hand has
      ended, or an empty trick is led by the trick's winner (normal play) or
      by the declarer (Vakkai). */
  lemma ResolveTrickKeepsValid(e: Engine)
    requires InPlay(e) && |e.game.currentTrick.cards| > 0
    ensures Valid(ResolveTrick(e).engine)
  {
    var w := TrickWinner(e);
    var team := PlayerWith(e.players, w).team;
    var e1 := e.(game := e.game.(trickCounts := Credit(e.game.trickCounts, team, 1)));
    CreditKeepsInPlay(e, e1);
    if e.game.vakkai.active {
      VakkaiResolveKeepsValid(e1, w, team);
    } else {
      NormalResolveKeepsValid(e1, w, team);
    }
  }

  /** Counting a trick touches nothing the play-time invariant is about. */
  lemma CreditKeepsInPlay(e: Engine, e1: Engine)
    requires InPlay(e) && e1 == e.(game := e1.game) && e1.game == e.game.(trickCounts := e1.game.trickCounts)
    ensures InPlay(e1)
  {
  }

  lemma VakkaiResolveKeepsValid(e: Engine, w: PlayerId, team: Team)
    requires InPlay(e) && e.game.vakkai.active
    ensures Valid(ResolveVakkaiTrick(e, w, team).engine)
  {
    var d := e.game.vakkai.declarerId.value;
    var dTeam := PlayerWith(e.players, d).team;
    if w == d {
      var wins := e.game.vakkai.consecutiveWins + 1;
      var g := e.game.(vakkai := e.game.vakkai.(consecutiveWins := wins));
      if wins >= VakkaiTarget {
        var result := CalculateVakkaiResult(wins, dTeam);
        EndHandKeepsValid(e.(game := g.(score := ApplyScore(g.score, result.winnerTeam, result.points))),
                          result.winnerTeam, result.points, VakkaiSuccess);
      } else {
        VakkaiContinuesValid(e, w, team);
      }
    } else {
      var result := CalculateVakkaiResult(0, dTeam);
      EndHandKeepsValid(e.(game := e.game.(score := ApplyScore(e.game.score, result.winnerTeam, result.points))),
                        result.winnerTeam, result.points, VakkaiFailure);
    }
  }

  /** A Vakkai trick the declarer wins short of the target keeps the
      invariant: the declarer leads the next trick. */
  lemma VakkaiContinuesValid(e: Engine, w: PlayerId, team: Team)
    requires InPlay(e) && e.game.vakkai.active && w == e.game.vakkai.declarerId.value
    requires e.game.vakkai.consecutiveWins + 1 < VakkaiTarget
    ensures Valid(ResolveVakkaiTrick(e, w, team).engine)
  {
    var e' := ResolveVakkaiTrick(e, w, team).engine;
    DeclarerLeadsValid(e, e');
  }

  /** The same table with the declarer leading an empty trick, and only the
      Vakkai's win count changed, is valid. */
  lemma DeclarerLeadsValid(e: Engine, e': Engine)
    requires InPlay(e) && e.game.vakkai.active && KnownOpt(e.players, e.game.vakkai.declarerId)
    requires e'.players == e.players && e'.machine == e.machine
    requires e'.game == e.game.(vakkai := e.game.vakkai.(consecutiveWins := e'.game.vakkai.consecutiveWins),
                                currentTrick := TrickState([], None, None), currentTurnId := e.game.vakkai.declarerId)
    ensures Valid(e')
  {
  }

  lemma NormalResolveKeepsValid(e: Engine, w: PlayerId, team: Team)
    requires InPlay(e) && !e.game.vakkai.active && Known(e.players, w)
    ensures Valid(ResolveNormalTrick(e, w, team).engine)
  {
    var hr := CheckHandWinner(e.game.trickCounts, e.game.trumpTeam.value, e.game.dealerTeam.value);
    if hr.Some? {
      EndHandKeepsValid(e.(game := e.game.(score := ApplyScore(e.game.score, hr.value.team, hr.value.points))),
                        hr.value.team, hr.value.points, TargetReached(hr.value.reason));
    }
  }

  /** Passing the turn within an open trick keeps the invariant; in a Vakkai
      the turn never reaches the declarer's partner. */
  lemma AdvanceKeepsValid(e: Engine)
    requires InPlay(e) && TrickOpen(e)
    ensures Valid(AdvanceToNextPlayer(e))
  {
  }

  /** Taking a card keeps the play-time invariant and puts one more card on
      the trick. */
  lemma TakeCardKeepsInPlay(e: Engine, playerId: PlayerId, card: Card)
    requires InPlay(e) && e.game.currentTurnId == Some(playerId)
    ensures var e1 := TakeCard(e, playerId, card);
      InPlay(e1) && |e1.game.currentTrick.cards| == |e.game.currentTrick.cards| + 1
  {
    var e1 := TakeCard(e, playerId, card);
    TakeCardKeepsReady(e, playerId, card);
    VakkaiTurnsUnderSameSeating(e, e1.players);
  }

  /** playCard keeps the engine invariant. */
  lemma PlayCardKeepsValid(e: Engine, playerId: PlayerId, card: Card)
    requires Valid(e)
    ensures PlayCard(e, playerId, card).Success? ==> Valid(PlayCard(e, playerId, card).value)
  {
    var r := PlayCard(e, playerId, card);
    if r.Success? {
      var e1 := TakeCard(e, playerId, card);
      TakeCardKeepsInPlay(e, playerId, card);
      if IsTrickComplete(e1.game.currentTrick, e1.game.vakkai.active) {
        ResolveTrickKeepsValid(e1);
      } else {
        AdvanceKeepsValid(e1);
      }
    }
  }

  // ---------------------------------------------------------------- what a play does

  /** An accepted play takes exactly the played card out of the player's hand
      (the player held it) and leaves every other hand and every seat as it
      was. */
  lemma PlayTakesTheCard(e: Engine, playerId: PlayerId, card: Card)
    requires PlayReady(e) && PlayCard(e, playerId, card).Success?
    ensures var e' := PlayCard(e, playerId, card).value;
      var hand := PlayerWith(e.players, playerId).hand;
      && card in hand
      && SameSeating(e.players, e'.players)
      && Known(e'.players, playerId) && PlayerWith(e'.players, playerId).hand == Without(hand, card)
      && forall o :: Known(e.players, o) && o != playerId ==>
           Known(e'.players, o) && PlayerWith(e'.players, o).hand == PlayerWith(e.players, o).hand
  {
    var e1 := TakeCard(e, playerId, card);
    SetHandReadBack(e.players, playerId, Without(PlayerWith(e.players, playerId).hand, card));
  }

  /** An accepted play that leaves the trick short of its size adds the card
      to it and passes the turn to somebody else. */
  lemma PlayExtendsAnOpenTrick(e: Engine, playerId: PlayerId, card: Card)
    requires PlayReady(e) && PlayCard(e, playerId, card).Success?
    requires |e.game.currentTrick.cards| + 1 < RequiredCards(e.game.vakkai.active)
    ensures var e' := PlayCard(e, playerId, card).value;
      && e'.game.currentTrick == AddCardToTrick(e.game.currentTrick, playerId, card)
      && e'.game.phase == e.game.phase && e'.game.score == e.game.score
      && e'.game.currentTurnId.Some? && e'.game.currentTurnId != e.game.currentTurnId
  {
    var e1 := TakeCard(e, playerId, card);
    var e' := AdvanceToNextPlayer(e1);
    var ps := e1.players;
    var cur := SeatOf(ps, e1.game.currentTurnId.value);
    var next := SeatOf(ps, e'.game.currentTurnId.value);
    if e.game.vakkai.active {
      var d := SeatOf(ps, e.game.vakkai.declarerId.value);
      NextSeatIsAnother(cur, true, Some(d));
    } else {
      NextSeatIsAnother(cur, false, None);
    }
    assert next != cur;
  }

  /** getNextPlayer never hands the turn back to the same seat. */
  lemma NextSeatIsAnother(cur: Seat, isVakkai: bool, declarer: Option<Seat>)
    ensures GetNextPlayer(cur, isVakkai, declarer) != cur
  {
  }

  /** An accepted play that completes the trick credits it to the team of
      the player determineTrickWinner names. */
  lemma PlayCompletesTheTrick(e: Engine, playerId: PlayerId, card: Card)
    requires PlayReady(e) && PlayCard(e, playerId, card).Success?
    requires |e.game.currentTrick.cards| + 1 >= RequiredCards(e.game.vakkai.active)
    ensures var e' := PlayCard(e, playerId, card).value;
      var t1 := AddCardToTrick(e.game.currentTrick, playerId, card);
      var w := PlayerOf(DetermineTrickWinner(t1.cards, e.game.trumpSuit)).value;
      && Known(e.players, w)
      && e'.game.trickCounts.Of(PlayerWith(e.players, w).team)
         == e.game.trickCounts.Of(PlayerWith(e.players, w).team) + 1
  {
    var e1 := TakeCard(e, playerId, card);
    var w := TrickWinner(e1);
    SameSeatingKeepsRoster(e.players, e1.players);
    SameSeatingSameSearch(e.players, e1.players, 0, w);
  }
}
