/** Seating and readiness (server/src/game/GameState.ts, player management,
    startReadyCheck and the state accessors): joining, the ready flag, moving
    to the other team, starting the ready check, and what clients may see. */
module Lobby {
  import opened Wrappers
  import opened Types
  import opened GameEngine
  import StateMachine

  // ---------------------------------------------------------------- addPlayer

  /** The seat search of addPlayer from `seat` on: step past taken seats,
      stopping at 4. */
  function FirstFreeFrom(ps: seq<Player>, seat: nat): (r: nat)
    requires seat <= 4
    ensures seat <= r <= 4
    ensures r < 4 ==> !Occupied(ps, r)
    ensures forall s: Seat :: seat <= s < r ==> Occupied(ps, s)
    decreases 4 - seat
  {
    if seat < 4 && Occupied(ps, seat) then FirstFreeFrom(ps, seat + 1) else seat
  }

  /** Fewer than four players leave the search a seat. */
  lemma FreeSeatFound(ps: seq<Player>)
    requires |ps| < 4
    ensures FirstFreeFrom(ps, 0) < 4
  {
    if FirstFreeFrom(ps, 0) == 4 {
      AllSeatsTakenNeedsFour(ps);
    }
  }

  /** `players.set(id, player)`: replaces the entry with that id in place, or
      appends a new one. */
  function PutPlayer(ps: seq<Player>, p: Player): (qs: seq<Player>)
    ensures p in qs
    ensures Known(ps, p.id) ==> |qs| == |ps| && forall i :: 0 <= i < |ps| && ps[i].id != p.id ==> qs[i] == ps[i]
    ensures !Known(ps, p.id) ==> qs == ps + [p]
  {
    var i := FindId(ps, p.id);
    if i.Some? then
      assert ps[i.value := p][i.value] == p;
      ps[i.value := p]
    else ps + [p]
  }

  /** Putting a player on a free seat keeps the roster sound, makes the player
      findable and leaves everybody else where they were. */
  lemma PutPlayerOnFreeSeat(ps: seq<Player>, p: Player)
    requires RosterOk(ps) && !Occupied(ps, p.seat) && p.team == TeamForSeat(p.seat)
    requires Known(ps, p.id) || |ps| < 4
    ensures var qs := PutPlayer(ps, p);
      && RosterOk(qs)
      && GetPlayer(qs, p.id) == Some(p)
      && |qs| == (if Known(ps, p.id) then |ps| else |ps| + 1)
      && forall other :: other != p.id ==> GetPlayer(qs, other) == GetPlayer(ps, other)
  {
    PutPlayerKeepsRoster(ps, p);
    PutPlayerKeepsOthers(ps, p);
  }

  lemma PutPlayerKeepsRoster(ps: seq<Player>, p: Player)
    requires RosterOk(ps) && !Occupied(ps, p.seat) && p.team == TeamForSeat(p.seat)
    requires Known(ps, p.id) || |ps| < 4
    ensures var qs := PutPlayer(ps, p);
      && RosterOk(qs)
      && GetPlayer(qs, p.id) == Some(p)
      && |qs| == (if Known(ps, p.id) then |ps| else |ps| + 1)
  {
    var qs := PutPlayer(ps, p);
    var i := FindId(ps, p.id);
    assert forall j :: 0 <= j < |ps| && (i.None? || j != i.value) ==> qs[j] == ps[j];
    assert DistinctIds(qs);
    assert RosterOk(qs);
    var k := if i.Some? then i.value else |ps|;
    assert qs[k] == p;
    FindIdAt(qs, k);
  }

  lemma PutPlayerKeepsOthers(ps: seq<Player>, p: Player)
    requires RosterOk(ps) && !Occupied(ps, p.seat) && p.team == TeamForSeat(p.seat)
    requires Known(ps, p.id) || |ps| < 4
    ensures var qs := PutPlayer(ps, p);
      forall other :: other != p.id ==> GetPlayer(qs, other) == GetPlayer(ps, other)
  {
    var qs := PutPlayer(ps, p);
    var i := FindId(ps, p.id);
    assert forall j :: 0 <= j < |ps| && (i.None? || j != i.value) ==> qs[j] == ps[j];
    PutPlayerKeepsRoster(ps, p);
    forall other | other != p.id ensures GetPlayer(qs, other) == GetPlayer(ps, other) {
      if Known(ps, other) {
        var j := FindId(ps, other).value;
        FindIdAt(ps, j);
        FindIdAt(qs, j);
      } else {
        assert !Known(qs, other);
      }
    }
  }

  /** addPlayer: refused (null) once four players are in; otherwise the player
      takes the lowest free seat, on that seat's team, with an empty hand and
      not ready. Re-adding a known id moves that entry to the new seat. */
  function AddPlayer(e: Engine, id: PlayerId, name: string): (r: Outcome<Option<Player>>)
    requires RosterOk(e.players)
    ensures r.value.None? <==> |e.players| >= 4
    ensures r.value.None? ==> r.engine == e
    ensures r.value.Some? ==>
      var p := r.value.value;
      && p == Player(id, name, p.seat, TeamForSeat(p.seat), [], false)
      && !Occupied(e.players, p.seat)
      && (forall s: Seat :: s < p.seat ==> Occupied(e.players, s))
      && r.engine == e.(players := r.engine.players)
      && GetPlayer(r.engine.players, id) == Some(p)
      && (forall other :: other != id ==> GetPlayer(r.engine.players, other) == GetPlayer(e.players, other))
      && |r.engine.players| == (if Known(e.players, id) then |e.players| else |e.players| + 1)
    ensures RosterOk(r.engine.players)
  {
    if |e.players| >= 4 then Outcome(e, None)
    else
      FreeSeatFound(e.players);
      var seat: Seat := FirstFreeFrom(e.players, 0);
      var p := Player(id, name, seat, TeamForSeat(seat), [], false);
      PutPlayerOnFreeSeat(e.players, p);
      Outcome(e.(players := PutPlayer(e.players, p)), Some(p))
  }

  /** Joining keeps the engine invariant: a join only succeeds while seats
      are free, that is before the ready check. */
  lemma AddPlayerKeepsValid(e: Engine, id: PlayerId, name: string)
    requires Valid(e)
    ensures Valid(AddPlayer(e, id, name).engine)
  {
  }

  // ---------------------------------------------------------------- readiness

  /** The players with the entry at position i replaced by one with the same
      id, seat, team and hand. */
  lemma ReplaceKeepsSeating(ps: seq<Player>, i: nat, p: Player)
    requires i < |ps| && p.id == ps[i].id && p.seat == ps[i].seat && p.team == ps[i].team && p.hand == ps[i].hand
    ensures SameSeating(ps, ps[i := p])
    ensures forall j :: 0 <= j < |ps| ==> ps[i := p][j].hand == ps[j].hand
  {
  }

  /** setPlayerReady: false for an unknown id; otherwise that player's flag is
      set and nothing else changes. */
  function SetPlayerReady(e: Engine, id: PlayerId, ready: bool): (r: Outcome<bool>)
    requires DistinctIds(e.players)
    ensures r.value <==> Known(e.players, id)
    ensures !r.value ==> r.engine == e
    ensures r.value ==>
      && r.engine == e.(players := r.engine.players)
      && SameSeating(e.players, r.engine.players)
      && (forall j :: 0 <= j < |e.players| ==> r.engine.players[j].hand == e.players[j].hand)
      && GetPlayer(r.engine.players, id) == Some(PlayerWith(e.players, id).(isReady := ready))
      && (forall other :: other != id ==> GetPlayer(r.engine.players, other) == GetPlayer(e.players, other))
  {
    var i := FindId(e.players, id);
    if i.None? then Outcome(e, false)
    else
      var ps := e.players;
      var p := ps[i.value].(isReady := ready);
      var qs := ps[i.value := p];
      ReplaceKeepsSeating(ps, i.value, p);
      forall other ensures GetPlayer(qs, other) == (if other == id then Some(p) else GetPlayer(ps, other)) {
        SameSeatingSameSearch(ps, qs, 0, other);
      }
      Outcome(e.(players := qs), true)
  }

  lemma SetPlayerReadyKeepsValid(e: Engine, id: PlayerId, ready: bool)
    requires Valid(e)
    ensures Valid(SetPlayerReady(e, id, ready).engine)
  {
    var r := SetPlayerReady(e, id, ready);
    if r.value {
      ValidUnderSameSeating(e, r.engine.players);
    }
  }

  /** allPlayersReady: four players, every one of them ready. */
  function AllPlayersReady(ps: seq<Player>): (ok: bool)
    requires DistinctIds(ps)
    ensures ok <==> |ps| == 4 && forall id :: Known(ps, id) ==> PlayerWith(ps, id).isReady
  {
    if |ps| != 4 then false
    else
      var ok := forall i :: 0 <= i < 4 ==> ps[i].isReady;
      assert ok ==> forall id :: Known(ps, id) ==> PlayerWith(ps, id).isReady;
      assert !ok ==> exists id :: Known(ps, id) && !PlayerWith(ps, id).isReady by {
        if !ok {
          var i :| 0 <= i < 4 && !ps[i].isReady;
          FindIdAt(ps, i);
          assert Known(ps, ps[i].id) && !PlayerWith(ps, ps[i].id).isReady;
        }
      }
      ok
  }

  /** Readying a player on a full table where everybody else is ready
      completes the ready check; un-readying anyone undoes it. */
  lemma ReadyingTheLastPlayerCompletesTheCheck(e: Engine, id: PlayerId, ready: bool)
    requires Full(e.players) && Known(e.players, id)
    requires forall other :: Known(e.players, other) && other != id ==> PlayerWith(e.players, other).isReady
    ensures AllPlayersReady(SetPlayerReady(e, id, ready).engine.players) == ready
  {
    var qs := SetPlayerReady(e, id, ready).engine.players;
    SameSeatingKeepsRoster(e.players, qs);
    assert GetPlayer(qs, id).value.isReady == ready;
    forall other | Known(qs, other) && other != id ensures PlayerWith(qs, other).isReady {
      assert GetPlayer(qs, other) == GetPlayer(e.players, other);
    }
  }

  // ---------------------------------------------------------------- teams

  /** Some player other than `id` sits in seat s. */
  predicate TakenByOther(ps: seq<Player>, id: PlayerId, s: Seat)
  {
    exists j :: 0 <= j < |ps| && ps[j].id != id && ps[j].seat == s
  }

  /** A team's two seats, lower first. */
  function TeamSeats(t: Team): (seats: seq<Seat>)
    ensures |seats| == 2 && seats[0] < seats[1]
    ensures forall s: Seat :: TeamForSeat(s) == t <==> s in seats
  {
    SeatingAlternatesTeams(0);
    if t == A then [0, 2] else [1, 3]
  }

  /** `teamSeats.find(seat => !takenSeats.has(seat))`. */
  function FreeTeamSeat(ps: seq<Player>, id: PlayerId, t: Team): (seat: Option<Seat>)
    ensures seat.Some? ==> TeamForSeat(seat.value) == t && !TakenByOther(ps, id, seat.value)
    ensures seat.Some? ==> forall s: Seat :: s < seat.value && TeamForSeat(s) == t ==> TakenByOther(ps, id, s)
    ensures seat.None? <==> forall s: Seat :: TeamForSeat(s) == t ==> TakenByOther(ps, id, s)
  {
    var seats := TeamSeats(t);
    if !TakenByOther(ps, id, seats[0]) then Some(seats[0])
    else if !TakenByOther(ps, id, seats[1]) then Some(seats[1])
    else None
  }

  /** changePlayerTeam: false for an unknown id or when both seats of the new
      team are taken by others; otherwise the player moves to the lower free
      seat of that team and has to ready up again. The source does not look
      at the phase. */
  function ChangePlayerTeam(e: Engine, id: PlayerId, newTeam: Team): (r: Outcome<bool>)
    requires RosterOk(e.players)
    ensures r.value <==> Known(e.players, id) && FreeTeamSeat(e.players, id, newTeam).Some?
    ensures !r.value ==> r.engine == e
    ensures r.value ==>
      var was := PlayerWith(e.players, id);
      var seat := FreeTeamSeat(e.players, id, newTeam).value;
      && r.engine == e.(players := r.engine.players)
      && GetPlayer(r.engine.players, id) == Some(was.(seat := seat, team := newTeam, isReady := false))
      && (forall other :: other != id ==> GetPlayer(r.engine.players, other) == GetPlayer(e.players, other))
      && |r.engine.players| == |e.players|
    ensures RosterOk(r.engine.players)
  {
    var i := FindId(e.players, id);
    if i.None? then Outcome(e, false)
    else
      var seat := FreeTeamSeat(e.players, id, newTeam);
      if seat.None? then Outcome(e, false)
      else
        var ps := e.players;
        var p := ps[i.value].(seat := seat.value, team := newTeam, isReady := false);
        var qs := ps[i.value := p];
        ChangeSeatKeepsRoster(ps, i.value, p);
        Outcome(e.(players := qs), true)
  }

  /** Moving one player to a seat nobody else holds keeps the roster sound and
      everyone else findable as before. */
  lemma ChangeSeatKeepsRoster(ps: seq<Player>, i: nat, p: Player)
    requires RosterOk(ps) && i < |ps| && p.id == ps[i].id
    requires !TakenByOther(ps, p.id, p.seat) && p.team == TeamForSeat(p.seat)
    ensures var qs := ps[i := p];
      && RosterOk(qs)
      && GetPlayer(qs, p.id) == Some(p)
      && forall other :: other != p.id ==> GetPlayer(qs, other) == GetPlayer(ps, other)
  {
    var qs := ps[i := p];
    assert DistinctIds(qs);
    forall j, k | 0 <= j < k < |qs| ensures qs[j].seat != qs[k].seat {
      if j == i { assert ps[k].id != p.id; }
      else if k == i { assert ps[j].id != p.id; }
    }
    FindIdAt(qs, i);
    forall other | other != p.id ensures GetPlayer(qs, other) == GetPlayer(ps, other) {
      SameIdsSameSearch(ps, qs, other);
    }
  }

  /** Searching by id looks only at ids. */
  lemma {:induction false} SameIdsSameSearch(ps: seq<Player>, qs: seq<Player>, id: PlayerId)
    requires |ps| == |qs| && forall j :: 0 <= j < |ps| ==> ps[j].id == qs[j].id
    ensures FindId(qs, id) == FindId(ps, id)
  {
    if |ps| > 0 {
      SameIdsSameSearch(ps[1..], qs[1..], id);
    }
  }

  /** On a full table nobody can switch sides: changing team only succeeds
      for one's own team, and then keeps the seat. */
  lemma FullTableKeepsTeams(e: Engine, id: PlayerId, newTeam: Team)
    requires Full(e.players) && Known(e.players, id)
    ensures var r := ChangePlayerTeam(e, id, newTeam);
      && (r.value <==> newTeam == PlayerWith(e.players, id).team)
      && (r.value ==> GetPlayer(r.engine.players, id).value.seat == SeatOf(e.players, id))
  {
    var ps := e.players;
    var i := FindId(ps, id).value;
    FullTableSeatsEveryone(ps);
    forall s: Seat | s != ps[i].seat ensures TakenByOther(ps, id, s) {
      var j := FindSeat(ps, s).value;
      assert ps[j].id != id;
    }
    SeatingAlternatesTeams(ps[i].seat);
    assert !TakenByOther(ps, id, ps[i].seat);
    var mate: Seat := (ps[i].seat + 2) % 4;
    assert TeamForSeat(mate) == ps[i].team;
  }

  /** Changing team keeps the engine invariant. */
  lemma ChangePlayerTeamKeepsValid(e: Engine, id: PlayerId, newTeam: Team)
    requires Valid(e)
    ensures Valid(ChangePlayerTeam(e, id, newTeam).engine)
  {
    var r := ChangePlayerTeam(e, id, newTeam);
    if r.value && |e.players| == 4 {
      ChangeTeamOnFullTable(e, id, newTeam);
    } else {
      ChangeTeamBeforeFullTable(e, id, newTeam);
    }
  }

  lemma ChangeTeamOnFullTable(e: Engine, id: PlayerId, newTeam: Team)
    requires Valid(e) && |e.players| == 4 && ChangePlayerTeam(e, id, newTeam).value
    ensures Valid(ChangePlayerTeam(e, id, newTeam).engine)
  {
    var r := ChangePlayerTeam(e, id, newTeam);
    FullTableKeepsTeams(e, id, newTeam);
    var ps, qs := e.players, r.engine.players;
    var i := FindId(ps, id).value;
    FindIdAt(qs, i);
    assert qs == ps[i := qs[i]];
    assert SameSeating(ps, qs);
    ValidUnderSameSeating(e, qs);
  }

  lemma ChangeTeamBeforeFullTable(e: Engine, id: PlayerId, newTeam: Team)
    requires Valid(e) && (|e.players| < 4 || !ChangePlayerTeam(e, id, newTeam).value)
    ensures Valid(ChangePlayerTeam(e, id, newTeam).engine)
  {
  }

  /** Changing team clears the ready flag, so it always undoes a completed
      ready check. */
  lemma ChangingTeamUndoesReadiness(e: Engine, id: PlayerId, newTeam: Team)
    requires RosterOk(e.players)
    requires ChangePlayerTeam(e, id, newTeam).value
    ensures !AllPlayersReady(ChangePlayerTeam(e, id, newTeam).engine.players)
  {
    var qs := ChangePlayerTeam(e, id, newTeam).engine.players;
    assert Known(qs, id) && !PlayerWith(qs, id).isReady;
  }

  // ---------------------------------------------------------------- ready check

  /** startReadyCheck: false unless there are four players; otherwise the
      machine moves to READY_CHECK, which its table allows only from
      WAITING_FOR_PLAYERS. */
  function StartReadyCheck(e: Engine): (r: Outcome<bool>)
    requires |e.players| == 4 ==> StateMachine.CanTransition(e.machine.phase, ReadyCheck)
    ensures r.value <==> |e.players| == 4
    ensures !r.value ==> r.engine == e
    ensures r.value ==>
      && r.engine.game == e.game.(phase := ReadyCheck)
      && r.engine.machine.history == e.machine.history + [ReadyCheck]
      && r.engine.players == e.players && r.engine.deck == e.deck
    ensures r.value ==>
      && r.engine == e.(machine := r.engine.machine, game := e.game.(phase := ReadyCheck))
      && r.engine.machine.phase == ReadyCheck
  {
    if |e.players| != 4 then Outcome(e, false)
    else
      Outcome(e.(machine := StateMachine.TransitionTo(e.machine, ReadyCheck),
                 game := e.game.(phase := ReadyCheck)), true)
  }

  /** Starting the ready check from the lobby keeps the engine invariant. */
  lemma StartReadyCheckKeepsValid(e: Engine)
    requires Valid(e) && e.game.phase == WaitingForPlayers
    ensures Valid(StartReadyCheck(e).engine)
  {
  }

  // ---------------------------------------------------------------- views

  /** getPlayerHand: the player's cards, or none for an unknown id. */
  function GetPlayerHand(ps: seq<Player>, id: PlayerId): (h: seq<Card>)
    ensures Known(ps, id) ==> h == PlayerWith(ps, id).hand
    ensures !Known(ps, id) ==> h == []
  {
    var p := GetPlayer(ps, id);
    if p.Some? then p.value.hand else []
  }

  datatype PublicPlayer = PublicPlayer(id: PlayerId, name: string, seat: Seat, team: Team, cardCount: nat, isReady: bool)

  datatype PublicState = PublicState(
    phase: Phase,
    dealerId: Option<PlayerId>,
    trumpChooserId: Option<PlayerId>,
    currentTurnId: Option<PlayerId>,
    trumpSuit: Option<Suit>,
    vakkai: VakkaiState,
    currentTrick: TrickState,
    trickCounts: PerTeam,
    score: Score,
    players: seq<PublicPlayer>)

  function Publish(p: Player): PublicPlayer
  {
    PublicPlayer(p.id, p.name, p.seat, p.team, |p.hand|, p.isReady)
  }

  /** getPublicState: the game record without the deck, and every player with
      a card count in place of the hand. */
  function GetPublicState(e: Engine): (v: PublicState)
    ensures |v.players| == |e.players|
    ensures forall i :: 0 <= i < |e.players| ==>
      v.players[i].id == e.players[i].id && v.players[i].cardCount == |e.players[i].hand|
    ensures v.phase == e.game.phase && v.score == e.game.score && v.currentTrick == e.game.currentTrick
  {
    PublicState(e.game.phase, e.game.dealerId, e.game.trumpChooserId, e.game.currentTurnId,
                e.game.trumpSuit, e.game.vakkai, e.game.currentTrick, e.game.trickCounts, e.game.score,
                seq(|e.players|, i requires 0 <= i < |e.players| => Publish(e.players[i])))
  }

  /** The public view reveals nobody's cards: engines that differ only in
      which cards the players hold (not how many), in the deck and in what
      is left of it look the same. */
  lemma PublicStateHidesCards(e1: Engine, e2: Engine)
    requires e1.game == e2.game && |e1.players| == |e2.players|
    requires forall i :: 0 <= i < |e1.players| ==>
      e1.players[i] == e2.players[i].(hand := e1.players[i].hand) && |e1.players[i].hand| == |e2.players[i].hand|
    ensures GetPublicState(e1) == GetPublicState(e2)
  {
    assert GetPublicState(e1).players == GetPublicState(e2).players;
  }
}
