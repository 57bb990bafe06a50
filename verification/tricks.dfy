/** The trick tracker (server/src/game/TrickLogic.ts): collecting the cards of
    one trick, fixing its lead suit, deciding when it is complete, and the
    order in which seats take their turns, with the partner of a Vakkai
    declarer sitting out. */
module Tricks {
  import opened Wrappers
  import opened Types
  import opened Cards

  /** createTrickState: no cards yet, so neither a lead suit nor a winner. */
  function CreateTrickState(): (t: TrickState)
    ensures |t.cards| == 0 && t.leadSuit.None? && t.winnerId.None?
    ensures LeadFixed(t)
  {
    TrickState([], None, None)
  }

  /** The lead suit is unset on an empty trick and is the first card's suit
      once a card has been played. */
  predicate LeadFixed(t: TrickState)
  {
    if |t.cards| == 0 then t.leadSuit.None? else t.leadSuit == Some(t.cards[0].card.suit)
  }

  /** addCardToTrick: the play is appended, earlier plays stay as they were,
      the lead suit is set by the first card only and the winner is cleared. */
  function AddCardToTrick(trick: TrickState, playerId: PlayerId, card: Card): (t: TrickState)
    ensures |t.cards| == |trick.cards| + 1
    ensures t.cards[..|trick.cards|] == trick.cards && t.cards[|trick.cards|] == TrickCard(playerId, card)
    ensures trick.leadSuit.Some? ==> t.leadSuit == trick.leadSuit
    ensures trick.leadSuit.None? ==> t.leadSuit == Some(card.suit)
    ensures t.winnerId.None?
    ensures LeadFixed(trick) ==> LeadFixed(t)
  {
    TrickState(trick.cards + [TrickCard(playerId, card)],
               if trick.leadSuit.Some? then trick.leadSuit else Some(card.suit),
               None)
  }

  /** The trick obtained by adding the given plays, in order, to an empty one. */
  function BuildTrick(plays: seq<TrickCard>): TrickState
  {
    if |plays| == 0 then CreateTrickState()
    else
      var last := plays[|plays| - 1];
      AddCardToTrick(BuildTrick(plays[..|plays| - 1]), last.playerId, last.card)
  }

  /** A trick built by addCardToTrick holds exactly the plays made, and its lead
      suit is the first play's suit. */
  lemma {:induction false} BuildTrickHoldsPlays(plays: seq<TrickCard>)
    ensures BuildTrick(plays).cards == plays
    ensures LeadFixed(BuildTrick(plays))
    ensures BuildTrick(plays).winnerId.None?
  {
    if |plays| > 0 {
      BuildTrickHoldsPlays(plays[..|plays| - 1]);
      assert plays[..|plays| - 1] + [plays[|plays| - 1]] == plays;
    }
  }

  /** calculateTrickWinner filters the trump cards and the lead-suit cards and
      reduces one of them without an initial value. That reduction throws on
      an empty list, so a non-empty trick needs a played trump or a played
      card of its recorded lead suit. */
  predicate WinnerDefined(trick: TrickState, trump: Option<Suit>)
  {
    |trick.cards| > 0 ==>
      (trump.Some? && SuitPlayed(trick.cards, trump.value, |trick.cards|)) ||
      (trick.leadSuit.Some? && SuitPlayed(trick.cards, trick.leadSuit.value, |trick.cards|))
  }

  /** The id of a play, if any. */
  function PlayerOf(w: Option<TrickCard>): Option<PlayerId>
  {
    if w.Some? then Some(w.value.playerId) else None
  }

  /** calculateTrickWinner: null for an empty trick; otherwise the player of the
      strongest trump, or failing that of the strongest card of the lead suit. */
  function CalculateTrickWinner(trick: TrickState, trump: Option<Suit>): (w: Option<PlayerId>)
    requires WinnerDefined(trick, trump)
    ensures w.None? <==> |trick.cards| == 0
    ensures w.Some? ==> exists j :: 0 <= j < |trick.cards| && trick.cards[j].playerId == w.value
    ensures LeadFixed(trick) ==> w == PlayerOf(DetermineTrickWinner(trick.cards, trump))
  {
    if |trick.cards| == 0 then None
    else
      var k := WinnerIndex(trick.cards, trick.leadSuit, trump);
      Some(trick.cards[k.value].playerId)
  }

  /** Every trick built from empty by addCardToTrick has a winner once it holds
      a card, and it is the player determineTrickWinner picks. */
  lemma TrickWinnerAgrees(plays: seq<TrickCard>, trump: Option<Suit>)
    ensures WinnerDefined(BuildTrick(plays), trump)
    ensures CalculateTrickWinner(BuildTrick(plays), trump) == PlayerOf(DetermineTrickWinner(plays, trump))
  {
    BuildTrickHoldsPlays(plays);
    if |plays| > 0 {
      assert SuitPlayed(plays, plays[0].card.suit, |plays|) by { assert plays[0].card.suit == plays[0].card.suit; }
    }
  }

  /** Cards a trick needs: three in Vakkai (the partner sits out), four otherwise. */
  function RequiredCards(isVakkai: bool): nat
  {
    if isVakkai then 3 else 4
  }

  /** isTrickComplete. */
  function IsTrickComplete(trick: TrickState, isVakkai: bool): (done: bool)
    ensures done <==> |trick.cards| >= RequiredCards(isVakkai)
  {
    |trick.cards| >= RequiredCards(isVakkai)
  }

  /** A trick is complete exactly when every seat of its turn order has
      played: four seats clockwise, or the declarer and the two opponents. */
  lemma CompleteWhenTheTurnOrderHasPlayed(trick: TrickState, isVakkai: bool, leader: Seat, declarer: Option<Seat>)
    requires isVakkai ==> declarer.Some?
    ensures IsTrickComplete(trick, isVakkai) <==> |trick.cards| >= |GetTrickTurnOrder(leader, isVakkai, declarer)|
  {
  }

  /** The seat opposite, i.e. the partner. */
  function Partner(s: Seat): Seat
  {
    (s + 2) % 4
  }

  /** getNextPlayer: clockwise; in Vakkai the declarer's partner is skipped.
      With no declarer seat the partner comparison is against NaN in the
      source, which never matches, so play is simply clockwise. */
  function GetNextPlayer(current: Seat, isVakkai: bool, declarer: Option<Seat>): (next: Seat)
    ensures !isVakkai || declarer.None? ==> next == (current + 1) % 4
    ensures next == (current + 1) % 4 || next == (current + 2) % 4
    ensures isVakkai && declarer.Some? ==> next != Partner(declarer.value)
    ensures isVakkai && declarer.Some? && (current + 1) % 4 != Partner(declarer.value) ==> next == (current + 1) % 4
  {
    if !isVakkai then (current + 1) % 4
    else
      var nextSeat := (current + 1) % 4;
      if declarer.Some? && nextSeat == Partner(declarer.value) then (nextSeat + 1) % 4 else nextSeat
  }

  /** The seats (declarer + i) % 4 for i = from..3 other than the partner's:
      the loop of getTrickTurnOrder that follows the declarer. */
  function VakkaiFollowers(declarer: Seat, from: nat): seq<Seat>
    requires 1 <= from <= 4
    decreases 4 - from
  {
    if from == 4 then []
    else
      var seat: Seat := (declarer + from) % 4;
      (if seat != Partner(declarer) then [seat] else []) + VakkaiFollowers(declarer, from + 1)
  }

  lemma VakkaiFollowersAreOpponents(d: Seat)
    ensures VakkaiFollowers(d, 1) == [(d + 1) % 4, (d + 3) % 4]
  {
    assert VakkaiFollowers(d, 4) == [];
    assert VakkaiFollowers(d, 3) == [(d + 3) % 4];
    assert VakkaiFollowers(d, 2) == [(d + 3) % 4];
  }

  /** No seat appears twice. */
  predicate DistinctSeats(order: seq<Seat>)
  {
    forall i, j :: 0 <= i < j < |order| ==> order[i] != order[j]
  }

  /** getTrickTurnOrder: in normal play the four seats clockwise from the
      leader; in Vakkai the declarer and then the two opponents, whatever the
      leader. The source asserts the declarer seat is given in Vakkai. */
  function GetTrickTurnOrder(leader: Seat, isVakkai: bool, declarer: Option<Seat>): (order: seq<Seat>)
    requires isVakkai ==> declarer.Some?
    ensures |order| == RequiredCards(isVakkai)
    ensures DistinctSeats(order)
    ensures !isVakkai ==> order[0] == leader && forall s: Seat :: s in order
    ensures !isVakkai ==> forall i :: 0 <= i < 4 ==> order[i] == (leader + i) % 4
    ensures isVakkai ==> order == [declarer.value, (declarer.value + 1) % 4, (declarer.value + 3) % 4]
    ensures isVakkai ==> Partner(declarer.value) !in order
  {
    if !isVakkai then ClockwiseOrder(leader) else VakkaiOrder(declarer.value)
  }

  /** The four seats clockwise from the leader. */
  function ClockwiseOrder(leader: Seat): (order: seq<Seat>)
    ensures |order| == 4 && DistinctSeats(order)
    ensures forall i :: 0 <= i < 4 ==> order[i] == (leader + i) % 4
    ensures forall s: Seat :: s in order
  {
    var order: seq<Seat> := [leader, (leader + 1) % 4, (leader + 2) % 4, (leader + 3) % 4];
    ClockwiseCovers(leader, order);
    order
  }

  lemma ClockwiseCovers(leader: Seat, order: seq<Seat>)
    requires order == [leader, (leader + 1) % 4, (leader + 2) % 4, (leader + 3) % 4]
    ensures DistinctSeats(order) && forall s: Seat :: s in order
  {
    if leader == 0 {
      assert order == [0, 1, 2, 3];
    } else if leader == 1 {
      assert order == [1, 2, 3, 0];
    } else if leader == 2 {
      assert order == [2, 3, 0, 1];
    } else {
      assert order == [3, 0, 1, 2];
    }
  }

  /** The declarer, then the seats after it that are not the partner's. */
  function VakkaiOrder(d: Seat): (order: seq<Seat>)
    ensures order == [d, (d + 1) % 4, (d + 3) % 4]
    ensures DistinctSeats(order) && Partner(d) !in order
  {
    VakkaiFollowersAreOpponents(d);
    [d] + VakkaiFollowers(d, 1)
  }

  /** Passing the turn with getNextPlayer walks through getTrickTurnOrder: each
      seat in the order is followed by the next, and in Vakkai the last seat
      hands back to the declarer. */
  lemma NextPlayerFollowsTurnOrder(leader: Seat, isVakkai: bool, declarer: Option<Seat>)
    requires isVakkai ==> declarer.Some?
    ensures var order := GetTrickTurnOrder(leader, isVakkai, declarer);
      forall i :: 0 <= i < |order| - 1 ==> GetNextPlayer(order[i], isVakkai, declarer) == order[i + 1]
    ensures isVakkai ==>
      var order := GetTrickTurnOrder(leader, isVakkai, declarer);
      GetNextPlayer(order[|order| - 1], isVakkai, declarer) == order[0]
  {
    if isVakkai {
      var d := declarer.value;
      VakkaiNextFollowsOrder(d);
      var order := VakkaiOrder(d);
      assert order[0] == d && order[1] as int == (d as int + 1) % 4 && order[2] as int == (d as int + 3) % 4;
    } else {
      ClockwiseNextFollowsOrder(leader, declarer);
    }
  }

  lemma VakkaiNextFollowsOrder(d: Seat)
    ensures GetNextPlayer(d, true, Some(d)) == (d + 1) % 4
    ensures GetNextPlayer((d + 1) % 4, true, Some(d)) == (d + 3) % 4
    ensures GetNextPlayer((d + 3) % 4, true, Some(d)) == d
  {
    if d == 0 {
    } else if d == 1 {
    } else if d == 2 {
    } else {
    }
  }

  lemma ClockwiseNextFollowsOrder(leader: Seat, declarer: Option<Seat>)
    ensures var order := ClockwiseOrder(leader);
      forall i :: 0 <= i < 3 ==> GetNextPlayer(order[i], false, declarer) == order[i + 1]
  {
    var order := ClockwiseOrder(leader);
    forall i | 0 <= i < 3 ensures GetNextPlayer(order[i], false, declarer) == order[i + 1] {
      assert order[i] == (leader + i) % 4 && order[i + 1] == (leader + i + 1) % 4;
    }
  }

  /** The Vakkai turn order holds every seat but the partner's. */
  lemma VakkaiOrderSkipsOnlyPartner(d: Seat, s: Seat)
    ensures s in GetTrickTurnOrder(d, true, Some(d)) <==> s != Partner(d)
  {
    var order := GetTrickTurnOrder(d, true, Some(d));
    if d == 0 {
      assert order == [0, 1, 3];
    } else if d == 1 {
      assert order == [1, 2, 0];
    } else if d == 2 {
      assert order == [2, 3, 1];
    } else {
      assert order == [3, 0, 2];
    }
  }

  /** In Vakkai the declarer faces the two opponents only: both other seats in
      the order are on the other team. */
  lemma VakkaiOrderIsDeclarerAgainstOpponents(d: Seat)
    ensures var order := GetTrickTurnOrder(d, true, Some(d));
      TeamForSeat(order[1]) != TeamForSeat(d) && TeamForSeat(order[2]) != TeamForSeat(d)
  {
    SeatingAlternatesTeams(d);
  }
}
