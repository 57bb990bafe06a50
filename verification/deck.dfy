/** The deck (server/src/game/Deck.ts): building the 32-card deck, the
    Fisher-Yates shuffle, round-robin dealing, the toss draw and the toss
    tally. Randomness is a parameter: the shuffle takes the swap index it
    would have drawn at each step. */
module Deck {
  import opened Wrappers
  import opened Types

  predicate Distinct(s: seq<Card>)
  {
    forall i, j :: 0 <= i < j < |s| ==> s[i] != s[j]
  }

  /** The eight cards of one suit, in rank-list order (the inner loop). */
  function SuitRow(s: Suit): (row: seq<Card>)
    ensures |row| == 8
    ensures forall j :: 0 <= j < 8 ==> row[j] == Card(s, Ranks[j])
  {
    seq(8, j requires 0 <= j < 8 => Card(s, Ranks[j]))
  }

  /** The nested suit/rank loops of createDeck over a list of suits. */
  function CardsOfSuits(suits: seq<Suit>): (d: seq<Card>)
    ensures |d| == 8 * |suits|
    ensures forall i, j :: 0 <= i < |suits| && 0 <= j < 8 ==> d[8 * i + j] == Card(suits[i], Ranks[j])
  {
    if suits == [] then []
    else
      var rest := CardsOfSuits(suits[1..]);
      var d := SuitRow(suits[0]) + rest;
      forall i, j | 1 <= i < |suits| && 0 <= j < 8 ensures d[8 * i + j] == Card(suits[i], Ranks[j]) {
        assert d[8 * i + j] == rest[8 * (i - 1) + j];
        assert suits[1..][i - 1] == suits[i];
      }
      d
  }

  /** createDeck: 32 cards, every (suit, rank) pair exactly once, suits in the
      outer loop and ranks in the inner one. */
  function CreateDeck(): (d: seq<Card>)
    ensures |d| == 32
    ensures forall i, j :: 0 <= i < 4 && 0 <= j < 8 ==> d[8 * i + j] == Card(Suits[i], Ranks[j])
    ensures forall c: Card :: c in d
    ensures Distinct(d)
  {
    var d := CardsOfSuits(Suits);
    DeckCoversAllCards(d);
    DeckIsDistinct(d);
    d
  }

  lemma DeckCoversAllCards(d: seq<Card>)
    requires |d| == 32
    requires forall i, j :: 0 <= i < 4 && 0 <= j < 8 ==> d[8 * i + j] == Card(Suits[i], Ranks[j])
    ensures forall c: Card :: c in d
  {
    forall c: Card ensures c in d {
      var i, j := SuitIndex(c.suit), RankIndex(c.rank);
      assert d[8 * i + j] == c;
    }
  }

  lemma DeckIsDistinct(d: seq<Card>)
    requires |d| == 32
    requires forall i, j :: 0 <= i < 4 && 0 <= j < 8 ==> d[8 * i + j] == Card(Suits[i], Ranks[j])
    ensures Distinct(d)
  {
    forall k1, k2 | 0 <= k1 < k2 < 32 ensures d[k1] != d[k2] {
      IndexSplits(k1);
      IndexSplits(k2);
      CardsDiffer(k1 / 8, k1 % 8, k2 / 8, k2 % 8);
    }
  }

  /** Index k of the deck is suit k / 8, rank k % 8. */
  lemma IndexSplits(k: int)
    requires 0 <= k < 32
    ensures 0 <= k / 8 < 4 && 0 <= k % 8 < 8 && k == 8 * (k / 8) + k % 8
  {
  }

  /** Different positions in the suit and rank lists name different cards. */
  lemma CardsDiffer(i1: int, j1: int, i2: int, j2: int)
    requires 0 <= i1 < 4 && 0 <= j1 < 8 && 0 <= i2 < 4 && 0 <= j2 < 8
    requires i1 != i2 || j1 != j2
    ensures Card(Suits[i1], Ranks[j1]) != Card(Suits[i2], Ranks[j2])
  {
    ListingsAreComplete();
    if i1 == i2 {
      RankValueIsBijection();
      if j1 < j2 {
        assert RankValue(Ranks[j1]) > RankValue(Ranks[j2]);
      } else {
        assert RankValue(Ranks[j2]) > RankValue(Ranks[j1]);
      }
    }
  }

  /** One Fisher-Yates exchange: `[s[i], s[j]] = [s[j], s[i]]`. */
  function Swap(s: seq<Card>, i: nat, j: nat): (r: seq<Card>)
    requires i < |s| && j < |s|
    ensures |r| == |s| && multiset(r) == multiset(s)
    ensures r[i] == s[j] && r[j] == s[i]
    ensures forall k :: 0 <= k < |s| && k != i && k != j ==> r[k] == s[k]
  {
    s[i := s[j]][j := s[i]]
  }

  /** The swap partner drawn at step i lies in 0..i, as `floor(random() * (i + 1))`
      guarantees. The entry at index 0 is never used. */
  predicate ValidSwaps(swaps: seq<nat>, n: nat)
  {
    |swaps| == n && forall i :: 0 <= i < n ==> swaps[i] <= i
  }

  /** Steps i, i-1, ..., 1 of the shuffle loop. */
  function ShuffleSteps(s: seq<Card>, swaps: seq<nat>, i: nat): (r: seq<Card>)
    requires i < |s| && ValidSwaps(swaps, |s|)
    ensures |r| == |s| && multiset(r) == multiset(s)
    decreases i
  {
    if i == 0 then s else ShuffleSteps(Swap(s, i, swaps[i]), swaps, i - 1)
  }

  /** shuffleDeck: a copy of the deck permuted by the loop from the last index
      down to 1; the input is untouched. */
  function ShuffleDeck(deck: seq<Card>, swaps: seq<nat>): (r: seq<Card>)
    requires ValidSwaps(swaps, |deck|)
    ensures |r| == |deck| && multiset(r) == multiset(deck)
  {
    if |deck| == 0 then deck else ShuffleSteps(deck, swaps, |deck| - 1)
  }

  /** Equal multisets preserve distinctness. */
  lemma {:induction false} PermutationKeepsDistinct(a: seq<Card>, b: seq<Card>)
    requires multiset(a) == multiset(b) && Distinct(a)
    ensures Distinct(b)
  {
    forall i, j | 0 <= i < j < |b| ensures b[i] != b[j] {
      if b[i] == b[j] {
        TwiceInMultiset(b, i, j);
        DistinctAtMostOnce(a, b[i]);
        assert false;
      }
    }
  }

  lemma {:induction false} DistinctAtMostOnce(s: seq<Card>, x: Card)
    requires Distinct(s)
    ensures multiset(s)[x] <= 1
  {
    if s != [] {
      assert s == [s[0]] + s[1..];
      DistinctAtMostOnce(s[1..], x);
      if x == s[0] {
        assert x !in s[1..];
      }
    }
  }

  lemma TwiceInMultiset(s: seq<Card>, i: nat, j: nat)
    requires i < j < |s| && s[i] == s[j]
    ensures multiset(s)[s[i]] >= 2
  {
    assert s == s[..j] + s[j..];
    assert s[i] in s[..j];
    assert s[j] in s[j..];
  }

  /** drawTossCards: the first n cards of a shuffled fresh deck (slice clamps
      at the deck's end). */
  function DrawTossCards(n: nat, swaps: seq<nat>): (r: seq<Card>)
    requires ValidSwaps(swaps, 32)
    ensures |r| == Min(n, 32)
    ensures Distinct(r)
  {
    var shuffled := ShuffleDeck(CreateDeck(), swaps);
    PermutationKeepsDistinct(CreateDeck(), shuffled);
    PrefixKeepsDistinct(shuffled, Min(n, 32));
    shuffled[..Min(n, 32)]
  }

  lemma PrefixKeepsDistinct(s: seq<Card>, m: nat)
    requires Distinct(s) && m <= |s|
    ensures Distinct(s[..m])
  {
    forall i, j | 0 <= i < j < m ensures s[..m][i] != s[..m][j] {
      assert s[..m][i] == s[i] && s[..m][j] == s[j];
    }
  }

  /** Concatenation of all hands, in player order. */
  function Flatten(hands: seq<seq<Card>>): seq<Card>
  {
    if hands == [] then [] else hands[0] + Flatten(hands[1..])
  }

  lemma {:induction false} FlattenAppend(hands: seq<seq<Card>>, p: nat, x: Card)
    requires p < |hands|
    ensures multiset(Flatten(hands[p := hands[p] + [x]])) == multiset(Flatten(hands)) + multiset{x}
  {
    var h' := hands[p := hands[p] + [x]];
    if p == 0 {
      assert h'[1..] == hands[1..];
    } else {
      assert h'[1..] == hands[1..][p - 1 := hands[1..][p - 1] + [x]];
      FlattenAppend(hands[1..], p - 1, x);
    }
  }

  /** n empty hands. */
  function NoHands(n: nat): (hs: seq<seq<Card>>)
    ensures |hs| == n && forall q :: 0 <= q < n ==> hs[q] == []
  {
    seq(n, _ => [])
  }

  lemma {:induction false} FlattenEmpty(n: nat)
    ensures Flatten(NoHands(n)) == []
  {
    if n > 0 {
      assert NoHands(n)[1..] == NoHands(n - 1);
      FlattenEmpty(n - 1);
    }
  }

  /** The deck index dealt to player p in round `round` of a deal to n players. */
  function Slot(n: nat, round: nat, p: nat): nat
  {
    round * n + p
  }

  /** The cards player q holds after `rounds` rounds of dealing n players: in
      round r the card at index r*n + q, when that index is inside the deck. */
  function Column(deck: seq<Card>, n: nat, q: nat, rounds: nat): seq<Card>
  {
    if rounds == 0 then []
    else Column(deck, n, q, rounds - 1) +
         (if Slot(n, rounds - 1, q) < |deck| then [deck[Slot(n, rounds - 1, q)]] else [])
  }

  /** A column is the prefix of rounds whose index falls inside the deck. */
  lemma {:induction false} ColumnShape(deck: seq<Card>, n: nat, q: nat, rounds: nat)
    ensures |Column(deck, n, q, rounds)| <= rounds
    ensures forall r :: 0 <= r < |Column(deck, n, q, rounds)| ==>
              Slot(n, r, q) < |deck| && Column(deck, n, q, rounds)[r] == deck[Slot(n, r, q)]
    ensures forall r :: 0 <= r < rounds && Slot(n, r, q) < |deck| ==> r < |Column(deck, n, q, rounds)|
  {
    if rounds > 0 {
      var prev := Column(deck, n, q, rounds - 1);
      ColumnShape(deck, n, q, rounds - 1);
    }
  }

  datatype Dealt = Dealt(hands: seq<seq<Card>>, remaining: seq<Card>)

  /** The loop invariant of dealCards after `round` full rounds and `player`
      players of the current round: cardIndex is the number of iterations run,
      capped at the deck size; every hand is its column so far; and the hands
      hold exactly the cards dealt. */
  predicate DealInvariant(deck: seq<Card>, n: nat, c: nat, round: nat, player: nat, idx: nat, hands: seq<seq<Card>>)
  {
    && |hands| == n && player <= n && round <= c && (round == c ==> player == 0)
    && idx == Min(Slot(n, round, player), |deck|)
    && ColumnsSoFar(deck, n, round, player, hands)
    && multiset(Flatten(hands)) == multiset(deck[..idx])
  }

  /** Players before `player` have been served in this round, the others not yet. */
  predicate ColumnsSoFar(deck: seq<Card>, n: nat, round: nat, player: nat, hands: seq<seq<Card>>)
    requires |hands| == n
  {
    forall q :: 0 <= q < n ==> hands[q] == Column(deck, n, q, if q < player then round + 1 else round)
  }

  lemma DealInvariantNextRound(deck: seq<Card>, n: nat, c: nat, round: nat, idx: nat, hands: seq<seq<Card>>)
    requires DealInvariant(deck, n, c, round, n, idx, hands) && round < c
    ensures DealInvariant(deck, n, c, round + 1, 0, idx, hands)
    ensures DealFrom(deck, n, c, round, n, idx, hands) == DealFrom(deck, n, c, round + 1, 0, idx, hands)
  {
    assert (round + 1) * n == round * n + n;
  }

  lemma DealInvariantGive(deck: seq<Card>, n: nat, c: nat, round: nat, player: nat, idx: nat, hands: seq<seq<Card>>)
    requires DealInvariant(deck, n, c, round, player, idx, hands) && round < c && player < n && idx < |deck|
    ensures DealInvariant(deck, n, c, round, player + 1, idx + 1, hands[player := hands[player] + [deck[idx]]])
    ensures DealFrom(deck, n, c, round, player, idx, hands)
            == DealFrom(deck, n, c, round, player + 1, idx + 1, hands[player := hands[player] + [deck[idx]]])
  {
    var hands' := hands[player := hands[player] + [deck[idx]]];
    assert Slot(n, round, player + 1) == Slot(n, round, player) + 1;
    GiveKeepsColumns(deck, n, round, player, idx, hands, hands');
    GiveKeepsCards(deck, player, idx, hands);
  }

  lemma GiveKeepsCards(deck: seq<Card>, player: nat, idx: nat, hands: seq<seq<Card>>)
    requires player < |hands| && idx < |deck|
    requires multiset(Flatten(hands)) == multiset(deck[..idx])
    ensures multiset(Flatten(hands[player := hands[player] + [deck[idx]]])) == multiset(deck[..idx + 1])
  {
    FlattenAppend(hands, player, deck[idx]);
    assert deck[..idx + 1] == deck[..idx] + [deck[idx]];
  }

  lemma GiveKeepsColumns(deck: seq<Card>, n: nat, round: nat, player: nat, idx: nat, hands: seq<seq<Card>>, hands': seq<seq<Card>>)
    requires |hands| == n && player < n && idx == Slot(n, round, player) && idx < |deck|
    requires ColumnsSoFar(deck, n, round, player, hands)
    requires hands' == hands[player := hands[player] + [deck[idx]]]
    ensures |hands'| == n && ColumnsSoFar(deck, n, round, player + 1, hands')
  {
    assert Column(deck, n, player, round + 1) == Column(deck, n, player, round) + [deck[idx]];
  }

  lemma DealInvariantSkip(deck: seq<Card>, n: nat, c: nat, round: nat, player: nat, idx: nat, hands: seq<seq<Card>>)
    requires DealInvariant(deck, n, c, round, player, idx, hands) && round < c && player < n && idx >= |deck|
    ensures DealInvariant(deck, n, c, round, player + 1, idx, hands)
    ensures DealFrom(deck, n, c, round, player, idx, hands) == DealFrom(deck, n, c, round, player + 1, idx, hands)
  {
    assert Column(deck, n, player, round + 1) == Column(deck, n, player, round);
  }

  lemma DealInvariantDone(deck: seq<Card>, n: nat, c: nat, idx: nat, hands: seq<seq<Card>>)
    requires DealInvariant(deck, n, c, c, 0, idx, hands)
    ensures DealtAsColumns(deck, n, c, DealFrom(deck, n, c, c, 0, idx, hands))
  {
    assert ColumnsSoFar(deck, n, c, 0, hands);
    assert deck == deck[..idx] + deck[idx..];
  }

  /** Every hand is its full column and the rest of the deck is what remains. */
  predicate DealtAsColumns(deck: seq<Card>, n: nat, c: nat, r: Dealt)
  {
    && |r.hands| == n
    && (forall q :: 0 <= q < n ==> r.hands[q] == Column(deck, n, q, c))
    && r.remaining == deck[Min(c * n, |deck|)..]
    && multiset(Flatten(r.hands) + r.remaining) == multiset(deck)
  }

  /** The two nested loops of dealCards, one iteration at a time: `round` and
      `player` are the loop counters and `idx` is cardIndex. */
  function DealFrom(deck: seq<Card>, n: nat, c: nat, round: nat, player: nat, idx: nat, hands: seq<seq<Card>>): (r: Dealt)
    requires |hands| == n && player <= n && round <= c
    ensures |r.hands| == n
    decreases c - round, n - player
  {
    if round == c then Dealt(hands, deck[Min(idx, |deck|)..])
    else if player == n then DealFrom(deck, n, c, round + 1, 0, idx, hands)
    else if idx < |deck| then
      DealFrom(deck, n, c, round, player + 1, idx + 1, hands[player := hands[player] + [deck[idx]]])
    else DealFrom(deck, n, c, round, player + 1, idx, hands)
  }

  /** The loop invariant carries over to the end of the deal. */
  lemma {:induction false} DealFromColumns(deck: seq<Card>, n: nat, c: nat, round: nat, player: nat, idx: nat,
                                           hands: seq<seq<Card>>, r: Dealt)
    requires DealInvariant(deck, n, c, round, player, idx, hands)
    requires r == DealFrom(deck, n, c, round, player, idx, hands)
    ensures DealtAsColumns(deck, n, c, r)
    decreases c - round, n - player, 1
  {
    if round == c {
      DealInvariantDone(deck, n, c, idx, hands);
    } else if player == n {
      DealNextRoundColumns(deck, n, c, round, idx, hands, r);
    } else if idx < |deck| {
      DealGiveColumns(deck, n, c, round, player, idx, hands, r);
    } else {
      DealSkipColumns(deck, n, c, round, player, idx, hands, r);
    }
  }

  lemma {:induction false} DealNextRoundColumns(deck: seq<Card>, n: nat, c: nat, round: nat, idx: nat,
                                                hands: seq<seq<Card>>, r: Dealt)
    requires DealInvariant(deck, n, c, round, n, idx, hands) && round < c
    requires r == DealFrom(deck, n, c, round, n, idx, hands)
    ensures DealtAsColumns(deck, n, c, r)
    decreases c - round, 0, 0
  {
    DealInvariantNextRound(deck, n, c, round, idx, hands);
    DealFromColumns(deck, n, c, round + 1, 0, idx, hands, r);
  }

  lemma {:induction false} DealGiveColumns(deck: seq<Card>, n: nat, c: nat, round: nat, player: nat, idx: nat,
                                           hands: seq<seq<Card>>, r: Dealt)
    requires DealInvariant(deck, n, c, round, player, idx, hands) && round < c && player < n && idx < |deck|
    requires r == DealFrom(deck, n, c, round, player, idx, hands)
    ensures DealtAsColumns(deck, n, c, r)
    decreases c - round, n - player, 0
  {
    DealInvariantGive(deck, n, c, round, player, idx, hands);
    DealFromColumns(deck, n, c, round, player + 1, idx + 1, hands[player := hands[player] + [deck[idx]]], r);
  }

  lemma {:induction false} DealSkipColumns(deck: seq<Card>, n: nat, c: nat, round: nat, player: nat, idx: nat,
                                           hands: seq<seq<Card>>, r: Dealt)
    requires DealInvariant(deck, n, c, round, player, idx, hands) && round < c && player < n && idx >= |deck|
    requires r == DealFrom(deck, n, c, round, player, idx, hands)
    ensures DealtAsColumns(deck, n, c, r)
    decreases c - round, n - player, 0
  {
    DealInvariantSkip(deck, n, c, round, player, idx, hands);
    DealFromColumns(deck, n, c, round, player + 1, idx, hands, r);
  }

  lemma DealInvariantStart(deck: seq<Card>, n: nat, c: nat)
    ensures DealInvariant(deck, n, c, 0, 0, 0, NoHands(n))
  {
    FlattenEmpty(n);
    assert ColumnsSoFar(deck, n, 0, 0, NoHands(n));
  }

  /** The cards n hands of c cards each take from the deck. */
  function CardsDealt(n: nat, c: nat): nat
  {
    n * c
  }

  /** dealCards(deck, n, c): deal c rounds, one card to each of n players per
      round, skipping once the deck runs out; the rest is `remaining`. */
  function DealCards(deck: seq<Card>, n: nat, c: nat): (r: Dealt)
    ensures |r.hands| == n
    ensures forall p :: 0 <= p < n ==> |r.hands[p]| <= c
    ensures forall p, k :: 0 <= p < n && 0 <= k < |r.hands[p]| ==>
              Slot(n, k, p) < |deck| && r.hands[p][k] == deck[Slot(n, k, p)]
    ensures forall p, round :: 0 <= p < n && 0 <= round < c && Slot(n, round, p) < |deck| ==> round < |r.hands[p]|
    ensures |deck| >= CardsDealt(n, c) ==> (forall p :: 0 <= p < n ==> |r.hands[p]| == c) && r.remaining == deck[CardsDealt(n, c)..]
    ensures multiset(Flatten(r.hands) + r.remaining) == multiset(deck)
  {
    var dealt := DealFrom(deck, n, c, 0, 0, 0, NoHands(n));
    DealFromStart(deck, n, c, dealt);
    dealt
  }

  /** Four cards to each of four players, spelt out: player p gets the cards
      at indices p, p+4, p+8 and p+12, one from each round. */
  function FourEach(deck: seq<Card>): (hs: seq<seq<Card>>)
    requires |deck| >= 16
    ensures |hs| == 4 && forall p :: 0 <= p < 4 ==> |hs[p]| == 4
  {
    seq(4, p requires 0 <= p < 4 => [deck[p], deck[p + 4], deck[p + 8], deck[p + 12]])
  }

  /** On a deck of at least sixteen cards, dealCards(deck, 4, 4) is the
      spelt-out deal, and everything from index 16 on remains. */
  lemma DealFourEach(deck: seq<Card>)
    requires |deck| >= 16
    ensures DealCards(deck, 4, 4) == Dealt(FourEach(deck), deck[16..])
  {
    var r := DealCards(deck, 4, 4);
    forall p | 0 <= p < 4 ensures r.hands[p] == FourEach(deck)[p] {
      forall k | 0 <= k < 4 ensures r.hands[p][k] == FourEach(deck)[p][k] {
        assert Slot(4, k, p) == 4 * k + p;
      }
    }
  }

  /** Dealing eight rounds from a 32-card deck is dealing four rounds and then
      four more rounds from the sixteen cards left: each hand is its first
      four cards followed by its next four, and nothing remains. */
  lemma DealEightIsTwoDealsOfFour(deck: seq<Card>)
    requires |deck| == 32
    ensures var whole := DealCards(deck, 4, 8);
      && whole.remaining == []
      && forall p :: 0 <= p < 4 ==> whole.hands[p] == FourEach(deck)[p] + FourEach(deck[16..])[p]
  {
    var whole := DealCards(deck, 4, 8);
    forall p | 0 <= p < 4 ensures whole.hands[p] == FourEach(deck)[p] + FourEach(deck[16..])[p] {
      var h := FourEach(deck)[p] + FourEach(deck[16..])[p];
      forall k | 0 <= k < 8 ensures whole.hands[p][k] == h[k] {
        assert Slot(4, k, p) == 4 * k + p;
      }
    }
  }

  /** What the deal from a fresh table hands out, slot by slot. */
  lemma DealFromStart(deck: seq<Card>, n: nat, c: nat, r: Dealt)
    requires r == DealFrom(deck, n, c, 0, 0, 0, NoHands(n))
    ensures |r.hands| == n
    ensures forall p :: 0 <= p < n ==> |r.hands[p]| <= c
    ensures forall p, k :: 0 <= p < n && 0 <= k < |r.hands[p]| ==>
              Slot(n, k, p) < |deck| && r.hands[p][k] == deck[Slot(n, k, p)]
    ensures forall p, round :: 0 <= p < n && 0 <= round < c && Slot(n, round, p) < |deck| ==> round < |r.hands[p]|
    ensures |deck| >= CardsDealt(n, c) ==> (forall p :: 0 <= p < n ==> |r.hands[p]| == c) && r.remaining == deck[CardsDealt(n, c)..]
    ensures multiset(Flatten(r.hands) + r.remaining) == multiset(deck)
  {
    DealInvariantStart(deck, n, c);
    DealFromColumns(deck, n, c, 0, 0, 0, NoHands(n), DealFrom(deck, n, c, 0, 0, 0, NoHands(n)));
    DealtCardsInPlace(deck, n, c, r);
    DealtHandsFull(deck, n, c, r);
  }

  /** Each hand holds, in order, the cards at its slots that lie inside the deck. */
  lemma DealtCardsInPlace(deck: seq<Card>, n: nat, c: nat, r: Dealt)
    requires DealtAsColumns(deck, n, c, r)
    ensures forall p :: 0 <= p < n ==> |r.hands[p]| <= c
    ensures forall p, k :: 0 <= p < n && 0 <= k < |r.hands[p]| ==>
              Slot(n, k, p) < |deck| && r.hands[p][k] == deck[Slot(n, k, p)]
    ensures forall p, round :: 0 <= p < n && 0 <= round < c && Slot(n, round, p) < |deck| ==> round < |r.hands[p]|
  {
    forall p | 0 <= p < n
      ensures |r.hands[p]| <= c
      ensures forall k :: 0 <= k < |r.hands[p]| ==> Slot(n, k, p) < |deck| && r.hands[p][k] == deck[Slot(n, k, p)]
      ensures forall round :: 0 <= round < c && Slot(n, round, p) < |deck| ==> round < |r.hands[p]|
    {
      ColumnShape(deck, n, p, c);
    }
  }

  /** A deck of at least n*c cards fills every hand and leaves the tail. */
  lemma DealtHandsFull(deck: seq<Card>, n: nat, c: nat, r: Dealt)
    requires DealtAsColumns(deck, n, c, r)
    ensures |deck| >= CardsDealt(n, c) ==> (forall p :: 0 <= p < n ==> |r.hands[p]| == c) && r.remaining == deck[CardsDealt(n, c)..]
  {
    forall p | 0 <= p < n
      ensures |deck| >= n * c ==> |r.hands[p]| == c
    {
      ColumnFull(deck, n, p, c);
    }
    assert c * n == n * c;
  }

  /** When the deck covers every round, the column has a card in each. */
  lemma ColumnFull(deck: seq<Card>, n: nat, q: nat, c: nat)
    requires q < n
    ensures |deck| >= n * c ==> |Column(deck, n, q, c)| == c
  {
    ColumnShape(deck, n, q, c);
    if |deck| >= n * c && c > 0 {
      LastRoundInside(n, q, c);
    }
  }

  lemma LastRoundInside(n: nat, q: nat, c: nat)
    requires q < n && c > 0
    ensures (c - 1) * n + q < n * c
  {
    assert (c - 1) * n + n == n * c;
  }

  /** The point a toss card scores (the source keeps its own table). */
  function TossPoint(r: Rank): (points: int)
    ensures points == RankValue(r)
  {
    match r
    case Ace => 8
    case King => 7
    case Queen => 6
    case Jack => 5
    case Ten => 4
    case Nine => 3
    case Eight => 2
    case Seven => 1
  }

  datatype TossTally = TossTally(teamA: int, teamB: int)

  /** Sum of the rank values at even positions (0, 2, ...). */
  function EvenSum(cards: seq<Card>): int
    decreases |cards|
  {
    if cards == [] then 0 else RankValue(cards[0].rank) + OddSum(cards[1..])
  }

  /** Sum of the rank values at odd positions (1, 3, ...). */
  function OddSum(cards: seq<Card>): int
    decreases |cards|
  {
    if cards == [] then 0 else EvenSum(cards[1..])
  }

  lemma {:induction false} SumsSnoc(cards: seq<Card>, x: Card)
    ensures EvenSum(cards + [x]) == EvenSum(cards) + (if |cards| % 2 == 0 then RankValue(x.rank) else 0)
    ensures OddSum(cards + [x]) == OddSum(cards) + (if |cards| % 2 == 1 then RankValue(x.rank) else 0)
    decreases |cards|
  {
    if cards != [] {
      assert (cards + [x])[1..] == cards[1..] + [x];
      SumsSnoc(cards[1..], x);
    }
  }

  lemma {:induction false} SumsBounds(cards: seq<Card>)
    ensures |cards| <= EvenSum(cards) + OddSum(cards) <= 8 * |cards|
    ensures 0 <= EvenSum(cards) && 0 <= OddSum(cards)
    decreases |cards|
  {
    if cards != [] {
      SumsBounds(cards[1..]);
    }
  }

  /** calculateTossPoints: walking the cards with their index, the card at an
      even position counts for team A and at an odd position for team B. */
  function CalculateTossPoints(cards: seq<Card>): (t: TossTally)
    ensures t.teamA == EvenSum(cards) && t.teamB == OddSum(cards)
    decreases |cards|
  {
    if cards == [] then TossTally(0, 0)
    else
      var last := |cards| - 1;
      var init := CalculateTossPoints(cards[..last]);
      var points := TossPoint(cards[last].rank);
      assert cards == cards[..last] + [cards[last]];
      SumsSnoc(cards[..last], cards[last]);
      if last % 2 == 0 then TossTally(init.teamA + points, init.teamB)
      else TossTally(init.teamA, init.teamB + points)
  }

  /** The tally splits the rank points of the toss cards between the teams,
      each card scoring 1..8; for four cards team A gets positions 0 and 2
      and team B positions 1 and 3. */
  lemma TossPointsSplitRankPoints(cards: seq<Card>)
    ensures var t := CalculateTossPoints(cards);
      && 0 <= t.teamA && 0 <= t.teamB
      && |cards| <= t.teamA + t.teamB <= 8 * |cards|
      && (|cards| == 4 ==>
            t.teamA == RankValue(cards[0].rank) + RankValue(cards[2].rank) &&
            t.teamB == RankValue(cards[1].rank) + RankValue(cards[3].rank))
  {
    SumsBounds(cards);
    if |cards| == 4 {
      assert cards[1..][1..][1..][1..] == [];
    }
  }
}
