/** The card model (server/src/game/Card.ts): card identity, rank comparison,
    the trick-winner rule and the follow-suit check. */
module Cards {
  import opened Wrappers
  import opened Types

  /** A card's id; the source spells it "<SUIT>_<RANK>", which is determined by
      and determines the (suit, rank) pair, so the pair itself stands for it. */
  function CardId(c: Card): (Suit, Rank)
  {
    (c.suit, c.rank)
  }

  /** createCard: the card whose id is the given (suit, rank) pair. */
  function CreateCard(suit: Suit, rank: Rank): (c: Card)
    ensures CardId(c) == (suit, rank)
    ensures forall d: Card :: CardId(d) == CardId(c) ==> d == c
  {
    Card(suit, rank)
  }

  /** getCardValue: the strength of the card's rank, the ace highest. */
  function CardValue(c: Card): (v: int)
    ensures 1 <= v <= 8
    ensures v == 8 <==> c.rank == Ace
    ensures v == 1 <==> c.rank == Seven
  {
    RankValue(c.rank)
  }

  /** compareCards: positive when the first card's rank is stronger. */
  function CompareCards(c1: Card, c2: Card): (d: int)
    ensures -7 <= d <= 7
    ensures d > 0 <==> CardValue(c1) > CardValue(c2)
    ensures d < 0 <==> CardValue(c1) < CardValue(c2)
  {
    CardValue(c1) - CardValue(c2)
  }

  /** Comparison is antisymmetric, is zero exactly between equal ranks and is
      transitive: a strict total order on the eight ranks. */
  lemma CompareIsStrictTotalOrder(c1: Card, c2: Card, c3: Card)
    ensures CompareCards(c1, c2) == -CompareCards(c2, c1)
    ensures CompareCards(c1, c2) == 0 <==> c1.rank == c2.rank
    ensures CompareCards(c1, c2) > 0 && CompareCards(c2, c3) > 0 ==> CompareCards(c1, c3) > 0
    ensures c1.rank != c2.rank ==> (CompareCards(c1, c2) > 0 || CompareCards(c2, c1) > 0)
  {
    RankValueIsBijection();
  }

  /** Some card among the first n of the play list is of suit s. */
  predicate SuitPlayed(cards: seq<TrickCard>, s: Suit, n: nat)
    requires n <= |cards|
  {
    exists j :: 0 <= j < n && cards[j].card.suit == s
  }

  /** Index k is, among the first n plays, the strongest card of suit s, and
      every earlier card of that suit is strictly weaker (ties go to the
      earliest). */
  predicate HighestOfSuit(cards: seq<TrickCard>, s: Suit, n: nat, k: nat)
    requires n <= |cards|
  {
    && k < n
    && cards[k].card.suit == s
    && (forall j :: 0 <= j < n && cards[j].card.suit == s ==> CardValue(cards[j].card) <= CardValue(cards[k].card))
    && (forall j :: 0 <= j < k && cards[j].card.suit == s ==> CardValue(cards[j].card) < CardValue(cards[k].card))
  }

  /** `cards.filter(c => c.card.suit === s).reduce(...)` from position i on:
      the reduction keeps the running best and replaces it only by a strictly
      stronger card of the suit. `best` is the running best so far. */
  function HighestFrom(cards: seq<TrickCard>, s: Suit, i: nat, best: Option<nat>): (k: Option<nat>)
    requires i <= |cards|
    requires best.None? ==> !SuitPlayed(cards, s, i)
    requires best.Some? ==> HighestOfSuit(cards, s, i, best.value)
    ensures k.None? ==> !SuitPlayed(cards, s, |cards|)
    ensures k.Some? ==> HighestOfSuit(cards, s, |cards|, k.value)
    decreases |cards| - i
  {
    if i == |cards| then best
    else if cards[i].card.suit != s then HighestFrom(cards, s, i + 1, best)
    else if best.None? || CompareCards(cards[i].card, cards[best.value].card) > 0 then HighestFrom(cards, s, i + 1, Some(i))
    else HighestFrom(cards, s, i + 1, best)
  }

  /** Position of the winning play: the strongest trump if any trump was
      played, otherwise the strongest card of the lead suit. None when neither
      exists (in particular for an empty play list). */
  function WinnerIndex(cards: seq<TrickCard>, lead: Option<Suit>, trump: Option<Suit>): (k: Option<nat>)
    ensures k.Some? ==> k.value < |cards|
    ensures trump.Some? && SuitPlayed(cards, trump.value, |cards|) ==>
              k.Some? && HighestOfSuit(cards, trump.value, |cards|, k.value)
    ensures !(trump.Some? && SuitPlayed(cards, trump.value, |cards|)) && lead.Some? ==>
              (k.Some? <==> SuitPlayed(cards, lead.value, |cards|)) &&
              (k.Some? ==> HighestOfSuit(cards, lead.value, |cards|, k.value))
    ensures !(trump.Some? && SuitPlayed(cards, trump.value, |cards|)) && lead.None? ==> k.None?
  {
    var t := if trump.Some? then HighestFrom(cards, trump.value, 0, None) else None;
    if t.Some? then t
    else if lead.Some? then HighestFrom(cards, lead.value, 0, None)
    else None
  }

  /** determineTrickWinner: the winning play, with the lead suit taken from the
      first card. */
  function DetermineTrickWinner(cards: seq<TrickCard>, trump: Option<Suit>): (w: Option<TrickCard>)
    ensures w.None? <==> |cards| == 0
    ensures w.Some? ==> w.value in cards
    // a trump was played: the winner is a trump at least as strong as every trump played
    ensures w.Some? && trump.Some? && SuitPlayed(cards, trump.value, |cards|) ==>
              w.value.card.suit == trump.value &&
              forall j :: 0 <= j < |cards| && cards[j].card.suit == trump.value ==>
                CardValue(cards[j].card) <= CardValue(w.value.card)
    // no trump played: the winner follows the first card's suit and is the strongest of it
    ensures w.Some? && !(trump.Some? && SuitPlayed(cards, trump.value, |cards|)) ==>
              w.value.card.suit == cards[0].card.suit &&
              forall j :: 0 <= j < |cards| && cards[j].card.suit == cards[0].card.suit ==>
                CardValue(cards[j].card) <= CardValue(w.value.card)
    // among equally strong cards of the winning suit, the earliest wins
    ensures w.Some? ==> exists k: nat :: k < |cards| && HighestOfSuit(cards, w.value.card.suit, |cards|, k) && cards[k] == w.value
  {
    if |cards| == 0 then None
    else
      var lead := cards[0].card.suit;
      assert SuitPlayed(cards, lead, |cards|) by { assert cards[0].card.suit == lead; }
      var k := WinnerIndex(cards, Some(lead), trump);
      Some(cards[k.value])
  }

  datatype PlayVerdict = Legal | NotHeld | MustFollow(suit: Suit)

  /** The follow-suit rule stated on its own: the card is held, and either no
      suit has been led, or it is of the lead suit, or the hand holds no card
      of the lead suit. */
  predicate FollowsSuit(card: Card, hand: seq<Card>, lead: Option<Suit>)
  {
    card in hand && (lead.None? || card.suit == lead.value || forall c :: c in hand ==> c.suit != lead.value)
  }

  /** validateCardPlay. */
  function ValidateCardPlay(card: Card, hand: seq<Card>, lead: Option<Suit>): (v: PlayVerdict)
    ensures v == Legal <==> FollowsSuit(card, hand, lead)
    ensures v == NotHeld <==> card !in hand
    ensures v.MustFollow? ==> lead == Some(v.suit) && card.suit != v.suit && exists c :: c in hand && c.suit == v.suit
  {
    if card !in hand then NotHeld
    else if lead.None? then Legal
    else if (exists c :: c in hand && c.suit == lead.value) && card.suit != lead.value then MustFollow(lead.value)
    else Legal
  }
}
