/** Shared definitions of the game: suits, ranks and their strength, teams and
    seats, game phases and the record shapes the engine keeps (server/src/types.ts). */
module Types {
  import opened Wrappers

  datatype Suit = Spade | Heart | Diamond | Club

  datatype Rank = Ace | King | Queen | Jack | Ten | Nine | Eight | Seven

  /** The four suits, in the order the deck is built. */
  const Suits: seq<Suit> := [Spade, Heart, Diamond, Club]

  /** The eight ranks, strongest first. */
  const Ranks: seq<Rank> := [Ace, King, Queen, Jack, Ten, Nine, Eight, Seven]

  /** Strength of a rank; a higher value beats a lower one. */
  function RankValue(r: Rank): (v: int)
    ensures 1 <= v <= 8
  {
    match r
    case Ace => 8
    case King => 7
    case Queen => 6
    case Jack => 5
    case Ten => 4
    case Nine => 3
    case Eight => 2
    case Seven => 1
  }

  /** The rank table is one-to-one, and listing the ranks strongest first
      reads off the values 8, 7, ..., 1: a bijection onto 1..8 with Ace = 8
      and Seven = 1. */
  lemma RankValueIsBijection()
    ensures forall r1: Rank, r2: Rank :: RankValue(r1) == RankValue(r2) ==> r1 == r2
    ensures forall i :: 0 <= i < |Ranks| ==> RankValue(Ranks[i]) == 8 - i
  {
  }

  /** The rank list is in strictly descending strength and names every rank;
      the suit list names four distinct suits. */
  lemma ListingsAreComplete()
    ensures |Ranks| == 8 && forall r: Rank :: r in Ranks
    ensures forall i, j :: 0 <= i < j < |Ranks| ==> RankValue(Ranks[i]) > RankValue(Ranks[j])
    ensures |Suits| == 4 && forall s: Suit :: s in Suits
    ensures forall i, j :: 0 <= i < j < |Suits| ==> Suits[i] != Suits[j]
  {
    forall r: Rank ensures r in Ranks {
      match r
      case Ace => assert Ranks[0] == r;
      case King => assert Ranks[1] == r;
      case Queen => assert Ranks[2] == r;
      case Jack => assert Ranks[3] == r;
      case Ten => assert Ranks[4] == r;
      case Nine => assert Ranks[5] == r;
      case Eight => assert Ranks[6] == r;
      case Seven => assert Ranks[7] == r;
    }
    forall s: Suit ensures s in Suits {
      match s
      case Spade => assert Suits[0] == s;
      case Heart => assert Suits[1] == s;
      case Diamond => assert Suits[2] == s;
      case Club => assert Suits[3] == s;
    }
  }

  /** Position of a rank in the rank list. */
  function RankIndex(r: Rank): (j: nat)
    ensures j < |Ranks| && Ranks[j] == r
  {
    match r
    case Ace => 0
    case King => 1
    case Queen => 2
    case Jack => 3
    case Ten => 4
    case Nine => 5
    case Eight => 6
    case Seven => 7
  }

  /** Position of a suit in the suit list. */
  function SuitIndex(s: Suit): (i: nat)
    ensures i < |Suits| && Suits[i] == s
  {
    match s
    case Spade => 0
    case Heart => 1
    case Diamond => 2
    case Club => 3
  }

  datatype Team = A | B

  /** A seat at the table; seats are numbered clockwise. */
  type Seat = s: int | 0 <= s < 4

  /** Even seats form team A, odd seats team B. */
  function TeamForSeat(seat: Seat): (t: Team)
    ensures t == A <==> seat == 0 || seat == 2
    ensures t == B <==> seat == 1 || seat == 3
  {
    if seat % 2 == 0 then A else B
  }

  /** Partners sit opposite each other; each neighbour is an opponent. */
  lemma SeatingAlternatesTeams(s: Seat)
    ensures TeamForSeat(s) == TeamForSeat((s + 2) % 4)
    ensures TeamForSeat(s) != TeamForSeat((s + 1) % 4)
    ensures TeamForSeat(s) != TeamForSeat((s + 3) % 4)
    ensures TeamForSeat(0) == A && TeamForSeat(1) == B && TeamForSeat(2) == A && TeamForSeat(3) == B
  {
  }

  /** A card. Its identity is the (suit, rank) pair. */
  datatype Card = Card(suit: Suit, rank: Rank)

  type PlayerId = string

  datatype Phase =
    | WaitingForPlayers
    | ReadyCheck
    | InitialToss
    | DealingFirst
    | VakkaiDecision
    | HukumSelection
    | DealingSecond
    | TrickPlay
    | VakkaiPlay
    | HandEnd
    | DealerSelection
    | MatchEnd

  datatype VakkaiState = VakkaiState(active: bool, declarerId: Option<PlayerId>, consecutiveWins: int)

  datatype TrickCard = TrickCard(playerId: PlayerId, card: Card)

  datatype TrickState = TrickState(cards: seq<TrickCard>, leadSuit: Option<Suit>, winnerId: Option<PlayerId>)

  /** A number per team: the match score and the per-hand trick counts. */
  datatype PerTeam = PerTeam(a: int, b: int)
  {
    function Of(t: Team): int
    {
      if t == A then a else b
    }
  }

  type Score = PerTeam

  datatype Player = Player(id: PlayerId, name: string, seat: Seat, team: Team, hand: seq<Card>, isReady: bool)

  datatype GameState = GameState(
    phase: Phase,
    dealerId: Option<PlayerId>,
    trumpChooserId: Option<PlayerId>,
    currentTurnId: Option<PlayerId>,
    vakkaiDecisionIndex: int,
    trumpSuit: Option<Suit>,
    vakkai: VakkaiState,
    currentTrick: TrickState,
    trickCounts: PerTeam,
    score: Score,
    dealerTeam: Option<Team>,
    trumpTeam: Option<Team>)
}
