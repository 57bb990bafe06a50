# Hukum rules engine in Dafny

This project models the server-side rules engine of Hukum, a four-player, two-team trick-taking card game. It covers the 32-card deck (A K Q J 10 9 8 7 in four suits), the toss that picks the dealing team, and the two-stage deal of four plus four cards. It also covers the Vakkai decision, where one player may bet on winning four tricks in a row with their first four cards, alone against the two opponents. Then come the choice of the Hukum (trump) suit, trick play, hand and match scoring, and the phase state machine that ties it all together.

Each TypeScript operation becomes a pure Dafny function over immutable values. Where the source's operation returns a boolean or `null` and mutates the engine, the model returns an `Outcome` that pairs the result with the new engine. Failure paths, such as not your turn or not in the right phase, return the engine unchanged. An illegal phase change makes the source throw. The model treats that as a precondition (a `requires` clause) on the operations that perform a phase change. The members in the "Findings" section model the throw itself as a value.

On top of the operations, the model defines a whole-engine invariant, `GameEngine.Valid`. It states:
- the phase copies agree;
- players sit on distinct seats, each in the team their seat dictates, and from the ready check on there are exactly four of them;
- after the toss, the dealer and trump chooser are seated players, the chooser in the seat after the dealer's, so the two are on opposite teams (`HandCycle.RolesOnOppositeTeams`), and the dealing and trump teams are opposite;
- whenever someone is expected to act, the turn holder is a seated player, and in Vakkai play the declarer is seated and the turn is never with the declarer's partner;
- during the Vakkai decision the turn sits as many seats after the dealer's neighbour as there have been passes;
- during play the current trick was built card by card by seated players and is still open between plays;
- the score stays zero-sum.

The hands themselves are constrained only while the first half of the deal is in them, during the Vakkai decision and the trump choice. At that point the deck is a shuffle of the full deck, each seat holds its first-deal hand, and the rest of the deck is kept for the second deal. Nothing about the hands is part of the invariant during play or afterwards. Instead, the second deal is described by `Dealing.SecondDealCompletesTheDeal` and each play by `Play.PlayTakesTheCard`.

The `*KeepsValid` lemmas show that every public operation preserves the invariant in its corrected form, under the preconditions its lemma states. Some examples:
- `Dealing.DealFirstHalfKeepsValid` needs no Vakkai running.
- `Lobby.StartReadyCheckKeepsValid` needs the table to be in WAITING_FOR_PLAYERS.
- `HandCycle.ResetMatchKeepsValid` needs a match that has left WAITING_FOR_PLAYERS.

The as-written `selectDealer` and `resetMatch` do not preserve it; see "Findings". For example, `resetMatch` as written succeeds only from WAITING_FOR_PLAYERS, and there it can take a table of fewer than four players to READY_CHECK (`HandCycle.ResetMatchFromTheLobbySkipsTheSeatCheck`).

Modules, one per source file or area:

- `Wrappers`: `Option` and `Result`.
- `Types`: cards, ranks, seats and teams (`server/src/types.ts`).
- `Cards`: `Card.ts`.
- `Deck`: `Deck.ts`.
- `Tricks`: `TrickLogic.ts`.
- `Scoring`: `Scoring.ts`.
- `StateMachine`: `StateMachine.ts`.
- `GameEngine`: the engine record, player look-ups and the invariant.
- `Lobby`, `Dealing`, `Play` and `HandCycle`: the operations of `GameState.ts`.

Randomness is a parameter. The source shuffles with `Math.random`. The model takes a sequence of swap indices, one per Fisher-Yates step, so that every shuffle the source can produce is some parameter value.

## Model

| member | source | states |
|---|---|---|
| Types.RankValue | server/src/types.ts:17-26 | every rank's strength lies between 1 (seven) and 8 (ace) |
| Types.RankValueIsBijection | server/src/types.ts:17-29 | distinct ranks have distinct strengths, and the i-th rank of the RANKS listing has strength 8 - i |
| Types.ListingsAreComplete | server/src/types.ts:28-29 | RANKS names all eight ranks in strictly falling strength; SUITS names all four suits, none twice |
| Types.TeamForSeat | server/src/types.ts:50-52 | seats 0 and 2 belong to team A and seats 1 and 3 to team B |
| Types.SeatingAlternatesTeams | server/src/types.ts:48-52 | seats 0 and 2 are team A, 1 and 3 team B: opposite seats share a team, neighbours never do |
| Cards.CreateCard | server/src/game/Card.ts:10-16 | a card is identified by its suit and rank alone (the id string is that pair) |
| Cards.CardValue | server/src/game/Card.ts:21-23 | a card's value lies between 1 and 8, with 8 exactly for an ace and 1 exactly for a seven |
| Cards.CompareCards | server/src/game/Card.ts:29-31 | the comparison lies between -7 and 7, and is positive or negative exactly as the first card's value is greater or smaller |
| Cards.CompareIsStrictTotalOrder | server/src/game/Card.ts:21-31 | comparing by rank value is antisymmetric and transitive, returns zero exactly for equal ranks, and orders any two distinct ranks |
| Cards.HighestFrom | server/src/game/Card.ts:52-61 | the filter-then-reduce yields the strongest card of the suit, the earliest one among equals, or nothing when no card of the suit was played |
| Cards.WinnerIndex | server/src/game/Card.ts:42-61 | when a trump was played the strongest trump wins; otherwise the strongest card of the lead suit wins |
| Cards.DetermineTrickWinner | server/src/game/Card.ts:36-62 | no winner exactly for an empty trick. Otherwise the winner is a played card. If a trump was played, it is a trump at least as strong as every trump. If not, it has the first card's suit and beats every card of that suit. Among equally strong cards the earliest wins |
| Cards.ValidateCardPlay | server/src/game/Card.ts:68-94 | a play is legal exactly when the card is held and follows the lead suit whenever the hand can; "not held" exactly when the card is missing; "must follow" names the lead suit, which the hand holds and the card lacks |
| Deck.CreateDeck | server/src/game/Deck.ts:11-21 | 32 cards, position 8*i + j holding the i-th suit with the j-th rank; every card occurs exactly once |
| Deck.DeckCoversAllCards | server/src/game/Deck.ts:11-21 | the suit-major layout contains every card |
| Deck.DeckIsDistinct | server/src/game/Deck.ts:11-21 | the suit-major layout repeats no card |
| Deck.Swap | server/src/game/Deck.ts:40-43 | one shuffle step exchanges two positions and changes nothing else, so the multiset of cards is kept |
| Deck.ShuffleSteps | server/src/game/Deck.ts:38-45 | every prefix of the Fisher-Yates loop keeps the deck a permutation of the input |
| Deck.ShuffleDeck | server/src/game/Deck.ts:36-46 | the shuffled deck is a permutation of the input, whatever random indices are drawn |
| Deck.PermutationKeepsDistinct | server/src/game/Deck.ts:36-46 | a permutation of a deck without repeats has no repeats, so a shuffled fresh deck holds each card once |
| Deck.DrawTossCards | server/src/game/Deck.ts:82-86 | drawing n toss cards gives min(n, 32) cards, no two alike |
| Deck.DealCards | server/src/game/Deck.ts:55-77 | round-robin dealing: hand p's k-th card is deck[k*n + p]; no hand exceeds the count; every slot inside the deck is dealt. With enough cards every hand is full and the rest is deck[n*c..]. The hands plus the rest are a permutation of the deck |
| Deck.DealFourEach | server/src/game/Deck.ts:55-77 | dealing four cards to four players gives hand p the cards at p, p+4, p+8, p+12 and leaves deck[16..] |
| Deck.DealEightIsTwoDealsOfFour | server/src/game/Deck.ts:55-77 | dealing eight each from a 32-card deck equals dealing four each and then four each from the rest, with nothing left over |
| Deck.SumsBounds | server/src/game/Deck.ts:93-113 | the two alternate sums of rank values are non-negative and together lie between the card count and eight times it |
| Deck.CalculateTossPoints | server/src/game/Deck.ts:93-113 | team A scores the rank values of the cards at even positions, team B those at odd positions |
| Deck.TossPoint | server/src/game/Deck.ts:96-99 | the toss's own points table gives every rank the same value as RANK_VALUES |
| Deck.TossPointsSplitRankPoints | server/src/game/Deck.ts:93-113 | toss points are non-negative, bounded by the card count, and for a four-card toss are seats 0+2 against seats 1+3 |
| Tricks.CreateTrickState | server/src/game/TrickLogic.ts:11-17 | an empty trick with no lead suit and no winner |
| Tricks.AddCardToTrick | server/src/game/TrickLogic.ts:22-35 | the play is appended after the existing plays. The first card sets the lead suit and later cards never change it. The winner stays unset |
| Tricks.BuildTrickHoldsPlays | server/src/game/TrickLogic.ts:22-35 | adding plays one by one to an empty trick keeps exactly those plays, with the lead suit fixed by the first |
| Tricks.CalculateTrickWinner | server/src/game/TrickLogic.ts:40-68 | no winner exactly for an empty trick; the winner is someone who played; for a trick whose lead suit is its first card's suit it names the owner of the card-level winner |
| Tricks.TrickWinnerAgrees | server/src/game/TrickLogic.ts:40-68 | for every trick built through AddCardToTrick, the trick-level and card-level winner rules name the same player |
| Tricks.IsTrickComplete | server/src/game/TrickLogic.ts:73-76 | a trick is complete exactly when it holds four cards, or three in a Vakkai hand |
| Tricks.GetNextPlayer | server/src/game/TrickLogic.ts:94-114 | outside Vakkai the turn passes clockwise. In Vakkai it moves one or two seats and never lands on the declarer's partner. It moves one seat unless that seat is the partner's |
| Tricks.CompleteWhenTheTurnOrderHasPlayed | server/src/game/TrickLogic.ts:73-76 | a trick is complete exactly when as many cards have been played as its turn order has seats, for any leader and declarer |
| Tricks.VakkaiFollowersAreOpponents | server/src/game/TrickLogic.ts:133-143 | the loop that collects the followers of a Vakkai declarer picks exactly the seats right and left of the declarer |
| Tricks.GetTrickTurnOrder | server/src/game/TrickLogic.ts:122-144 | a normal order is the four seats clockwise from the leader, each once. A Vakkai order is the declarer followed by the seats right and left of them, so the partner is left out |
| Tricks.NextPlayerFollowsTurnOrder | server/src/game/TrickLogic.ts:94-144 | stepping with GetNextPlayer walks the turn order seat by seat; in Vakkai the last seat leads back to the declarer |
| Tricks.VakkaiOrderSkipsOnlyPartner | server/src/game/TrickLogic.ts:133-143 | a seat takes part in a Vakkai trick exactly when it is not the declarer's partner |
| Tricks.VakkaiOrderIsDeclarerAgainstOpponents | server/src/game/TrickLogic.ts:133-143 | both followers in a Vakkai trick belong to the other team |
| Scoring.Opposite | server/src/game/Scoring.ts:138-140 | the opposite team is never the team itself |
| Scoring.OppositeIsInvolution | server/src/game/Scoring.ts:138-140 | taking the opposite team twice gives back the team |
| Scoring.Credit | server/src/game/GameState.ts:432 | crediting a trick to one team adds to its count and leaves the other team's count alone |
| Scoring.CreateScore | server/src/game/Scoring.ts:10-12 | both teams start at zero |
| Scoring.ApplyScore | server/src/game/Scoring.ts:18-30 | the winner gains what the loser loses, so the sum of the two scores never changes |
| Scoring.ScoresStayOpposite | server/src/game/Scoring.ts:10-30 | after any sequence of awards from a fresh score, team A's score is the negation of team B's |
| Scoring.IsMatchEnd | server/src/game/Scoring.ts:35-37 | the match ends exactly when some team's score reaches +16 or -16 |
| Scoring.GetMatchWinner | server/src/game/Scoring.ts:42-48 | a winner exists exactly when the match has ended. The winner reached +16 or its opponent reached -16. With zero-sum scores the winner is at +16 or more |
| Scoring.CheckHandWinner | server/src/game/Scoring.ts:68-92 | five tricks for the trump team win it 5 points. Failing that, four tricks for the dealer team win it 10. Otherwise the hand is still open |
| Scoring.HandSettledWithinEightTricks | server/src/game/Scoring.ts:68-92 | once eight tricks are shared out a normal hand is decided; with fewer than four it cannot be |
| Scoring.CalculateVakkaiResult | server/src/game/Scoring.ts:97-117 | four straight wins give the declarer's team 8 points; anything less gives the opponents 16 |
| Scoring.VakkaiFailureFromTieEndsMatch | server/src/game/Scoring.ts:97-117 | a failed Vakkai from a fresh score puts the declarer's team at -16, which ends the match in the opponents' favour |
| Scoring.GetDealerChoosingTeam | server/src/game/Scoring.ts:123-133 | the team that picks the next dealer is a team behind on score, or team A when neither is negative; under zero-sum scores it is never the leading team |
| StateMachine.Successors | server/src/game/StateMachine.ts:10-23 | each row of VALID_TRANSITIONS lists at most three phases, none twice; only MATCH_END has an empty row, and only the two play phases list themselves |
| StateMachine.CanTransitionReadsTheTable | server/src/game/StateMachine.ts:10-23 | the row-by-row reading of VALID_TRANSITIONS allows exactly the listed successor phases |
| StateMachine.MatchEndIsTheOnlyDeadEnd | server/src/game/StateMachine.ts:10-23 | MATCH_END is the one phase without a way out; every other phase can move on |
| StateMachine.TableShape | server/src/game/StateMachine.ts:10-23 | only the two play phases may repeat. DEALING_FIRST is entered only from INITIAL_TOSS or DEALER_SELECTION and leads only to VAKKAI_DECISION. READY_CHECK is entered only from WAITING_FOR_PLAYERS |
| StateMachine.Predecessors | server/src/game/StateMachine.ts:10-23 | each set-up phase has exactly one phase it may be entered from |
| StateMachine.TableAllowsAFullMatch | server/src/game/StateMachine.ts:10-23 | a whole match, one normal hand and then a Vakkai hand that ends the match, is a lawful path through the table |
| StateMachine.NewMachine | server/src/game/StateMachine.ts:32-35 | a new machine is in its initial phase, and that phase is its whole history |
| StateMachine.CanTransitionTo | server/src/game/StateMachine.ts:47-49 | true exactly when the table lists the target among the current phase's successors |
| StateMachine.TransitionTo | server/src/game/StateMachine.ts:55-64 | a lawful move sets the phase and appends it to the history, so a lawful history stays lawful |
| StateMachine.AttemptTransition | server/src/game/StateMachine.ts:55-64 | the move succeeds exactly along a table edge; otherwise it reports the offending pair and changes nothing |
| StateMachine.NoWayOutOfMatchEnd | server/src/game/StateMachine.ts:55-64 | every move out of MATCH_END fails |
| StateMachine.ForcePhase | server/src/game/StateMachine.ts:69-72 | any phase is set and recorded, with no table check |
| StateMachine.ForcedJumpBreaksLawfulness | server/src/game/StateMachine.ts:69-72 | forcing HAND_END straight to DEALING_FIRST leaves a history that is not a path through the table |
| StateMachine.Reset | server/src/game/StateMachine.ts:98-101 | reset gives the same machine as a new one started in WAITING_FOR_PLAYERS |
| StateMachine.IsTerminal | server/src/game/StateMachine.ts:84-86 | terminal exactly at MATCH_END, which is exactly when no move is allowed |
| StateMachine.IsPlaying | server/src/game/StateMachine.ts:91-93 | playing exactly in TRICK_PLAY or VAKKAI_PLAY, which are exactly the phases that may follow themselves |
| GameEngine.FindId | server/src/game/GameState.ts:109-111 | the position of the first player with the id, or nothing exactly when no player has it |
| GameEngine.FindSeat | server/src/game/GameState.ts:116-118 | the position of the first player in the seat, or nothing exactly when the seat is free |
| GameEngine.GetPlayer | server/src/game/GameState.ts:109-111 | a player is returned exactly when the id is known, and it is the player with that id |
| GameEngine.GetPlayerBySeat | server/src/game/GameState.ts:116-118 | a player is returned exactly when the seat is taken, and it sits in that seat |
| GameEngine.PlayerAt | server/src/game/GameState.ts:225-227 | at a full table the player in each seat exists and belongs to that seat's team |
| GameEngine.HandsBySeat | server/src/game/GameState.ts:225-228 | sorting a full table by seat lists hand s as the hand of the player in seat s |
| GameEngine.WithHands | server/src/game/GameState.ts:225-228 | handing out hands by seat changes hands only, and each player gets the hand of their seat |
| GameEngine.SameSeatingKeepsRoster | server/src/game/GameState.ts:225-228 | changing only hands or flags keeps the same known ids and occupied seats, and keeps the roster consistent |
| GameEngine.ValidUnderSameSeating | server/src/game/GameState.ts:123-128 | changing only flags keeps the whole-engine invariant |
| GameEngine.InitialGameState | server/src/game/GameState.ts:46-66 | a fresh game waits for players with a zero score, no tricks counted, no Vakkai and an empty trick |
| GameEngine.NewEngine | server/src/game/GameState.ts:35-41 | a new engine has no players, waits for them, has history WAITING_FOR_PLAYERS, and satisfies the invariant |
| Lobby.FirstFreeFrom | server/src/game/GameState.ts:79-83 | the seat search stops at the first free seat, and every seat it passes is taken |
| Lobby.FreeSeatFound | server/src/game/GameState.ts:76-83 | with fewer than four players the search always finds a real seat |
| Lobby.PutPlayer | server/src/game/GameState.ts:95 | storing a player makes it present. A known id is replaced in place, with every other entry kept and the count unchanged. A new id is appended |
| Lobby.PutPlayerOnFreeSeat | server/src/game/GameState.ts:95 | storing a player on a free seat keeps the roster consistent and makes the player retrievable by id. Every other id reads back as before. The count grows by one only for a new id |
| Lobby.PutPlayerKeepsRoster | server/src/game/GameState.ts:95 | storing a player on a free seat keeps seats distinct and teams matching seats |
| Lobby.PutPlayerKeepsOthers | server/src/game/GameState.ts:95 | storing a player leaves every other player's lookup unchanged |
| Lobby.AddPlayer | server/src/game/GameState.ts:75-97 | joining is refused exactly at a full table, and then nothing changes. Otherwise the newcomer takes the lowest free seat with that seat's team, not ready and with an empty hand. Every other player is untouched |
| Lobby.AddPlayerKeepsValid | server/src/game/GameState.ts:75-97 | joining keeps the whole-engine invariant |
| Lobby.SetPlayerReady | server/src/game/GameState.ts:123-128 | succeeds exactly for a known id, setting that player's ready flag alone; an unknown id changes nothing |
| Lobby.SetPlayerReadyKeepsValid | server/src/game/GameState.ts:123-128 | setting a ready flag keeps the whole-engine invariant |
| Lobby.AllPlayersReady | server/src/game/GameState.ts:133-136 | true exactly when four players are seated and every one of them is ready |
| Lobby.ReadyingTheLastPlayerCompletesTheCheck | server/src/game/GameState.ts:123-136 | when everyone else is ready, the last player's flag decides whether all are ready |
| Lobby.TeamSeats | server/src/game/GameState.ts:147 | the listed seats of a team are exactly the seats whose team it is, in increasing order |
| Lobby.FreeTeamSeat | server/src/game/GameState.ts:146-149 | the first seat of the team not taken by someone else, or nothing exactly when both are taken |
| Lobby.ChangePlayerTeam | server/src/game/GameState.ts:141-156 | succeeds exactly for a known player when the new team has a seat free of others. The player moves there, joins the team and loses the ready flag. Nobody else changes, and a failure changes nothing |
| Lobby.FullTableKeepsTeams | server/src/game/GameState.ts:141-156 | at a full table a player can only "change" to the team they are already in, and keeps their seat |
| Lobby.ChangePlayerTeamKeepsValid | server/src/game/GameState.ts:141-156 | changing team keeps the whole-engine invariant |
| Lobby.ChangeTeamOnFullTable | server/src/game/GameState.ts:141-156 | a successful change at a full table keeps the whole-engine invariant |
| Lobby.ChangingTeamUndoesReadiness | server/src/game/GameState.ts:154 | after a successful team change not all players are ready |
| Lobby.StartReadyCheck | server/src/game/GameState.ts:165-170 | starts exactly at a full table, moving both phase copies to READY_CHECK and nothing else; otherwise changes nothing |
| Lobby.StartReadyCheckKeepsValid | server/src/game/GameState.ts:165-170 | starting the ready check keeps the whole-engine invariant |
| Lobby.GetPlayerHand | server/src/game/GameState.ts:631-634 | a known player's own hand, and an empty hand for an unknown id |
| Lobby.GetPublicState | server/src/game/GameState.ts:605-626 | the public view lists every player with their card count, not their cards, and copies phase, score and trick |
| Lobby.PublicStateHidesCards | server/src/game/GameState.ts:605-626 | two engines whose players differ only in which cards they hold, not how many, look the same to clients |
| Dealing.NextPlayer | server/src/game/GameState.ts:258-261 | the player clockwise after a seated player is a seated player in the next seat |
| Dealing.FindOnTeam | server/src/game/GameState.ts:198 | the first seat from a start seat whose player is on the team, or nothing when none is |
| Dealing.FirstOnTeamIsLowerSeat | server/src/game/GameState.ts:180-198 | the first dealer is seat 0 for team A and seat 1 for team B |
| Dealing.TossDealerTeam | server/src/game/GameState.ts:187-190 | team A deals exactly when its toss points are not above team B's |
| Dealing.PerformInitialToss | server/src/game/GameState.ts:175-208 | the team with fewer toss points, or A on a tie, deals, and the other team picks trump. The dealer is that team's lowest seat. The trump chooser sits clockwise after the dealer |
| Dealing.TossDealsOneCardPerSeat | server/src/game/GameState.ts:179-185 | the toss gives the player in each seat the toss card of that index |
| Dealing.TossChangesOnlyTheRoles | server/src/game/GameState.ts:175-208 | the toss moves to INITIAL_TOSS and sets the two teams and the dealer and chooser ids, nothing else |
| Dealing.PerformInitialTossKeepsValid | server/src/game/GameState.ts:175-208 | the toss keeps the whole-engine invariant |
| Dealing.DealFirstHalf | server/src/game/GameState.ts:213-240 | a fresh shuffled deck is dealt four each by seat, keeping deck[16..]. The phase moves through DEALING_FIRST to VAKKAI_DECISION. The player after the dealer decides first |
| Dealing.FirstDealHands | server/src/game/GameState.ts:218-228 | the first deal is DealCards(deck, 4, 4) by seat, seat s holding deck[4k + s], and hands plus remainder are the full 32-card deck |
| Dealing.DealFirstHalfKeepsValid | server/src/game/GameState.ts:213-240 | the first deal keeps the whole-engine invariant |
| Dealing.PassVakkai | server/src/game/GameState.ts:245-265 | a pass is accepted exactly from the player whose turn it is in VAKKAI_DECISION. The fourth pass moves to HUKUM_SELECTION and gives the turn to the trump chooser. Earlier passes give the turn clockwise. A refused pass changes nothing |
| Dealing.PassMovesTheTurn | server/src/game/GameState.ts:257-261 | after i passes the decision sits i+1 seats clockwise from the dealer |
| Dealing.PassVakkaiKeepsValid | server/src/game/GameState.ts:245-265 | passing keeps the whole-engine invariant |
| Dealing.PassRound | server/src/game/GameState.ts:245-265 | everyone in turn passing keeps the invariant and the hands |
| Dealing.NobodyDeclaresLeadsToHukum | server/src/game/GameState.ts:245-265 | when every remaining player passes, the game reaches HUKUM_SELECTION with the trump chooser to act, after four decisions, with hands untouched |
| Dealing.DeclareVakkai | server/src/game/GameState.ts:270-292 | a declaration is accepted exactly from the deciding player. It starts VAKKAI_PLAY with that declarer and no wins, no trump, the declarer to lead and an empty trick. The hands are not dealt further |
| Dealing.DeclareVakkaiKeepsValid | server/src/game/GameState.ts:270-292 | declaring keeps the invariant, and a Vakkai is played with the four first-deal cards each |
| Dealing.ChooseHukum | server/src/game/GameState.ts:317-340 | accepted exactly from the trump chooser in HUKUM_SELECTION. The trump is set and each seat receives its share of the second deal. The phase moves through DEALING_SECOND to TRICK_PLAY, with the player after the chooser to lead |
| Dealing.DealSecondHalf | server/src/game/GameState.ts:345-354 | each seat's hand grows by its four cards from DealCards(remainingDeck, 4, 4), and nothing is left in the deck |
| Dealing.SecondDealCompletesTheDeal | server/src/game/GameState.ts:317-354 | after both deals the hands by seat are exactly DealCards(deck, 4, 8): eight cards each, together the whole deck |
| Dealing.SecondDealHands | server/src/game/GameState.ts:345-354 | the first four plus the second four of each seat equal an eight-card round-robin deal of the whole deck |
| Dealing.DealOfEightUsesTheDeck | server/src/game/Deck.ts:55-77 | dealing eight each from a shuffled deck gives every seat eight cards and uses each of the 32 cards once |
| Dealing.ChooseHukumKeepsValid | server/src/game/GameState.ts:317-340 | choosing trump keeps the whole-engine invariant |
| Play.Without | server/src/game/GameState.ts:385 | removing a card from a hand keeps every other card with its multiplicity and drops that card entirely; a hand without the card is returned as it was |
| Play.WithoutSplits | server/src/game/GameState.ts:385 | filtering a hand is filtering its pieces in order, so the remaining cards keep their order |
| Play.WithoutKeepsTheRest | server/src/game/GameState.ts:385 | after removal a card is in the hand exactly when it was there before and is not the played card |
| Play.SetHand | server/src/game/GameState.ts:385 | replacing one player's hand changes that hand alone: every player keeps id, name, seat, team and ready flag, and every other hand is kept |
| Play.SetHandReadBack | server/src/game/GameState.ts:385 | the new hand reads back for that player, and every other player's hand reads back as before |
| Play.IndexOf | server/src/game/GameState.ts:412 | indexOf: -1 exactly when the seat is absent, else the first position holding it |
| Play.NextTurnSeat | server/src/game/GameState.ts:404-422 | the next seat is clockwise outside Vakkai. In Vakkai it follows GetNextPlayer and never reaches the partner. From the partner's seat it returns to the declarer |
| Play.VakkaiStep | server/src/game/GameState.ts:408-415 | stepping to the next entry of the Vakkai turn order agrees with GetNextPlayer and never lands on the partner |
| Play.AdvanceToNextPlayer | server/src/game/GameState.ts:404-422 | only the turn holder changes. The new turn holder is a seated player in the seat the trick rules give, and never the declarer's partner in a Vakkai |
| Play.EndHand | server/src/game/GameState.ts:502-522 | a hand that ends the match moves to MATCH_END. Otherwise it moves to HAND_END, and the team behind picks the next dealer with the other team to choose trump. The result names the hand's winner, points and reason |
| Play.EndHandKeepsValid | server/src/game/GameState.ts:502-522 | ending a hand keeps the whole-engine invariant |
| Play.ResolveVakkaiTrick | server/src/game/GameState.ts:446-474 | a trick lost by the declarer ends the hand with 16 to the opponents. A fourth straight win ends it with 8 to the declarer's team. Otherwise the win is counted and the declarer leads an empty trick |
| Play.ResolveNormalTrick | server/src/game/GameState.ts:479-497 | when the trick counts settle the hand its winner is scored and the hand ends; otherwise the trick winner leads an empty trick |
| Play.TrickWinner | server/src/game/GameState.ts:428-429 | the winner is the seated player who played the card-level winning card |
| Play.ResolveTrick | server/src/game/GameState.ts:427-441 | the winner's team gets one more trick and the other team's count is kept. A hand that goes on keeps its phase and opens an empty trick. A hand that ends leaves HAND_END or MATCH_END |
| Play.ResolveTrickKeepsValid | server/src/game/GameState.ts:427-441 | resolving a full trick keeps the whole-engine invariant |
| Play.VakkaiResolveKeepsValid | server/src/game/GameState.ts:446-474 | resolving a Vakkai trick keeps the whole-engine invariant |
| Play.NormalResolveKeepsValid | server/src/game/GameState.ts:479-497 | resolving a normal trick keeps the whole-engine invariant |
| Play.AdvanceKeepsValid | server/src/game/GameState.ts:404-422 | passing the turn inside an open trick keeps the whole-engine invariant |
| Play.TakeCard | server/src/game/GameState.ts:384-388 | the played card leaves the player's hand and joins the trick; nothing else changes |
| Play.PlayCard | server/src/game/GameState.ts:359-399 | errors come in the source's order: phase, turn, card not held, must follow suit. A play succeeds exactly when the card is legal. The card then leaves the hand and joins the trick, and the trick is resolved if complete, else the turn passes |
| Play.CommitPlay | server/src/game/GameState.ts:384-396 | once the card is taken the engine still meets the play-readiness facts with a non-empty trick, so resolving a completed trick or passing the turn is always defined |
| Play.PlayCardKeepsValid | server/src/game/GameState.ts:359-399 | every accepted play keeps the whole-engine invariant |
| Play.PlayTakesTheCard | server/src/game/GameState.ts:384-385 | the card was held and has left the player's hand; every other player's hand is unchanged |
| Play.PlayExtendsAnOpenTrick | server/src/game/GameState.ts:387-396 | a play that does not complete the trick appends to it, keeps phase and score, and hands the turn to someone else |
| Play.NextSeatIsAnother | server/src/game/TrickLogic.ts:94-114 | the next player is never the current one |
| Play.PlayCompletesTheTrick | server/src/game/GameState.ts:391-393 | a play that completes the trick credits one trick to the team of the card-level winner |
| HandCycle.TransitionToDealerSelection | server/src/game/GameState.ts:527-532 | from HAND_END both phase copies move to DEALER_SELECTION with nothing else changed; in any other phase nothing happens |
| HandCycle.TransitionToDealerSelectionKeepsValid | server/src/game/GameState.ts:527-532 | this keeps the whole-engine invariant |
| HandCycle.DealerRefusal | server/src/game/GameState.ts:537-546 | a dealer is accepted exactly in HAND_END or DEALER_SELECTION, for a known player on the dealer-choosing team |
| HandCycle.ClearHands | server/src/game/GameState.ts:575-577 | every hand is emptied and nothing else about the players changes |
| HandCycle.PrepareHand | server/src/game/GameState.ts:548-577 | records the dealer and, clockwise after them, the trump chooser; clears the Vakkai, decision count, trump, trick and trick counts and all hands |
| HandCycle.PrepareHandKeepsValid | server/src/game/GameState.ts:563-577 | preparing a hand in DEALER_SELECTION keeps the invariant and leaves no Vakkai active |
| HandCycle.SelectDealer | server/src/game/GameState.ts:537-558 | corrected selectDealer: refused exactly when the dealer is refused, with that reason; otherwise succeeds |
| HandCycle.StartHand | server/src/game/GameState.ts:549-581 | after an accepted dealer the next hand is in VAKKAI_DECISION with that dealer, phase copies agreeing |
| HandCycle.SelectDealerSteps | server/src/game/GameState.ts:537-581 | the corrected selectDealer is the lawful move to DEALER_SELECTION, then the reset of the hand, then the ordinary first deal |
| HandCycle.SelectDealerRecordsThePhases | server/src/game/GameState.ts:537-581 | the history gains DEALER_SELECTION (if coming from HAND_END), DEALING_FIRST and VAKKAI_DECISION, every one a table edge |
| HandCycle.SelectDealerClearsTheLastHand | server/src/game/GameState.ts:563-572 | the new hand keeps the score but starts with no tricks, no trump, no Vakkai and no decisions |
| HandCycle.SelectDealerDealsAFreshHand | server/src/game/GameState.ts:574-581 | the new hand is dealt four each by seat from a fresh shuffled deck, with seating unchanged |
| HandCycle.SelectDealerOpensWithTheTrumpChooser | server/src/game/GameState.ts:549-552 | the trump chooser sits clockwise after the new dealer and opens the Vakkai decision |
| HandCycle.SelectDealerKeepsValid | server/src/game/GameState.ts:537-558 | a successful dealer selection keeps the whole-engine invariant |
| HandCycle.NewDealerFromTeamNotAhead | server/src/game/GameState.ts:543-552 | the new dealer's team is not ahead on score, and the trump chooser is on the other team |
| HandCycle.DealerAndChooserTeams | server/src/game/GameState.ts:549-552 | the player clockwise after a dealer is always on the other team |
| HandCycle.NextSeatOtherTeam | server/src/types.ts:48-52 | the next seat clockwise always belongs to the other team |
| HandCycle.RolesOnOppositeTeams | server/src/game/GameState.ts:191-205 | in any engine satisfying the invariant after the toss, the dealer and the trump chooser are players on opposite teams, and the dealing and trump teams are opposite |
| HandCycle.DealFirstHalfAsWritten | server/src/game/GameState.ts:213-240 | dealFirstHalf as written: it throws exactly when DEALING_FIRST is not a table edge from the machine's phase, and then changes nothing |
| HandCycle.SelectDealerAsWritten | server/src/game/GameState.ts:537-581 | selectDealer as written: a refused dealer returns false unchanged; an accepted dealer always ends in a throw |
| HandCycle.SelectDealerNeverCompletes | server/src/game/GameState.ts:578-581 | as written, selectDealer never returns true. An accepted dealer throws on DEALING_FIRST to DEALING_FIRST and leaves the machine in DEALING_FIRST while the game phase stays put. Hands are cleared and the dealer is recorded |
| HandCycle.Unready | server/src/game/GameState.ts:307-311 | every player keeps seat, team and name but has an empty hand and is not ready |
| HandCycle.ResetMatchAsWritten | server/src/game/GameState.ts:297-312 | resetMatch as written: it completes exactly when the machine is in WAITING_FOR_PLAYERS, and otherwise throws on the move to READY_CHECK |
| HandCycle.ResetMatchFailsAtMatchEnd | server/src/game/GameState.ts:297-298 | from MATCH_END, the phase the reset is meant for, resetMatch as written throws |
| HandCycle.ResetMatchFromTheLobbySkipsTheSeatCheck | server/src/game/GameState.ts:297-312 | where resetMatch as written completes, from the lobby, it takes an empty table to READY_CHECK, which breaks the engine invariant |
| HandCycle.ResetMatch | server/src/game/GameState.ts:297-312 | corrected resetMatch: READY_CHECK with a lawful two-step history, a zero score, no tricks, no dealer, trump chooser, dealing or trump team, trump suit, turn or Vakkai; seating kept, hands emptied, nobody ready |
| HandCycle.ResetMatchKeepsValid | server/src/game/GameState.ts:297-312 | resetting a started match keeps the whole-engine invariant |
| HandCycle.ResetMatchAgreesWhereWrittenSucceeds | server/src/game/GameState.ts:297-312 | where the written resetMatch does complete, the corrected one gives the same engine |

## Left out

- `removePlayer` (GameState.ts:102-104): players only leave through the room layer, which is not part of this model; the invariant assumes the table never loses a player mid-game.
- `isConnected` and `wantsSwitch` player flags: connection tracking and the team-switch request protocol belong to the room and message layers.
- The toss-card map stored in the game state (`tossCards`): the model returns the toss cards with the toss outcome instead of storing them.
- `getCardDisplay` (Card.ts:99): display formatting only.
- `seededRandom` (Deck.ts:26-31) and `Math.random`: the shuffle takes its random indices as a parameter.
- `getPhase`, `getGameState`, `getAllPlayers` and `getHistory`: plain field reads.
- `validateTrickPlay` (TrickLogic.ts:81-87): the same check as `validateCardPlay` applied to the trick's lead suit.
- Error strings become enumerated error values; the human-readable texts are not modelled.
- `createStateMachine` (StateMachine.ts:105-107): same as `NewMachine`.
- The room, transport and message handling layers, including the timers that call `transitionToDealerSelection` and `resetMatch`; `autoSelectDealer`, which the message handler calls, does not exist in the engine and is not modelled.
- Card ids are strings in the source; the model identifies a card by suit and rank, so `cardId` lookups become card lookups.
- Tricks.CalculateTrickWinner: requires a played trump or a played card of the recorded lead suit. When neither exists (a non-empty trick with no lead suit, or a lead suit nobody played), the source's `reduce` without an initial value on an empty list throws a TypeError (TrickLogic.ts:62-66). The model leaves that throw out. It is unreachable from the engine, because the only caller (`resolveTrick`) passes tricks built by `addCardToTrick`, which records the first card's suit as lead (see Tricks.TrickWinnerAgrees).
- Tricks.GetTrickTurnOrder: requires a declarer seat in a Vakkai. Without one, the source computes `[undefined, NaN, NaN, NaN]`, because every `(undefined + i) % 4` is NaN and NaN never equals the NaN partner seat (TrickLogic.ts:133-143). The model leaves that result out. It is unreachable from the engine, because `advanceToNextPlayer` always passes the declarer's seat.
- Deck.DrawTossCards: the contract states how many toss cards are drawn and that no two are alike; that they are the first cards of the shuffled deck is left to its definition.
- Deck.ShuffleDeck: states only that the result is a permutation reached by in-range swaps; the distribution of `Math.random` is not modelled.
- Dealing.PerformInitialToss: requires a full table and a lawful move to INITIAL_TOSS; the source throws on an unlawful move and otherwise relies on its caller having completed the ready check of a full table.
- Dealing.DealFirstHalf: requires a lawful move to DEALING_FIRST; the throwing case is modelled by HandCycle.DealFirstHalfAsWritten.
- Play.PlayCard: requires the whole-engine play-readiness facts (a seated turn holder, a consistent trick) that the source takes for granted through its `!` assertions.

## Findings

| source | as written | input that shows it | evidently intended | confidence | as-written member | corrected member |
|---|---|---|---|---|---|---|
| server/src/game/GameState.ts:580-581 | `resetForNewHand` forces the machine to DEALING_FIRST and then calls `dealFirstHalf`, whose first step is `transitionTo('DEALING_FIRST')` (GameState.ts:214); DEALING_FIRST → DEALING_FIRST is not in the table (StateMachine.ts:14), so every accepted `selectDealer` throws, leaving the machine in DEALING_FIRST, the game phase where it was and all hands emptied | any engine in HAND_END and a dealer from the dealer-choosing team | move lawfully HAND_END → DEALER_SELECTION → DEALING_FIRST → VAKKAI_DECISION and deal the new hand | not executed | HandCycle.SelectDealerNeverCompletes | HandCycle.SelectDealerRecordsThePhases |
| server/src/game/GameState.ts:298 | `resetMatch` starts with `transitionTo('READY_CHECK')` on the existing machine; the match ends in MATCH_END, which has no outgoing edge (StateMachine.ts:22), so the reset after a finished match throws before resetting anything | any engine in MATCH_END | reset the machine and enter READY_CHECK with a fresh game, keeping the seating | not executed | HandCycle.ResetMatchFailsAtMatchEnd | HandCycle.ResetMatch |
