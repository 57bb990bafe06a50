/** The scoring rules (server/src/game/Scoring.ts): zero-sum score updates, the
    ±16 match end, who wins a hand and for how much, the Vakkai payout, and
    which team picks the next dealer. */
module Scoring {
  import opened Wrappers
  import opened Types

  const VakkaiSuccessPoints := 8
  const VakkaiFailurePoints := 16
  const TrumpTeamWinPoints := 5
  const DealerTeamWinPoints := 10
  const TrumpTeamTarget := 5
  const DealerTeamTarget := 4
  const VakkaiTarget := 4
  const MatchEndThreshold := 16

  /** getOppositeTeam. */
  function Opposite(t: Team): (o: Team)
    ensures o != t
  {
    if t == A then B else A
  }

  /** Taking the opposite twice gives the team back. */
  lemma OppositeIsInvolution(t: Team)
    ensures Opposite(Opposite(t)) == t
  {
  }

  /** One team's number raised by n, the other's untouched. */
  function Credit(p: PerTeam, t: Team, n: int): (q: PerTeam)
    ensures q.Of(t) == p.Of(t) + n && q.Of(Opposite(t)) == p.Of(Opposite(t))
  {
    if t == A then PerTeam(p.a + n, p.b) else PerTeam(p.a, p.b + n)
  }

  /** createScore. */
  function CreateScore(): (s: Score)
    ensures s.Of(A) == 0 && s.Of(B) == 0
  {
    PerTeam(0, 0)
  }

  /** applyScore: the winning team gains the points, the other loses as many. */
  function ApplyScore(score: Score, winner: Team, points: int): (s: Score)
    ensures s.Of(winner) == score.Of(winner) + points
    ensures s.Of(Opposite(winner)) == score.Of(Opposite(winner)) - points
    ensures s.a + s.b == score.a + score.b
  {
    if winner == A then PerTeam(score.a + points, score.b - points)
    else PerTeam(score.a - points, score.b + points)
  }

  /** A hand's outcome as it is fed to applyScore. */
  datatype Award = Award(team: Team, points: int)

  /** The score after a sequence of awards, applied in order from createScore. */
  function ScoreAfter(awards: seq<Award>): Score
  {
    if |awards| == 0 then CreateScore()
    else
      var last := awards[|awards| - 1];
      ApplyScore(ScoreAfter(awards[..|awards| - 1]), last.team, last.points)
  }

  /** Whatever was awarded, the two scores are opposite numbers. */
  lemma {:induction false} ScoresStayOpposite(awards: seq<Award>)
    ensures ScoreAfter(awards).a == -ScoreAfter(awards).b
  {
    if |awards| > 0 {
      ScoresStayOpposite(awards[..|awards| - 1]);
    }
  }

  /** isMatchEnd: some score has reached +16 or -16. */
  function IsMatchEnd(score: Score): (ended: bool)
    ensures ended <==> exists t: Team :: score.Of(t) >= MatchEndThreshold || score.Of(t) <= -MatchEndThreshold
  {
    assert score.Of(A) == score.a && score.Of(B) == score.b;
    score.a >= 16 || score.a <= -16 || score.b >= 16 || score.b <= -16
  }

  /** getMatchWinner: a team at +16 wins, else the opponent of a team at -16. */
  function GetMatchWinner(score: Score): (w: Option<Team>)
    ensures w.Some? <==> IsMatchEnd(score)
    ensures w.Some? && score.a == -score.b ==> score.Of(w.value) >= MatchEndThreshold
    ensures w.Some? ==> score.Of(w.value) >= MatchEndThreshold || score.Of(Opposite(w.value)) <= -MatchEndThreshold
  {
    if score.a >= 16 then Some(A)
    else if score.b >= 16 then Some(B)
    else if score.a <= -16 then Some(B)
    else if score.b <= -16 then Some(A)
    else None
  }

  datatype HandReason = TrumpTeamReachedTarget | DealerTeamReachedTarget

  datatype HandResult = HandResult(team: Team, points: int, reason: HandReason)

  /** checkHandWinner: the trump team at 5 tricks wins 5 points, checked first;
      otherwise the dealer team at 4 tricks wins 10; otherwise the hand goes on. */
  function CheckHandWinner(trickCounts: PerTeam, trumpTeam: Team, dealerTeam: Team): (r: Option<HandResult>)
    ensures trickCounts.Of(trumpTeam) >= TrumpTeamTarget ==>
              r == Some(HandResult(trumpTeam, TrumpTeamWinPoints, TrumpTeamReachedTarget))
    ensures trickCounts.Of(trumpTeam) < TrumpTeamTarget && trickCounts.Of(dealerTeam) >= DealerTeamTarget ==>
              r == Some(HandResult(dealerTeam, DealerTeamWinPoints, DealerTeamReachedTarget))
    ensures r.None? <==> trickCounts.Of(trumpTeam) < TrumpTeamTarget && trickCounts.Of(dealerTeam) < DealerTeamTarget
  {
    if trickCounts.Of(trumpTeam) >= TrumpTeamTarget then
      Some(HandResult(trumpTeam, TrumpTeamWinPoints, TrumpTeamReachedTarget))
    else if trickCounts.Of(dealerTeam) >= DealerTeamTarget then
      Some(HandResult(dealerTeam, DealerTeamWinPoints, DealerTeamReachedTarget))
    else None
  }

  /** With the two roles on opposite teams, a hand is settled once eight tricks
      have been won between them, and cannot be settled before the fourth. */
  lemma HandSettledWithinEightTricks(trickCounts: PerTeam, trumpTeam: Team)
    requires trickCounts.a >= 0 && trickCounts.b >= 0
    ensures trickCounts.a + trickCounts.b >= 8 ==> CheckHandWinner(trickCounts, trumpTeam, Opposite(trumpTeam)).Some?
    ensures trickCounts.a + trickCounts.b < 4 ==> CheckHandWinner(trickCounts, trumpTeam, Opposite(trumpTeam)).None?
  {
  }

  datatype VakkaiResult = VakkaiResult(winnerTeam: Team, points: int, success: bool)

  /** calculateVakkaiResult: four wins pay the declarer's team 8; anything less
      pays the opponents 16. */
  function CalculateVakkaiResult(consecutiveWins: int, declarerTeam: Team): (r: VakkaiResult)
    ensures r.success <==> consecutiveWins >= VakkaiTarget
    ensures r.success ==> r.winnerTeam == declarerTeam && r.points == VakkaiSuccessPoints
    ensures !r.success ==> r.winnerTeam == Opposite(declarerTeam) && r.points == VakkaiFailurePoints
  {
    if consecutiveWins >= VakkaiTarget then VakkaiResult(declarerTeam, VakkaiSuccessPoints, true)
    else VakkaiResult(Opposite(declarerTeam), VakkaiFailurePoints, false)
  }

  /** A failed Vakkai moves the declarer's team 16 points down: from a tie,
      exactly to the match-ending -16. */
  lemma VakkaiFailureFromTieEndsMatch(declarerTeam: Team)
    ensures var r := CalculateVakkaiResult(0, declarerTeam);
      var s := ApplyScore(CreateScore(), r.winnerTeam, r.points);
      s.Of(declarerTeam) == -16 && IsMatchEnd(s) && GetMatchWinner(s) == Some(Opposite(declarerTeam))
  {
  }

  /** getDealerChoosingTeam: the team that is behind picks the next dealer; A
      when neither is negative. */
  function GetDealerChoosingTeam(score: Score): (t: Team)
    ensures score.Of(t) < 0 || (score.a >= 0 && score.b >= 0 && t == A)
    ensures score.a < 0 ==> t == A
    ensures score.a == -score.b ==> score.Of(t) <= 0
  {
    if score.a < 0 then A
    else if score.b < 0 then B
    else A
  }
}
