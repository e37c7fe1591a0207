/*
 * StatsManager.kt: per-player statistics, updated after every classic round
 * and every finished game. `disk` is what this store last wrote to stats.json
 * (`None`: nothing yet); JSON and file errors are not modelled beyond "the file
 * could not be read".
 */
module PlayerStatistics {
  import opened Protocol

  /** The relations between counters that the updates keep. */
  ghost predicate Consistent(s: PlayerStats) {
    0 <= s.gamesWon <= s.gamesPlayed &&
    0 <= s.currentStreak <= s.maxStreak &&
    0 <= s.totalWordsGuessed <= s.totalWordsAttempted
  }

  /** The stats of a player nobody has seen are consistent. */
  lemma DefaultConsistent()
    ensures Consistent(DefaultStats)
  {
  }

  /**
   * `updateRound`'s new value: one more word attempted; on a win one more word
   * guessed, its time added and one more game in the attempts bucket.
   */
  function AfterRound(s: PlayerStats, won: bool, attemptsUsed: int, timeSeconds: int): (s': PlayerStats)
    ensures s'.totalWordsAttempted == s.totalWordsAttempted + 1
    ensures s'.totalWordsGuessed == s.totalWordsGuessed + (if won then 1 else 0)
    ensures s'.totalTimeSeconds == s.totalTimeSeconds + (if won then timeSeconds else 0)
    ensures won ==> Get(s'.guessDistribution, attemptsUsed, 0) == Get(s.guessDistribution, attemptsUsed, 0) + 1
    ensures forall k :: k != attemptsUsed || !won ==> Get(s'.guessDistribution, k, 0) == Get(s.guessDistribution, k, 0)
    ensures s'.gamesPlayed == s.gamesPlayed && s'.gamesWon == s.gamesWon
    ensures s'.currentStreak == s.currentStreak && s'.maxStreak == s.maxStreak
    ensures Consistent(s) ==> Consistent(s')
  {
    if won then
      s.(totalWordsAttempted := s.totalWordsAttempted + 1,
         totalWordsGuessed := s.totalWordsGuessed + 1,
         totalTimeSeconds := s.totalTimeSeconds + timeSeconds,
         guessDistribution := s.guessDistribution[attemptsUsed := Get(s.guessDistribution, attemptsUsed, 0) + 1])
    else
      s.(totalWordsAttempted := s.totalWordsAttempted + 1)
  }

  /** `roundsWon > totalRounds / 2`, with Kotlin's truncating division. */
  predicate GameWon(roundsWon: int, totalRounds: int) {
    roundsWon > DivTrunc(totalRounds, 2)
  }

  /** For a non-negative number of rounds, a game is won exactly by winning a strict majority of them. */
  lemma GameWonIsMajority(roundsWon: int, totalRounds: int)
    requires totalRounds >= 0
    ensures GameWon(roundsWon, totalRounds) <==> 2 * roundsWon > totalRounds
  {
  }

  /**
   * `updateGame`'s new value: one more game played, one more won on a win; the
   * streak grows on a win and restarts from zero on a loss, and the best streak
   * follows it upwards.
   */
  function AfterGame(s: PlayerStats, roundsWon: int, totalRounds: int): (s': PlayerStats)
    ensures s'.gamesPlayed == s.gamesPlayed + 1
    ensures s'.gamesWon == s.gamesWon + (if GameWon(roundsWon, totalRounds) then 1 else 0)
    ensures s'.currentStreak == if GameWon(roundsWon, totalRounds) then s.currentStreak + 1 else 0
    ensures s'.maxStreak >= s.maxStreak && s'.maxStreak >= s'.currentStreak
    ensures s'.maxStreak == s.maxStreak || s'.maxStreak == s'.currentStreak
    ensures s'.totalWordsAttempted == s.totalWordsAttempted && s'.totalWordsGuessed == s.totalWordsGuessed
    ensures s'.totalTimeSeconds == s.totalTimeSeconds && s'.guessDistribution == s.guessDistribution
    ensures Consistent(s) ==> Consistent(s')
  {
    var won := GameWon(roundsWon, totalRounds);
    var streak := if won then s.currentStreak + 1 else 0;
    s.(gamesPlayed := s.gamesPlayed + 1,
       gamesWon := if won then s.gamesWon + 1 else s.gamesWon,
       currentStreak := streak,
       maxStreak := if s.maxStreak >= streak then s.maxStreak else streak)
  }

  /** A game's result as `updateGame` receives it. */
  datatype GameResult = GameResult(roundsWon: int, totalRounds: int)

  /** The stats after `updateGame` ran for each of `games`, in order. */
  function Replay(s: PlayerStats, games: seq<GameResult>): PlayerStats {
    if games == [] then s
    else
      var g := games[|games| - 1];
      AfterGame(Replay(s, games[..|games| - 1]), g.roundsWon, g.totalRounds)
  }

  function WinsIn(games: seq<GameResult>): nat {
    if games == [] then 0
    else WinsIn(games[..|games| - 1]) + (if GameWon(games[|games| - 1].roundsWon, games[|games| - 1].totalRounds) then 1 else 0)
  }

  /** The number of won games at the end of `games`, after its last loss. */
  function TrailingWins(games: seq<GameResult>): nat {
    if games == [] || !GameWon(games[|games| - 1].roundsWon, games[|games| - 1].totalRounds) then 0
    else TrailingWins(games[..|games| - 1]) + 1
  }

  predicate AllWon(games: seq<GameResult>) {
    forall i :: 0 <= i < |games| ==> GameWon(games[i].roundsWon, games[i].totalRounds)
  }

  /**
   * Over any history of games, the counters tell that history: every game is
   * played, the won ones are counted, and the current streak is the run of wins
   * since the last loss (continuing the earlier streak when there was no loss).
   */
  lemma {:induction false} ReplayCounts(s: PlayerStats, games: seq<GameResult>)
    ensures Replay(s, games).gamesPlayed == s.gamesPlayed + |games|
    ensures Replay(s, games).gamesWon == s.gamesWon + WinsIn(games)
    ensures Replay(s, games).currentStreak == TrailingWins(games) + (if AllWon(games) then s.currentStreak else 0)
    ensures games != [] ==> Replay(s, games).maxStreak >= Replay(s, games).currentStreak
  {
    if games != [] {
      var init := games[..|games| - 1];
      ReplayCounts(s, init);
      assert AllWon(games) <==> AllWon(init) && GameWon(games[|games| - 1].roundsWon, games[|games| - 1].totalRounds) by {
        if AllWon(init) && GameWon(games[|games| - 1].roundsWon, games[|games| - 1].totalRounds) {
          forall i | 0 <= i < |games| ensures GameWon(games[i].roundsWon, games[i].totalRounds) {
            if i < |games| - 1 { assert games[i] == init[i]; }
          }
        }
      }
    }
  }

  /** The stats store. */
  class StatsManager {
    var players: map<string, PlayerStats>
    var disk: Option<map<string, PlayerStats>>

    /** `init { load() }`: a missing or unreadable file leaves the store empty; nothing is written. */
    constructor (stored: FileRead<map<string, PlayerStats>>)
      ensures players == if stored.Parsed? then stored.value else map[]
      ensures disk == None
    {
      players := if stored.Parsed? then stored.value else map[];
      disk := None;
    }

    /** A player with no entry reads as all zeros. */
    function GetStats(playerName: string): (s: PlayerStats)
      reads this
      ensures playerName in players ==> s == players[playerName]
      ensures playerName !in players ==> s == DefaultStats
    {
      Get(players, playerName, DefaultStats)
    }

    method UpdateRound(playerName: string, won: bool, attemptsUsed: int, timeSeconds: int)
      modifies this
      ensures players == old(players)[playerName := AfterRound(old(GetStats(playerName)), won, attemptsUsed, timeSeconds)]
      ensures disk == Some(players)
      ensures Consistent(old(GetStats(playerName))) ==> Consistent(GetStats(playerName))
    {
      var current := GetStats(playerName);
      players := players[playerName := AfterRound(current, won, attemptsUsed, timeSeconds)];
      disk := Some(players);
    }

    method UpdateGame(playerName: string, roundsWon: int, totalRounds: int)
      modifies this
      ensures players == old(players)[playerName := AfterGame(old(GetStats(playerName)), roundsWon, totalRounds)]
      ensures disk == Some(players)
      ensures Consistent(old(GetStats(playerName))) ==> Consistent(GetStats(playerName))
    {
      var current := GetStats(playerName);
      players := players[playerName := AfterGame(current, roundsWon, totalRounds)];
      disk := Some(players);
    }
  }
}
