/*
 * PVPGame.kt: a game of several rounds in which every player of a room guesses
 * the same word at the same time. Players are their connections (`ClientId`).
 * The coroutines are replaced by events: `BeginRound` (one iteration of the round
 * loop), `HandleGuess`, `HandleRequestHint`, `HandleTimeout` (the round timer),
 * `PlayerReady`, `ReadyTimeout` (the 15-second timer of the barrier between
 * rounds), `RemovePlayer`, `Abandon` and `Finish` (after the round loop). The
 * clock is the parameter `now` (milliseconds), the random draw the parameter `pick`.
 */
module PvpGames {
  import opened Protocol
  import opened Scoring
  import opened Sorting
  import Dictionary
  import TopScores
  import Rooms

  /** The name shown for a connection the game has no name for. */
  const UnknownName := "Desconocido"

  function ScoreKey(s: PlayerScore): int {
    s.score
  }

  /** `ps.filter { it != x }`. */
  function Without(ps: seq<ClientId>, x: ClientId): (r: seq<ClientId>)
    ensures forall p :: p in r <==> p in ps && p != x
  {
    if ps == [] then []
    else Without(ps[..|ps| - 1], x) + (if ps[|ps| - 1] != x then [ps[|ps| - 1]] else [])
  }

  lemma WithoutStep(ps: seq<ClientId>, i: int, x: ClientId)
    requires 0 <= i < |ps|
    ensures Without(ps[..i + 1], x) == if ps[i] != x then Without(ps[..i], x) + [ps[i]] else Without(ps[..i], x)
  {
    assert ps[..i + 1][..i] == ps[..i];
  }

  lemma DeliveriesAppend(ps: seq<ClientId>, p: ClientId, m: ServerMessage)
    ensures Deliveries(ps + [p], m) == Deliveries(ps, m) + [Delivery(p, m)]
  {
    assert (ps + [p])[..|ps|] == ps;
  }

  lemma DeliveriesAddressed(s: seq<Delivery>, ps: seq<ClientId>, m: ServerMessage)
    ensures Addressed(s + Deliveries(ps, m), |s|, ps)
  {
    forall i | |s| <= i < |s + Deliveries(ps, m)|
      ensures (s + Deliveries(ps, m))[i].to in ps
    {
      DeliveriesAt(ps, m, i - |s|);
    }
  }

  /** Every delivery from position `from` on goes to one of `ps`. */
  ghost predicate Addressed(sent: seq<Delivery>, from: int, ps: seq<ClientId>) {
    forall i :: 0 <= from <= i < |sent| ==> sent[i].to in ps
  }

  lemma AddressedTrans(s0: seq<Delivery>, s1: seq<Delivery>, s2: seq<Delivery>, ps: seq<ClientId>)
    requires s0 <= s1 <= s2
    requires Addressed(s1, |s0|, ps) && Addressed(s2, |s1|, ps)
    ensures Addressed(s2, |s0|, ps)
  {
    forall i | |s0| <= i < |s2|
      ensures s2[i].to in ps
    {
      if i < |s1| {
        assert s2[i] == s1[i];
      }
    }
  }

  /**
   * The guess's own answer comes first among the new deliveries: a `GUESS_RESULT`
   * to the guesser with the attempt number, the seconds elapsed, whether it was
   * the word, and a letter result aligned with the guess that is the two-pass
   * Wordle feedback whenever the guess holds no blank.
   */
  ghost predicate GuessAnswered(before: seq<Delivery>, after: seq<Delivery>, client: ClientId,
                                word: string, target: string, attempts: int, elapsed: int)
  {
    var k := |before|;
    k < |after| && after[k].to == client && after[k].msg.GuessResult? &&
    after[k].msg.word == word && after[k].msg.isCorrect == (word == target) &&
    after[k].msg.attemptsUsed == attempts && after[k].msg.timeElapsed == elapsed &&
    |word| <= |target| && Aligned(word, target, after[k].msg.result) &&
    (Blank !in word ==> Feedback(word, target, after[k].msg.result))
  }

  lemma GuessAnsweredLater(before: seq<Delivery>, mid: seq<Delivery>, after: seq<Delivery>, client: ClientId,
                           word: string, target: string, attempts: int, elapsed: int)
    requires mid <= after
    requires GuessAnswered(before, mid, client, word, target, attempts, elapsed)
    ensures GuessAnswered(before, after, client, word, target, attempts, elapsed)
  {
    assert after[|before|] == mid[|before|];
  }

  /** A broadcast reaches each of its recipients, and no one else. */
  lemma DeliveriesReach(ps: seq<ClientId>, m: ServerMessage, e: Delivery)
    ensures e in Deliveries(ps, m) <==> e.to in ps && e.msg == m
  {
    if e in Deliveries(ps, m) {
      var i :| 0 <= i < |Deliveries(ps, m)| && Deliveries(ps, m)[i] == e;
      DeliveriesAt(ps, m, i);
    }
    if e.to in ps && e.msg == m {
      var i :| 0 <= i < |ps| && ps[i] == e.to;
      DeliveriesAt(ps, m, i);
    }
  }

  /**
   * Everything an accepted guess sends, in order: its answer `reply` to the
   * guesser, the players' status to every player of `ps`, and the guesser's
   * progress (`done` once correct or out of attempts) to every other player.
   */
  function GuessSends(b: Standings, ps: seq<ClientId>, client: ClientId, reply: ServerMessage,
                      attempts: int, done: bool): seq<Delivery>
  {
    [Delivery(client, reply)] +
    Deliveries(ps, PlayersStatus(Statuses(b, ps))) +
    Deliveries(Without(ps, client), OpponentUpdate(attempts, done))
  }

  /**
   * After a guess every other player hears the guesser's progress and the status
   * of all players, and a progress update never goes back to the guesser or to
   * anyone outside the game.
   */
  lemma OpponentsHearProgress(b: Standings, ps: seq<ClientId>, client: ClientId, reply: ServerMessage,
                              attempts: int, done: bool)
    requires reply.GuessResult?
    ensures forall d :: d in ps && d != client ==>
      Delivery(d, OpponentUpdate(attempts, done)) in GuessSends(b, ps, client, reply, attempts, done) &&
      Delivery(d, PlayersStatus(Statuses(b, ps))) in GuessSends(b, ps, client, reply, attempts, done)
    ensures forall e :: e in GuessSends(b, ps, client, reply, attempts, done) && e.msg.OpponentUpdate? ==>
      e.to in ps && e.to != client
  {
    var progress := OpponentUpdate(attempts, done);
    var status := PlayersStatus(Statuses(b, ps));
    var r := GuessSends(b, ps, client, reply, attempts, done);
    forall d | d in ps && d != client
      ensures Delivery(d, progress) in r && Delivery(d, status) in r
    {
      DeliveriesReach(Without(ps, client), progress, Delivery(d, progress));
      DeliveriesReach(ps, status, Delivery(d, status));
    }
    forall e | e in r && e.msg.OpponentUpdate?
      ensures e.to in ps && e.to != client
    {
      DeliveriesReach(ps, status, e);
      DeliveriesReach(Without(ps, client), progress, e);
    }
  }

  /** The records after `updateScore(PVP, …)` for entry `e`. */
  function Submit(r: TopScores.Records, e: RecordEntry): TopScores.Records {
    var table := TopScores.TableOf(r, PVP);
    TopScores.WithTable(r, PVP, table[e.wordLength := TopScores.Ranked(Get(table, e.wordLength, []), e)])
  }

  /** What that `updateScore` returns. */
  function IsNewRecord(r: TopScores.Records, e: RecordEntry): bool {
    var table := TopScores.TableOf(r, PVP);
    TopScores.Listed(TopScores.Ranked(Get(table, e.wordLength, []), e), e.playerName, e.score)
  }

  /** The per-player tallies of a game at one moment: names, totals, rounds won, and this round's attempts, finish flags and scores. */
  datatype Standings = Standings(
    names: map<ClientId, string>,
    totals: map<ClientId, int>,
    won: map<ClientId, int>,
    attempts: map<ClientId, int>,
    finished: map<ClientId, bool>,
    roundScores: map<ClientId, int>)

  function NameIn(b: Standings, p: ClientId): string {
    Get(b.names, p, UnknownName)
  }

  function ScoreOf(b: Standings, p: ClientId): PlayerScore {
    PlayerScore(NameIn(b, p), Get(b.totals, p, 0), Get(b.won, p, 0))
  }

  function Scores(b: Standings, ps: seq<ClientId>): (r: seq<PlayerScore>)
    ensures |r| == |ps|
  {
    if ps == [] then [] else Scores(b, ps[..|ps| - 1]) + [ScoreOf(b, ps[|ps| - 1])]
  }

  /** Each player's entry is their name, total and rounds won, in the order of `ps`. */
  lemma {:induction false} ScoresAt(b: Standings, ps: seq<ClientId>, i: int)
    requires 0 <= i < |ps|
    ensures Scores(b, ps)[i] == PlayerScore(NameIn(b, ps[i]), Get(b.totals, ps[i], 0), Get(b.won, ps[i], 0))
  {
    if i < |ps| - 1 {
      ScoresAt(b, ps[..|ps| - 1], i);
    }
  }

  /**
   * `buildRankings`: the scores of `ps` (name, total, rounds won) sorted by total,
   * highest first, built one player at a time as the stable sort does.
   */
  function Rankings(b: Standings, ps: seq<ClientId>): seq<PlayerScore> {
    if ps == [] then [] else InsertDesc(Rankings(b, ps[..|ps| - 1]), ScoreOf(b, ps[|ps| - 1]), ScoreKey)
  }

  lemma {:induction false} RankingsAreSortedScores(b: Standings, ps: seq<ClientId>)
    ensures Rankings(b, ps) == SortDesc(Scores(b, ps), ScoreKey)
  {
    if ps != [] {
      RankingsAreSortedScores(b, ps[..|ps| - 1]);
      assert Scores(b, ps)[..|ps| - 1] == Scores(b, ps[..|ps| - 1]);
    }
  }

  /** One entry per player, the same entries as their scores, ordered by total, highest first. */
  lemma RankingsSorted(b: Standings, ps: seq<ClientId>)
    ensures |Rankings(b, ps)| == |ps|
    ensures multiset(Rankings(b, ps)) == multiset(Scores(b, ps))
    ensures SortedDesc(Rankings(b, ps), ScoreKey)
  {
    RankingsAreSortedScores(b, ps);
    SortDescSortedPerm(Scores(b, ps), ScoreKey);
  }

  /** The sort is stable: players with equal totals keep their order in `ps`. */
  lemma RankingsStable(b: Standings, ps: seq<ClientId>, k: int)
    ensures WithKey(Rankings(b, ps), ScoreKey, k) == WithKey(Scores(b, ps), ScoreKey, k)
  {
    RankingsAreSortedScores(b, ps);
    SortDescStable(Scores(b, ps), ScoreKey, k);
  }

  /** `broadcastPlayersStatus`: each player's name, attempts, finish flag and total, in the order of `ps`. */
  function Statuses(b: Standings, ps: seq<ClientId>): (r: seq<PlayerRoundStatus>)
    ensures |r| == |ps|
  {
    if ps == [] then []
    else
      var p := ps[|ps| - 1];
      Statuses(b, ps[..|ps| - 1]) + [PlayerRoundStatus(NameIn(b, p), Get(b.attempts, p, 0), Get(b.finished, p, false), Get(b.totals, p, 0))]
  }

  lemma {:induction false} StatusesAt(b: Standings, ps: seq<ClientId>, i: int)
    requires 0 <= i < |ps|
    ensures Statuses(b, ps)[i] ==
      PlayerRoundStatus(NameIn(b, ps[i]), Get(b.attempts, ps[i], 0), Get(b.finished, ps[i], false), Get(b.totals, ps[i], 0))
  {
    if i < |ps| - 1 {
      StatusesAt(b, ps[..|ps| - 1], i);
    }
  }

  /**
   * The `PVP_ROUND_END` a player receives: won means a positive round score, and a
   * player with no attempt on record counts as having used them all.
   */
  function RoundEndMsg(b: Standings, round: int, word: string, maxAttempts: int, p: ClientId,
                       timeSeconds: int, rankings: seq<PlayerScore>): ServerMessage
  {
    PvpRoundEnd(round, Get(b.roundScores, p, 0) > 0, word, Get(b.attempts, p, maxAttempts), timeSeconds,
                Get(b.roundScores, p, 0), Get(b.totals, p, 0), rankings)
  }

  function RoundEnds(b: Standings, round: int, word: string, maxAttempts: int, ps: seq<ClientId>,
                     timeSeconds: int, rankings: seq<PlayerScore>): (ds: seq<Delivery>)
    ensures |ds| == |ps|
  {
    if ps == [] then []
    else
      RoundEnds(b, round, word, maxAttempts, ps[..|ps| - 1], timeSeconds, rankings) +
        [Delivery(ps[|ps| - 1], RoundEndMsg(b, round, word, maxAttempts, ps[|ps| - 1], timeSeconds, rankings))]
  }

  /** Each player gets their own round result, in the order of `ps`. */
  lemma {:induction false} RoundEndsAt(b: Standings, round: int, word: string, maxAttempts: int, ps: seq<ClientId>,
                                       timeSeconds: int, rankings: seq<PlayerScore>, i: int)
    requires 0 <= i < |ps|
    ensures RoundEnds(b, round, word, maxAttempts, ps, timeSeconds, rankings)[i] ==
      Delivery(ps[i], RoundEndMsg(b, round, word, maxAttempts, ps[i], timeSeconds, rankings))
  {
    if i < |ps| - 1 {
      RoundEndsAt(b, round, word, maxAttempts, ps[..|ps| - 1], timeSeconds, rankings, i);
    }
  }

  lemma RoundEndsAppend(b: Standings, round: int, word: string, maxAttempts: int, ps: seq<ClientId>, p: ClientId,
                        timeSeconds: int, rankings: seq<PlayerScore>)
    ensures RoundEnds(b, round, word, maxAttempts, ps + [p], timeSeconds, rankings) ==
      RoundEnds(b, round, word, maxAttempts, ps, timeSeconds, rankings) +
        [Delivery(p, RoundEndMsg(b, round, word, maxAttempts, p, timeSeconds, rankings))]
  {
    assert (ps + [p])[..|ps|] == ps;
  }

  /** A player's line in the PVP records: name, total, word length. */
  function EntryOf(b: Standings, wordLength: int, p: ClientId): RecordEntry {
    RecordEntry(NameIn(b, p), Get(b.totals, p, 0), wordLength)
  }

  /** The records after the totals of `ps` are submitted one after the other. */
  function RecordsAfter(r0: TopScores.Records, b: Standings, wordLength: int, ps: seq<ClientId>): TopScores.Records {
    if ps == [] then r0 else Submit(RecordsAfter(r0, b, wordLength, ps[..|ps| - 1]), EntryOf(b, wordLength, ps[|ps| - 1]))
  }

  lemma RecordsAfterAppend(r0: TopScores.Records, b: Standings, wordLength: int, ps: seq<ClientId>, p: ClientId)
    ensures RecordsAfter(r0, b, wordLength, ps + [p]) == Submit(RecordsAfter(r0, b, wordLength, ps), EntryOf(b, wordLength, p))
  {
    assert (ps + [p])[..|ps|] == ps;
  }

  /** The `PVP_GAME_END` a player gets once the players before them have been submitted. */
  function GameEndMsg(r0: TopScores.Records, b: Standings, wordLength: int, before: seq<ClientId>, p: ClientId,
                      rankings: seq<PlayerScore>): ServerMessage
  {
    PvpGameEnd(Get(b.totals, p, 0), rankings, IsNewRecord(RecordsAfter(r0, b, wordLength, before), EntryOf(b, wordLength, p)))
  }

  /** `endGame`'s messages to `ps`, whose totals are submitted in that order starting from records `r0`. */
  function GameEnds(r0: TopScores.Records, b: Standings, wordLength: int, ps: seq<ClientId>, rankings: seq<PlayerScore>): seq<Delivery> {
    if ps == [] then []
    else
      GameEnds(r0, b, wordLength, ps[..|ps| - 1], rankings) +
        [Delivery(ps[|ps| - 1], GameEndMsg(r0, b, wordLength, ps[..|ps| - 1], ps[|ps| - 1], rankings))]
  }

  lemma {:induction false} GameEndsLength(r0: TopScores.Records, b: Standings, wordLength: int, ps: seq<ClientId>,
                                          rankings: seq<PlayerScore>)
    ensures |GameEnds(r0, b, wordLength, ps, rankings)| == |ps|
  {
    if ps != [] {
      GameEndsLength(r0, b, wordLength, ps[..|ps| - 1], rankings);
    }
  }

  /**
   * One message per player, in list order: their own total, the common rankings,
   * and whether their submission, made after those of the players before them, made the table.
   */
  lemma {:induction false} GameEndsAt(r0: TopScores.Records, b: Standings, wordLength: int, ps: seq<ClientId>,
                                      rankings: seq<PlayerScore>, i: int)
    requires 0 <= i < |ps|
    ensures |GameEnds(r0, b, wordLength, ps, rankings)| == |ps|
    ensures GameEnds(r0, b, wordLength, ps, rankings)[i] == Delivery(ps[i], GameEndMsg(r0, b, wordLength, ps[..i], ps[i], rankings))
  {
    var init := ps[..|ps| - 1];
    var last := Delivery(ps[|ps| - 1], GameEndMsg(r0, b, wordLength, init, ps[|ps| - 1], rankings));
    var front := GameEnds(r0, b, wordLength, init, rankings);
    GameEndsLength(r0, b, wordLength, init, rankings);
    assert GameEnds(r0, b, wordLength, ps, rankings) == front + [last];
    if i < |ps| - 1 {
      GameEndsAt(r0, b, wordLength, init, rankings, i);
      assert init[..i] == ps[..i];
      assert (front + [last])[i] == front[i];
    } else {
      assert init == ps[..i];
      assert (front + [last])[i] == last;
    }
  }

  lemma GameEndsAppend(r0: TopScores.Records, b: Standings, wordLength: int, ps: seq<ClientId>, p: ClientId, rankings: seq<PlayerScore>)
    ensures GameEnds(r0, b, wordLength, ps + [p], rankings) ==
      GameEnds(r0, b, wordLength, ps, rankings) + [Delivery(p, GameEndMsg(r0, b, wordLength, ps, p, rankings))]
  {
    assert (ps + [p])[..|ps|] == ps;
  }

  /** One more submission, by the `i`-th player, moves the records from `ps[..i]` to `ps[..i + 1]`. */
  lemma EndGameRecordsStep(r0: TopScores.Records, b: Standings, wordLength: int, ps: seq<ClientId>, i: int)
    requires 0 <= i < |ps|
    ensures RecordsAfter(r0, b, wordLength, ps[..i + 1]) == Submit(RecordsAfter(r0, b, wordLength, ps[..i]), EntryOf(b, wordLength, ps[i]))
  {
    assert ps[..i + 1] == ps[..i] + [ps[i]];
    RecordsAfterAppend(r0, b, wordLength, ps[..i], ps[i]);
  }

  /** One more `PVP_GAME_END`, to the `i`-th player, extends what was sent for `ps[..i]`. */
  lemma EndGameSentStep(sent0: seq<Delivery>, r0: TopScores.Records, b: Standings, wordLength: int, ps: seq<ClientId>, i: int,
                        rankings: seq<PlayerScore>)
    requires 0 <= i < |ps|
    ensures sent0 + GameEnds(r0, b, wordLength, ps[..i + 1], rankings) ==
      sent0 + GameEnds(r0, b, wordLength, ps[..i], rankings) + [Delivery(ps[i], GameEndMsg(r0, b, wordLength, ps[..i], ps[i], rankings))]
  {
    assert ps[..i + 1] == ps[..i] + [ps[i]];
    GameEndsAppend(r0, b, wordLength, ps[..i], ps[i], rankings);
  }

  class PvpGame {
    const gameId: string
    const config: GameConfig
    const players: seq<ClientId>
    const playerNames: map<ClientId, string>
    const net: Network
    const dictionary: Dictionary.DictionaryManager
    const records: TopScores.RecordsManager

    var currentRound: int
    var totalScores: map<ClientId, int>
    var roundsWon: map<ClientId, int>
    var currentWord: Option<WordData>
    var roundStartTime: int
    var roundActive: bool
    var roundComplete: bool
    var gameAbandoned: bool
    var playerAttempts: map<ClientId, int>
    var playerFinished: map<ClientId, bool>
    var playerRoundScores: map<ClientId, int>
    var playerHintUsed: map<ClientId, bool>
    var activePlayers: seq<ClientId>
    var playersReady: set<ClientId>
    var waitingForReady: bool

    /**
     * An open round has a word, drawn from a dictionary that has words of the
     * game's length (so every later draw finds one too), and totals never go
     * negative.
     */
    ghost predicate Valid()
      reads this, dictionary
    {
      (roundActive ==> currentWord.Some? && dictionary.HasDictionaryFor(config.wordLength)) &&
      (forall p :: p in totalScores ==> totalScores[p] >= 0)
    }

    function Board(): Standings
      reads this
    {
      Standings(playerNames, totalScores, roundsWon, playerAttempts, playerFinished, playerRoundScores)
    }

    function Name(p: ClientId): string {
      Get(playerNames, p, UnknownName)
    }

    function Finished(p: ClientId): bool
      reads this
    {
      Get(playerFinished, p, false)
    }

    /** Every active player is done with the round. */
    predicate AllFinished()
      reads this
    {
      forall p :: p in activePlayers ==> Finished(p)
    }

    /** The waiting players have all confirmed. */
    predicate AllReady()
      reads this
    {
      forall p :: p in activePlayers ==> p in playersReady
    }

    function BuildRankings(): seq<PlayerScore>
      reads this
    {
      Rankings(Board(), activePlayers)
    }

    /** `init`: every player starts at zero and is active. */
    constructor (gameId: string, config: GameConfig, players: seq<ClientId>, playerNames: map<ClientId, string>,
                 net: Network, dictionary: Dictionary.DictionaryManager, records: TopScores.RecordsManager)
      ensures Valid()
      ensures this.gameId == gameId && this.config == config && this.players == players && this.playerNames == playerNames
      ensures this.net == net && this.dictionary == dictionary && this.records == records
      ensures forall p :: (p in totalScores <==> p in players) && (p in roundsWon <==> p in players)
      ensures forall p :: p in players ==> totalScores[p] == 0 && roundsWon[p] == 0
      ensures activePlayers == players && playersReady == {} && !waitingForReady
      ensures currentRound == 1 && currentWord == None && !roundActive && !roundComplete && !gameAbandoned
      ensures playerAttempts == map[] && playerFinished == map[] && playerRoundScores == map[] && playerHintUsed == map[]
    {
      var scores: map<ClientId, int> := map[];
      var won: map<ClientId, int> := map[];
      for i := 0 to |players|
        invariant forall p :: (p in scores <==> p in players[..i]) && (p in won <==> p in players[..i])
        invariant forall p :: p in scores ==> scores[p] == 0
        invariant forall p :: p in won ==> won[p] == 0
      {
        assert players[..i + 1] == players[..i] + [players[i]];
        scores := scores[players[i] := 0];
        won := won[players[i] := 0];
      }
      assert players[..|players|] == players;
      this.gameId := gameId;
      this.config := config;
      this.players := players;
      this.playerNames := playerNames;
      this.net := net;
      this.dictionary := dictionary;
      this.records := records;
      currentRound := 1;
      totalScores := scores;
      roundsWon := won;
      currentWord := None;
      roundStartTime := 0;
      roundActive := false;
      roundComplete := false;
      gameAbandoned := false;
      playerAttempts := map[];
      playerFinished := map[];
      playerRoundScores := map[];
      playerHintUsed := map[];
      activePlayers := players;
      playersReady := {};
      waitingForReady := false;
    }

    /** `broadcast`: the message goes to each active player, in list order. */
    method Broadcast(m: ServerMessage)
      modifies net
      ensures net.sent == old(net.sent) + Deliveries(activePlayers, m)
      ensures Addressed(net.sent, |old(net.sent)|, activePlayers)
    {
      var ps := activePlayers;
      for i := 0 to |ps|
        invariant net.sent == old(net.sent) + Deliveries(ps[..i], m)
      {
        assert ps[..i + 1] == ps[..i] + [ps[i]];
        DeliveriesAppend(ps[..i], ps[i], m);
        net.Send(ps[i], m);
      }
      assert ps[..|ps|] == ps;
      DeliveriesAddressed(old(net.sent), ps, m);
    }

    /** `broadcastExcept`: every active player but `exclude`. */
    method BroadcastExcept(exclude: ClientId, m: ServerMessage)
      modifies net
      ensures net.sent == old(net.sent) + Deliveries(Without(activePlayers, exclude), m)
      ensures Addressed(net.sent, |old(net.sent)|, activePlayers)
    {
      var ps := activePlayers;
      for i := 0 to |ps|
        invariant net.sent == old(net.sent) + Deliveries(Without(ps[..i], exclude), m)
      {
        WithoutStep(ps, i, exclude);
        if ps[i] != exclude {
          var sofar := Deliveries(Without(ps[..i], exclude), m);
          DeliveriesAppend(Without(ps[..i], exclude), ps[i], m);
          assert old(net.sent) + sofar + [Delivery(ps[i], m)] == old(net.sent) + (sofar + [Delivery(ps[i], m)]);
          net.Send(ps[i], m);
        }
      }
      assert ps[..|ps|] == ps;
      DeliveriesAddressed(old(net.sent), Without(ps, exclude), m);
      forall k | |old(net.sent)| <= k < |net.sent|
        ensures net.sent[k].to in ps
      {
        assert net.sent[k].to in Without(ps, exclude);
      }
    }

    /**
     * One iteration of `start`'s round loop: it stops (`proceed` false) once the
     * game is abandoned or has no active player; otherwise round `roundIndex + 1`
     * is played. The loop only moves on once the previous round is complete,
     * which a departure can declare while the ready barrier of the round before
     * still stands. The barrier is then left as it is, and when it later falls it
     * completes the new round too, so the next one may be played while the round
     * before is still open; that open round is simply replaced.
     */
    method BeginRound(roundIndex: int, pick: nat, now: int) returns (proceed: bool)
      requires Valid()
      modifies this, net
      ensures Valid()
      ensures proceed == (!old(gameAbandoned) && old(activePlayers) != [])
      ensures !proceed ==> unchanged(this) && net.sent == old(net.sent)
      ensures proceed ==> currentRound == roundIndex + 1 && currentWord == dictionary.GetRandomWord(config.wordLength, pick)
      ensures proceed && currentWord.Some? ==> roundActive && !roundComplete && roundStartTime == now && FreshRound()
      ensures proceed && currentWord.None? ==>
        !roundActive && net.sent == old(net.sent) + Deliveries(activePlayers, Error(NO_WORDS))
      ensures activePlayers == old(activePlayers) && totalScores == old(totalScores) && roundsWon == old(roundsWon)
      ensures waitingForReady == old(waitingForReady) && playersReady == old(playersReady)
      ensures old(net.sent) <= net.sent && Addressed(net.sent, |old(net.sent)|, activePlayers)
    {
      if gameAbandoned || activePlayers == [] {
        return false;
      }
      currentRound := roundIndex + 1;
      PlayRound(pick, now);
      return true;
    }

    /** Every active player, and only they, start the round with no attempt, unfinished, no score and no hint. */
    ghost predicate FreshRound()
      reads this
    {
      forall p ::
        (p in playerAttempts <==> p in activePlayers) && (p in playerFinished <==> p in activePlayers) &&
        (p in playerRoundScores <==> p in activePlayers) && (p in playerHintUsed <==> p in activePlayers) &&
        (p in activePlayers ==> playerAttempts[p] == 0 && !playerFinished[p] && playerRoundScores[p] == 0 && !playerHintUsed[p])
    }

    /** `playRound` up to the wait: draw the word, reset the round state of the active players, announce the round, open it. */
    method PlayRound(pick: nat, now: int)
      requires Valid()
      modifies this, net
      ensures Valid()
      ensures currentWord == dictionary.GetRandomWord(config.wordLength, pick)
      ensures currentWord.Some? ==> roundActive && !roundComplete && roundStartTime == now && FreshRound()
      ensures currentWord.None? ==>
        !roundActive && net.sent == old(net.sent) + Deliveries(activePlayers, Error(NO_WORDS)) &&
        playerAttempts == old(playerAttempts) && playerFinished == old(playerFinished)
      ensures activePlayers == old(activePlayers) && totalScores == old(totalScores) && roundsWon == old(roundsWon)
      ensures currentRound == old(currentRound) && gameAbandoned == old(gameAbandoned)
      ensures waitingForReady == old(waitingForReady) && playersReady == old(playersReady)
      ensures old(net.sent) <= net.sent && Addressed(net.sent, |old(net.sent)|, activePlayers)
    {
      currentWord := dictionary.GetRandomWord(config.wordLength, pick);
      if currentWord.None? {
        Broadcast(Error(NO_WORDS));
        return;
      }
      ResetRound();
      AnnounceRound();
      OpenRound(now);
    }

    /** The round opens at `now`; guesses are accepted from here on. */
    method OpenRound(now: int)
      requires Valid() && currentWord.Some? && dictionary.HasDictionaryFor(config.wordLength)
      modifies this
      ensures Valid()
      ensures roundActive && !roundComplete && roundStartTime == now
      ensures playerAttempts == old(playerAttempts) && playerFinished == old(playerFinished)
      ensures playerRoundScores == old(playerRoundScores) && playerHintUsed == old(playerHintUsed)
      ensures activePlayers == old(activePlayers) && totalScores == old(totalScores) && roundsWon == old(roundsWon)
      ensures currentWord == old(currentWord) && currentRound == old(currentRound)
      ensures gameAbandoned == old(gameAbandoned)
      ensures waitingForReady == old(waitingForReady) && playersReady == old(playersReady)
    {
      roundStartTime := now;
      roundActive := true;
      roundComplete := false;
    }

    /** The `GAME_STARTED` and players' status broadcasts that open a round. */
    method AnnounceRound()
      modifies net
      ensures net.sent == old(net.sent) +
        Deliveries(activePlayers, GameStarted(gameId, PVP, config.rounds, currentRound, config.wordLength, config.maxAttempts)) +
        Deliveries(activePlayers, PlayersStatus(Statuses(Board(), activePlayers)))
      ensures Addressed(net.sent, |old(net.sent)|, activePlayers)
    {
      Broadcast(GameStarted(gameId, PVP, config.rounds, currentRound, config.wordLength, config.maxAttempts));
      var mid := net.sent;
      Broadcast(PlayersStatus(Statuses(Board(), activePlayers)));
      AddressedTrans(old(net.sent), mid, net.sent, activePlayers);
    }

    /** The clear-and-fill loop of `playRound`. */
    method ResetRound()
      modifies this
      ensures FreshRound()
      ensures activePlayers == old(activePlayers) && totalScores == old(totalScores) && roundsWon == old(roundsWon)
      ensures currentWord == old(currentWord) && roundActive == old(roundActive) && waitingForReady == old(waitingForReady)
      ensures currentRound == old(currentRound) && gameAbandoned == old(gameAbandoned) && playersReady == old(playersReady)
    {
      var ps := activePlayers;
      playerAttempts := map[];
      playerFinished := map[];
      playerRoundScores := map[];
      playerHintUsed := map[];
      for i := 0 to |ps|
        invariant forall p ::
          (p in playerAttempts <==> p in ps[..i]) && (p in playerFinished <==> p in ps[..i]) &&
          (p in playerRoundScores <==> p in ps[..i]) && (p in playerHintUsed <==> p in ps[..i]) &&
          (p in ps[..i] ==> playerAttempts[p] == 0 && !playerFinished[p] && playerRoundScores[p] == 0 && !playerHintUsed[p])
        invariant activePlayers == ps && totalScores == old(totalScores) && roundsWon == old(roundsWon)
        invariant currentWord == old(currentWord) && roundActive == old(roundActive) && waitingForReady == old(waitingForReady)
        invariant currentRound == old(currentRound) && gameAbandoned == old(gameAbandoned) && playersReady == old(playersReady)
      {
        var p := ps[i];
        assert ps[..i + 1] == ps[..i] + [ps[i]];
        playerAttempts := playerAttempts[p := 0];
        playerFinished := playerFinished[p := false];
        playerRoundScores := playerRoundScores[p := 0];
        playerHintUsed := playerHintUsed[p := false];
      }
      assert ps[..|ps|] == ps;
    }

    /**
     * A player's guess. A player who is done, or a guess outside an open round, gets
     * ROUND_NOT_ACTIVE; then the length (INVALID_LENGTH) and the dictionary
     * (INVALID_WORD) are checked; a rejected guess changes nothing.
     */
    method HandleGuess(client: ClientId, rawWord: string, now: int)
      requires Valid()
      modifies this, net
      ensures Valid()
      ensures !old(roundActive) || old(Finished(client)) ==>
        unchanged(this) && net.sent == old(net.sent) + [Delivery(client, Error(ROUND_NOT_ACTIVE))]
      ensures var word := Dictionary.NormalizeWord(dictionary.normalizer, rawWord);
        old(roundActive) && !old(Finished(client)) && |word| != config.wordLength ==>
          unchanged(this) && net.sent == old(net.sent) + [Delivery(client, Error(INVALID_LENGTH))]
      ensures var word := Dictionary.NormalizeWord(dictionary.normalizer, rawWord);
        old(roundActive) && !old(Finished(client)) && |word| == config.wordLength && !dictionary.IsValidWord(word, config.wordLength) ==>
          unchanged(this) && net.sent == old(net.sent) + [Delivery(client, Error(INVALID_WORD))]
      ensures var word := Dictionary.NormalizeWord(dictionary.normalizer, rawWord);
        old(roundActive) && !old(Finished(client)) && |word| == config.wordLength && dictionary.IsValidWord(word, config.wordLength) ==>
          playerAttempts == old(playerAttempts)[client := Get(old(playerAttempts), client, 0) + 1]
      ensures activePlayers == old(activePlayers) && playerHintUsed == old(playerHintUsed) && currentWord == old(currentWord)
      ensures forall p :: p != client ==> Get(totalScores, p, 0) == Get(old(totalScores), p, 0) && Finished(p) == old(Finished(p))
      ensures old(roundActive) && !roundActive ==> AllFinished()
      ensures old(net.sent) <= net.sent && Addressed(net.sent, |old(net.sent)|, activePlayers + [client])
    {
      var word := Dictionary.NormalizeWord(dictionary.normalizer, rawWord);
      if !roundActive || Finished(client) {
        net.Send(client, Error(ROUND_NOT_ACTIVE));
        return;
      }
      if |word| != config.wordLength {
        net.Send(client, Error(INVALID_LENGTH));
        return;
      }
      if !dictionary.IsValidWord(word, config.wordLength) {
        net.Send(client, Error(INVALID_WORD));
        return;
      }
      ScoreGuess(client, word, now);
    }

    /**
     * An accepted guess: the attempt is counted for that player alone and answered
     * with its letter feedback; the others learn the player's progress. A correct
     * guess finishes the player with the round score (same formula and hint
     * penalty as PVE) added to their total and one more round won; using the last
     * attempt finishes them with 0. A target shorter than the guess makes the
     * comparison throw after the attempt was counted.
     */
    method ScoreGuess(client: ClientId, word: string, now: int)
      requires Valid() && roundActive && !Finished(client)
      modifies this, net
      ensures Valid()
      ensures playerAttempts == old(playerAttempts)[client := Get(old(playerAttempts), client, 0) + 1]
      ensures currentWord == old(currentWord) && activePlayers == old(activePlayers) && playerHintUsed == old(playerHintUsed)
      ensures currentRound == old(currentRound) && gameAbandoned == old(gameAbandoned) && roundStartTime == old(roundStartTime)
      ensures var attempts := Get(old(playerAttempts), client, 0) + 1;
        var target := old(currentWord).value.palabra;
        |word| <= |target| ==>
          GuessAnswered(old(net.sent), net.sent, client, word, target, attempts, DivTrunc(now - old(roundStartTime), 1000))
      ensures var attempts := Get(old(playerAttempts), client, 0) + 1;
        var target := old(currentWord).value.palabra;
        var elapsed := DivTrunc(now - old(roundStartTime), 1000);
        |word| <= |target| ==>
          var board := Standings(playerNames, old(totalScores), old(roundsWon), playerAttempts, old(playerFinished), old(playerRoundScores));
          var announced := old(net.sent) +
            GuessSends(board, activePlayers, client, net.sent[|old(net.sent)|].msg, attempts, word == target || attempts >= config.maxAttempts);
          (roundActive ==> net.sent == announced) &&
          (!roundActive ==> currentWord.Some? && net.sent == announced + RoundClosing(elapsed))
      ensures var target := old(currentWord).value.palabra;
        |word| > |target| ==> net.sent == old(net.sent)
      ensures var attempts := Get(old(playerAttempts), client, 0) + 1;
        var target := old(currentWord).value.palabra;
        var score := RoundScore(true, attempts, DivTrunc(now - old(roundStartTime), 1000), Get(old(playerHintUsed), client, false));
        |word| <= |target| && word == target ==>
          playerFinished == old(playerFinished)[client := true] &&
          playerRoundScores == old(playerRoundScores)[client := score] &&
          totalScores == old(totalScores)[client := Get(old(totalScores), client, 0) + score] &&
          roundsWon == old(roundsWon)[client := Get(old(roundsWon), client, 0) + 1]
      ensures var attempts := Get(old(playerAttempts), client, 0) + 1;
        var target := old(currentWord).value.palabra;
        |word| <= |target| && word != target && attempts >= config.maxAttempts ==>
          playerFinished == old(playerFinished)[client := true] &&
          playerRoundScores == old(playerRoundScores)[client := 0] &&
          totalScores == old(totalScores) && roundsWon == old(roundsWon)
      ensures var attempts := Get(old(playerAttempts), client, 0) + 1;
        var target := old(currentWord).value.palabra;
        |word| > |target| || (word != target && attempts < config.maxAttempts) ==>
          roundActive && playerFinished == old(playerFinished) && playerRoundScores == old(playerRoundScores) &&
          totalScores == old(totalScores) && roundsWon == old(roundsWon)
      ensures roundActive ==>
        playersReady == old(playersReady) && waitingForReady == old(waitingForReady) && roundComplete == old(roundComplete)
      ensures !roundActive ==>
        AllFinished() &&
        (waitingForReady <==> currentRound < config.rounds && |activePlayers| > 1) &&
        (waitingForReady ==> playersReady == {}) &&
        (!waitingForReady ==> playersReady == old(playersReady) && roundComplete)
      ensures Finished(client) ==> (roundActive <==> !AllFinished())
      ensures old(net.sent) <= net.sent && Addressed(net.sent, |old(net.sent)|, activePlayers + [client])
    {
      var attempts := Get(playerAttempts, client, 0) + 1;
      playerAttempts := playerAttempts[client := attempts];
      var timeElapsed := DivTrunc(now - roundStartTime, 1000);
      var target := currentWord.value.palabra;
      if |word| > |target| {
        return;
      }
      ResolveGuess(client, word, target, attempts, timeElapsed);
    }

    /**
     * A counted guess of fitting length is answered and announced; a correct
     * guess or the last attempt then finishes the player, which may end the round.
     */
    method ResolveGuess(client: ClientId, word: string, target: string, attempts: int, elapsed: int)
      requires Valid() && roundActive && !Finished(client) && |word| <= |target|
      modifies this, net
      ensures Valid()
      ensures playerAttempts == old(playerAttempts) && playerHintUsed == old(playerHintUsed)
      ensures currentWord == old(currentWord) && activePlayers == old(activePlayers)
      ensures currentRound == old(currentRound) && gameAbandoned == old(gameAbandoned) && roundStartTime == old(roundStartTime)
      ensures GuessAnswered(old(net.sent), net.sent, client, word, target, attempts, elapsed)
      ensures var announced := old(net.sent) +
          GuessSends(old(Board()), activePlayers, client, net.sent[|old(net.sent)|].msg, attempts, word == target || attempts >= config.maxAttempts);
        (roundActive ==> net.sent == announced) &&
        (!roundActive ==> currentWord.Some? && net.sent == announced + RoundClosing(elapsed))
      ensures var score := RoundScore(true, attempts, elapsed, Get(old(playerHintUsed), client, false));
        word == target ==>
          playerFinished == old(playerFinished)[client := true] &&
          playerRoundScores == old(playerRoundScores)[client := score] &&
          totalScores == old(totalScores)[client := Get(old(totalScores), client, 0) + score] &&
          roundsWon == old(roundsWon)[client := Get(old(roundsWon), client, 0) + 1]
      ensures word != target && attempts >= config.maxAttempts ==>
        playerFinished == old(playerFinished)[client := true] &&
        playerRoundScores == old(playerRoundScores)[client := 0] &&
        totalScores == old(totalScores) && roundsWon == old(roundsWon)
      ensures word != target && attempts < config.maxAttempts ==>
        roundActive && playerFinished == old(playerFinished) && playerRoundScores == old(playerRoundScores) &&
        totalScores == old(totalScores) && roundsWon == old(roundsWon)
      ensures roundActive ==>
        playersReady == old(playersReady) && waitingForReady == old(waitingForReady) && roundComplete == old(roundComplete)
      ensures !roundActive ==>
        AllFinished() &&
        (waitingForReady <==> currentRound < config.rounds && |activePlayers| > 1) &&
        (waitingForReady ==> playersReady == {}) &&
        (!waitingForReady ==> playersReady == old(playersReady) && roundComplete)
      ensures Finished(client) ==> (roundActive <==> !AllFinished())
      ensures old(net.sent) <= net.sent && Addressed(net.sent, |old(net.sent)|, activePlayers + [client])
    {
      AnswerGuess(client, word, target, attempts, elapsed);
      var s1 := net.sent;
      if word == target {
        Settle(client, RoundScore(true, attempts, elapsed, Get(playerHintUsed, client, false)), true, elapsed);
      } else if attempts >= config.maxAttempts {
        Settle(client, 0, false, elapsed);
      }
      AddressedTrans(old(net.sent), s1, net.sent, activePlayers + [client]);
      GuessAnsweredLater(old(net.sent), s1, net.sent, client, word, target, attempts, elapsed);
    }

    /** The letter feedback for an accepted guess, and its announcement. */
    method AnswerGuess(client: ClientId, word: string, target: string, attempts: int, timeElapsed: int)
      requires |word| <= |target|
      modifies net
      ensures GuessAnswered(old(net.sent), net.sent, client, word, target, attempts, timeElapsed)
      ensures net.sent == old(net.sent) +
        GuessSends(Board(), activePlayers, client, net.sent[|old(net.sent)|].msg, attempts, word == target || attempts >= config.maxAttempts)
      ensures old(net.sent) <= net.sent && Addressed(net.sent, |old(net.sent)|, activePlayers + [client])
    {
      var result := CompareWords(word, target);
      var isCorrect := word == target;
      AnnounceGuess(client, GuessResult(word, result, isCorrect, attempts, timeElapsed),
                    OpponentUpdate(attempts, isCorrect || attempts >= config.maxAttempts));
    }

    /** The answer to the guesser, the players' status to all, and the guesser's progress to the others. */
    method AnnounceGuess(client: ClientId, reply: ServerMessage, progress: ServerMessage)
      modifies net
      ensures net.sent == old(net.sent) + [Delivery(client, reply)] +
        Deliveries(activePlayers, PlayersStatus(Statuses(Board(), activePlayers))) +
        Deliveries(Without(activePlayers, client), progress)
      ensures Addressed(net.sent, |old(net.sent)|, activePlayers + [client])
    {
      net.Send(client, reply);
      var s1 := net.sent;
      Broadcast(PlayersStatus(Statuses(Board(), activePlayers)));
      var s2 := net.sent;
      BroadcastExcept(client, progress);
      AddressedTrans(s1, s2, net.sent, activePlayers + [client]);
      AddressedTrans(old(net.sent), s1, net.sent, activePlayers + [client]);
    }

    /** The player is done with the round with `score` (a win also adds it to the total and counts the round); the round may now end. */
    method Settle(client: ClientId, score: int, won: bool, timeElapsed: int)
      requires Valid() && roundActive && score >= 0
      modifies this, net
      ensures Valid()
      ensures playerFinished == old(playerFinished)[client := true]
      ensures playerRoundScores == old(playerRoundScores)[client := score]
      ensures won ==>
        totalScores == old(totalScores)[client := Get(old(totalScores), client, 0) + score] &&
        roundsWon == old(roundsWon)[client := Get(old(roundsWon), client, 0) + 1]
      ensures !won ==> totalScores == old(totalScores) && roundsWon == old(roundsWon)
      ensures roundActive <==> !AllFinished()
      ensures playerAttempts == old(playerAttempts) && playerHintUsed == old(playerHintUsed)
      ensures activePlayers == old(activePlayers) && currentWord == old(currentWord) && roundStartTime == old(roundStartTime)
      ensures currentRound == old(currentRound) && gameAbandoned == old(gameAbandoned)
      ensures roundActive ==>
        net.sent == old(net.sent) && playersReady == old(playersReady) &&
        waitingForReady == old(waitingForReady) && roundComplete == old(roundComplete)
      ensures !roundActive ==>
        currentWord.Some? && net.sent == old(net.sent) + RoundClosing(timeElapsed) &&
        (waitingForReady <==> currentRound < config.rounds && |activePlayers| > 1) &&
        (waitingForReady ==> playersReady == {}) &&
        (!waitingForReady ==> playersReady == old(playersReady) && roundComplete)
      ensures old(net.sent) <= net.sent && Addressed(net.sent, |old(net.sent)|, activePlayers)
    {
      MarkFinished(client, score, won);
      CheckRoundEnd(timeElapsed);
    }

    /** The player's round score is recorded and they count as finished; a win also adds it to the total and counts the round. */
    method MarkFinished(client: ClientId, score: int, won: bool)
      requires Valid() && score >= 0
      modifies this
      ensures Valid()
      ensures playerFinished == old(playerFinished)[client := true]
      ensures playerRoundScores == old(playerRoundScores)[client := score]
      ensures won ==>
        totalScores == old(totalScores)[client := Get(old(totalScores), client, 0) + score] &&
        roundsWon == old(roundsWon)[client := Get(old(roundsWon), client, 0) + 1]
      ensures !won ==> totalScores == old(totalScores) && roundsWon == old(roundsWon)
      ensures roundActive == old(roundActive) && playersReady == old(playersReady)
      ensures waitingForReady == old(waitingForReady) && roundComplete == old(roundComplete)
      ensures playerAttempts == old(playerAttempts) && playerHintUsed == old(playerHintUsed)
      ensures activePlayers == old(activePlayers) && currentWord == old(currentWord) && roundStartTime == old(roundStartTime)
      ensures currentRound == old(currentRound) && gameAbandoned == old(gameAbandoned)
    {
      playerRoundScores := playerRoundScores[client := score];
      playerFinished := playerFinished[client := true];
      if won {
        totalScores := totalScores[client := Get(totalScores, client, 0) + score];
        roundsWon := roundsWon[client := Get(roundsWon, client, 0) + 1];
      }
    }

    /**
     * What the end of a round sends: each active player's own result with the
     * rankings, then, when rounds remain and more than one player is active, the
     * barrier's `0/total` to each of them.
     */
    function RoundClosing(timeSeconds: int): seq<Delivery>
      reads this
      requires currentWord.Some?
    {
      RoundEnds(Board(), currentRound, currentWord.value.palabra, config.maxAttempts, activePlayers, timeSeconds, BuildRankings()) +
      (if currentRound < config.rounds && |activePlayers| > 1 then Deliveries(activePlayers, WaitingForPlayers(0, |activePlayers|)) else [])
    }

    /** `checkRoundEnd`: the round ends exactly when every active player is finished. */
    method CheckRoundEnd(timeElapsed: int)
      requires Valid() && roundActive
      modifies this, net
      ensures Valid()
      ensures roundActive <==> !AllFinished()
      ensures !AllFinished() ==> unchanged(this) && net.sent == old(net.sent)
      ensures playerAttempts == old(playerAttempts) && playerFinished == old(playerFinished)
      ensures playerRoundScores == old(playerRoundScores) && playerHintUsed == old(playerHintUsed)
      ensures totalScores == old(totalScores) && roundsWon == old(roundsWon)
      ensures activePlayers == old(activePlayers) && currentWord == old(currentWord) && currentRound == old(currentRound)
      ensures roundStartTime == old(roundStartTime) && gameAbandoned == old(gameAbandoned)
      ensures AllFinished() ==> (waitingForReady <==> currentRound < config.rounds && |activePlayers| > 1)
      ensures AllFinished() && waitingForReady ==> playersReady == {}
      ensures AllFinished() && !waitingForReady ==> playersReady == old(playersReady) && roundComplete
      ensures AllFinished() ==> currentWord.Some? && net.sent == old(net.sent) + RoundClosing(timeElapsed)
      ensures old(net.sent) <= net.sent && Addressed(net.sent, |old(net.sent)|, activePlayers)
    {
      if AllFinished() {
        EndRound(timeElapsed);
      }
    }

    /**
     * `endRound`: the round closes and every active player gets their own result
     * with the rankings. The barrier between rounds is set up exactly when rounds
     * remain and more than one player is active; otherwise the round is complete.
     */
    method EndRound(timeSeconds: int)
      requires Valid() && currentWord.Some?
      modifies this, net
      ensures Valid()
      ensures currentWord == old(currentWord) && activePlayers == old(activePlayers) && currentRound == old(currentRound)
      ensures !roundActive
      ensures waitingForReady <==> currentRound < config.rounds && |activePlayers| > 1
      ensures waitingForReady ==>
        playersReady == {} && roundComplete == old(roundComplete) &&
        net.sent == old(net.sent) + RoundEnds(Board(), currentRound, currentWord.value.palabra, config.maxAttempts, activePlayers, timeSeconds, BuildRankings()) +
          Deliveries(activePlayers, WaitingForPlayers(0, |activePlayers|))
      ensures !waitingForReady ==>
        roundComplete && playersReady == old(playersReady) &&
        net.sent == old(net.sent) + RoundEnds(Board(), currentRound, currentWord.value.palabra, config.maxAttempts, activePlayers, timeSeconds, BuildRankings())
      ensures playerAttempts == old(playerAttempts) && playerFinished == old(playerFinished)
      ensures playerRoundScores == old(playerRoundScores) && playerHintUsed == old(playerHintUsed)
      ensures totalScores == old(totalScores) && roundsWon == old(roundsWon)
      ensures gameAbandoned == old(gameAbandoned) && roundStartTime == old(roundStartTime)
      ensures old(net.sent) <= net.sent && Addressed(net.sent, |old(net.sent)|, activePlayers)
    {
      roundActive := false;
      SendRoundEnds(timeSeconds);
      if currentRound < config.rounds && |activePlayers| > 1 {
        var mid := net.sent;
        AwaitReady();
        AddressedTrans(old(net.sent), mid, net.sent, activePlayers);
      } else {
        CompleteRound();
      }
    }

    /** The barrier between rounds goes up: nobody is ready yet, and everyone is told `0/total`. */
    method AwaitReady()
      requires Valid() && !roundActive
      modifies this, net
      ensures Valid()
      ensures playersReady == {} && waitingForReady
      ensures net.sent == old(net.sent) + Deliveries(activePlayers, WaitingForPlayers(0, |activePlayers|))
      ensures Addressed(net.sent, |old(net.sent)|, activePlayers)
      ensures roundComplete == old(roundComplete) && roundActive == old(roundActive)
      ensures playerAttempts == old(playerAttempts) && playerFinished == old(playerFinished)
      ensures playerRoundScores == old(playerRoundScores) && playerHintUsed == old(playerHintUsed)
      ensures activePlayers == old(activePlayers) && totalScores == old(totalScores) && roundsWon == old(roundsWon)
      ensures currentWord == old(currentWord) && currentRound == old(currentRound)
      ensures gameAbandoned == old(gameAbandoned) && roundStartTime == old(roundStartTime)
    {
      playersReady := {};
      waitingForReady := true;
      Broadcast(WaitingForPlayers(0, |activePlayers|));
    }

    /** No barrier (or it was released): the round is complete and the round loop may go on. */
    method CompleteRound()
      requires Valid()
      modifies this
      ensures Valid()
      ensures !waitingForReady && roundComplete
      ensures roundActive == old(roundActive) && playersReady == old(playersReady)
      ensures playerAttempts == old(playerAttempts) && playerFinished == old(playerFinished)
      ensures playerRoundScores == old(playerRoundScores) && playerHintUsed == old(playerHintUsed)
      ensures activePlayers == old(activePlayers) && totalScores == old(totalScores) && roundsWon == old(roundsWon)
      ensures currentWord == old(currentWord) && currentRound == old(currentRound)
      ensures gameAbandoned == old(gameAbandoned) && roundStartTime == old(roundStartTime)
    {
      waitingForReady := false;
      roundComplete := true;
    }

    /** Each active player's `PVP_ROUND_END`, in list order. */
    method SendRoundEnds(timeSeconds: int)
      requires currentWord.Some?
      modifies net
      ensures net.sent == old(net.sent) + RoundEnds(Board(), currentRound, currentWord.value.palabra, config.maxAttempts, activePlayers, timeSeconds, BuildRankings())
      ensures Addressed(net.sent, |old(net.sent)|, activePlayers)
    {
      var ps := activePlayers;
      var b := Board();
      var word := currentWord.value.palabra;
      var rankings := BuildRankings();
      for i := 0 to |ps|
        invariant net.sent == old(net.sent) + RoundEnds(b, currentRound, word, config.maxAttempts, ps[..i], timeSeconds, rankings)
      {
        var p := ps[i];
        assert ps[..i + 1] == ps[..i] + [ps[i]];
        RoundEndsAppend(b, currentRound, word, config.maxAttempts, ps[..i], p, timeSeconds, rankings);
        net.Send(p, RoundEndMsg(b, currentRound, word, config.maxAttempts, p, timeSeconds, rankings));
      }
      assert ps[..|ps|] == ps;
      forall k | |old(net.sent)| <= k < |net.sent|
        ensures net.sent[k].to in ps
      {
        RoundEndsAt(b, currentRound, word, config.maxAttempts, ps, timeSeconds, rankings, k - |old(net.sent)|);
      }
    }

    /** The unfinished active players are finished with a round score of 0. */
    method FinishUnfinished()
      modifies this
      ensures forall p :: p in activePlayers ==> Finished(p)
      ensures forall p :: p in activePlayers && !old(Finished(p)) ==> p in playerRoundScores && playerRoundScores[p] == 0
      ensures forall p :: (p !in activePlayers || old(Finished(p))) ==>
        (p in playerFinished <==> p in old(playerFinished)) && (p in playerFinished ==> playerFinished[p] == old(playerFinished)[p]) &&
        (p in playerRoundScores <==> p in old(playerRoundScores)) && (p in playerRoundScores ==> playerRoundScores[p] == old(playerRoundScores)[p])
      ensures playerAttempts == old(playerAttempts) && playerHintUsed == old(playerHintUsed)
      ensures totalScores == old(totalScores) && roundsWon == old(roundsWon) && activePlayers == old(activePlayers)
      ensures currentWord == old(currentWord) && roundActive == old(roundActive) && waitingForReady == old(waitingForReady)
      ensures currentRound == old(currentRound) && gameAbandoned == old(gameAbandoned) && playersReady == old(playersReady)
      ensures roundComplete == old(roundComplete) && roundStartTime == old(roundStartTime)
    {
      var ps := activePlayers;
      var finished := playerFinished;
      var scores := playerRoundScores;
      for i := 0 to |ps|
        invariant unchanged(this)
        invariant forall p :: p in ps[..i] ==> Get(finished, p, false)
        invariant forall p :: p in ps[..i] && !Finished(p) ==> p in scores && scores[p] == 0
        invariant forall p :: (p !in ps[..i] || Finished(p)) ==>
          (p in finished <==> p in playerFinished) && (p in finished ==> finished[p] == playerFinished[p]) &&
          (p in scores <==> p in playerRoundScores) && (p in scores ==> scores[p] == playerRoundScores[p])
      {
        var p := ps[i];
        assert ps[..i + 1] == ps[..i] + [ps[i]];
        if !Get(finished, p, false) {
          scores := scores[p := 0];
          finished := finished[p := true];
        }
      }
      assert ps[..|ps|] == ps;
      playerFinished := finished;
      playerRoundScores := scores;
    }

    /** The round timer fired: an open round finishes every unfinished active player with 0 and ends. */
    method HandleTimeout()
      requires Valid()
      modifies this, net
      ensures Valid()
      ensures !old(roundActive) ==> unchanged(this) && net.sent == old(net.sent)
      ensures old(roundActive) ==>
        !roundActive && AllFinished() &&
        (forall p :: p in activePlayers && !old(Finished(p)) ==> Get(playerRoundScores, p, 0) == 0) &&
        totalScores == old(totalScores) && roundsWon == old(roundsWon)
      ensures forall p :: (p !in activePlayers || old(Finished(p))) ==>
        (p in playerFinished <==> p in old(playerFinished)) && (p in playerFinished ==> playerFinished[p] == old(playerFinished)[p]) &&
        (p in playerRoundScores <==> p in old(playerRoundScores)) && (p in playerRoundScores ==> playerRoundScores[p] == old(playerRoundScores)[p])
      ensures old(roundActive) ==>
        (waitingForReady <==> currentRound < config.rounds && |activePlayers| > 1) &&
        (waitingForReady ==> playersReady == {} && roundComplete == old(roundComplete)) &&
        (!waitingForReady ==> roundComplete && playersReady == old(playersReady))
      ensures activePlayers == old(activePlayers) && currentRound == old(currentRound) && currentWord == old(currentWord)
      ensures playerAttempts == old(playerAttempts) && playerHintUsed == old(playerHintUsed)
      ensures gameAbandoned == old(gameAbandoned) && roundStartTime == old(roundStartTime)
      ensures old(net.sent) <= net.sent && Addressed(net.sent, |old(net.sent)|, activePlayers)
    {
      if !roundActive {
        return;
      }
      FinishUnfinished();
      EndRound(config.timeoutSeconds);
    }

    /**
     * A hint for one player, once per round: ROUND_NOT_ACTIVE for a finished player
     * or outside an open round, HINT_ALREADY_USED the second time; nothing else changes then.
     */
    method HandleRequestHint(client: ClientId)
      requires Valid()
      modifies this, net
      ensures Valid()
      ensures !old(roundActive) || old(Finished(client)) ==>
        unchanged(this) && net.sent == old(net.sent) + [Delivery(client, Error(ROUND_NOT_ACTIVE))]
      ensures old(roundActive) && !old(Finished(client)) && Get(old(playerHintUsed), client, false) ==>
        unchanged(this) && net.sent == old(net.sent) + [Delivery(client, Error(HINT_ALREADY_USED))]
      ensures old(roundActive) && !old(Finished(client)) && !Get(old(playerHintUsed), client, false) ==>
        playerHintUsed == old(playerHintUsed)[client := true] && roundActive &&
        net.sent == old(net.sent) + [Delivery(client, HintResponse(currentWord.value.pista))]
      ensures playerAttempts == old(playerAttempts) && playerFinished == old(playerFinished)
      ensures totalScores == old(totalScores) && currentWord == old(currentWord)
      ensures roundsWon == old(roundsWon) && activePlayers == old(activePlayers) && playerRoundScores == old(playerRoundScores)
      ensures playersReady == old(playersReady) && waitingForReady == old(waitingForReady) && roundComplete == old(roundComplete)
      ensures currentRound == old(currentRound) && gameAbandoned == old(gameAbandoned) && roundStartTime == old(roundStartTime)
    {
      if !roundActive || Finished(client) {
        net.Send(client, Error(ROUND_NOT_ACTIVE));
        return;
      }
      if Get(playerHintUsed, client, false) {
        net.Send(client, Error(HINT_ALREADY_USED));
        return;
      }
      var hint := currentWord.value.pista;
      playerHintUsed := playerHintUsed[client := true];
      net.Send(client, HintResponse(hint));
    }

    /**
     * A player confirms they are ready for the next round. Ignored unless the game
     * waits between rounds; otherwise everyone learns the count, and the wait ends
     * (and with it the round) once every active player is ready.
     */
    method PlayerReady(client: ClientId)
      requires Valid()
      modifies this, net
      ensures Valid()
      ensures !old(waitingForReady) ==> unchanged(this) && net.sent == old(net.sent)
      ensures old(waitingForReady) ==>
        playersReady == old(playersReady) + {client} &&
        net.sent == old(net.sent) + Deliveries(activePlayers, WaitingForPlayers(|playersReady|, |activePlayers|)) &&
        (waitingForReady <==> !AllReady()) && (!waitingForReady ==> roundComplete) &&
        (waitingForReady ==> roundComplete == old(roundComplete))
      ensures activePlayers == old(activePlayers) && roundActive == old(roundActive)
      ensures totalScores == old(totalScores) && roundsWon == old(roundsWon)
      ensures playerAttempts == old(playerAttempts) && playerFinished == old(playerFinished)
      ensures playerRoundScores == old(playerRoundScores) && playerHintUsed == old(playerHintUsed)
      ensures currentWord == old(currentWord) && currentRound == old(currentRound)
      ensures gameAbandoned == old(gameAbandoned) && roundStartTime == old(roundStartTime)
    {
      if !waitingForReady {
        return;
      }
      playersReady := playersReady + {client};
      Broadcast(WaitingForPlayers(|playersReady|, |activePlayers|));
      if AllReady() {
        waitingForReady := false;
        roundComplete := true;
      }
    }

    /** The 15-second timer of the barrier: the wait ends anyway. */
    method ReadyTimeout()
      requires Valid()
      modifies this
      ensures Valid()
      ensures !waitingForReady
      ensures old(waitingForReady) ==> roundComplete
      ensures !old(waitingForReady) ==> unchanged(this)
      ensures roundActive == old(roundActive) && playersReady == old(playersReady)
      ensures activePlayers == old(activePlayers) && totalScores == old(totalScores) && roundsWon == old(roundsWon)
      ensures playerAttempts == old(playerAttempts) && playerFinished == old(playerFinished)
      ensures playerRoundScores == old(playerRoundScores) && playerHintUsed == old(playerHintUsed)
      ensures currentWord == old(currentWord) && currentRound == old(currentRound)
      ensures gameAbandoned == old(gameAbandoned) && roundStartTime == old(roundStartTime)
    {
      if waitingForReady {
        waitingForReady := false;
        roundComplete := true;
      }
    }

    /** The bookkeeping part of `removePlayer`. */
    method DropPlayer(client: ClientId)
      requires Valid()
      modifies this
      ensures Valid()
      ensures activePlayers == Rooms.RemoveFirst(old(activePlayers), client)
      ensures playersReady == old(playersReady) - {client}
      ensures playerFinished == old(playerFinished)[client := true]
      ensures var release := old(waitingForReady) && activePlayers != [] && AllReady();
        waitingForReady == (old(waitingForReady) && !release) && roundComplete == (old(roundComplete) || release)
      ensures totalScores == old(totalScores) && roundsWon == old(roundsWon) && roundActive == old(roundActive)
      ensures currentWord == old(currentWord) && roundStartTime == old(roundStartTime) && gameAbandoned == old(gameAbandoned)
      ensures currentRound == old(currentRound) && playerAttempts == old(playerAttempts)
      ensures playerRoundScores == old(playerRoundScores) && playerHintUsed == old(playerHintUsed)
    {
      activePlayers := Rooms.RemoveFirst(activePlayers, client);
      playersReady := playersReady - {client};
      playerFinished := playerFinished[client := true];
      if waitingForReady && activePlayers != [] && AllReady() {
        waitingForReady := false;
        roundComplete := true;
      }
    }

    /**
     * A player leaves (abandons or disconnects): they leave the active list and the
     * ready set and count as finished; the others are told. With at most one player
     * left the round stops, and a last remaining player gets the end of the game
     * (the round loop itself still goes on); otherwise an open round may now be
     * over. The barrier is released when every remaining player is ready.
     */
    method RemovePlayer(client: ClientId, now: int)
      requires Valid()
      modifies this, net, records
      ensures Valid()
      ensures activePlayers == Rooms.RemoveFirst(old(activePlayers), client)
      ensures var ended := |activePlayers| > 1 && old(roundActive) && !roundActive;
        (!ended ==> playersReady == old(playersReady) - {client}) &&
        (ended ==> (waitingForReady <==> currentRound < config.rounds) &&
                   (waitingForReady ==> playersReady == {}) &&
                   (!waitingForReady ==> playersReady == old(playersReady) - {client} && roundComplete))
      ensures var ended := |activePlayers| > 1 && old(roundActive) && !roundActive;
        var release := old(waitingForReady) && activePlayers != [] && AllReady();
        (!ended ==> waitingForReady == (old(waitingForReady) && !release)) &&
        (!ended && |activePlayers| > 1 ==> roundComplete == (old(roundComplete) || release))
      ensures Finished(client) && playerFinished == old(playerFinished)[client := true]
      ensures currentRound == old(currentRound) && currentWord == old(currentWord)
      ensures gameAbandoned == old(gameAbandoned) && roundStartTime == old(roundStartTime)
      ensures playerAttempts == old(playerAttempts) && playerRoundScores == old(playerRoundScores) && playerHintUsed == old(playerHintUsed)
      ensures |activePlayers| <= 1 ==> !roundActive && roundComplete
      ensures old(waitingForReady) && activePlayers != [] && AllReady() ==> !waitingForReady
      ensures |activePlayers| > 1 && old(roundActive) ==> (roundActive <==> !AllFinished())
      ensures |activePlayers| != 1 ==> records.records == old(records.records)
      ensures |activePlayers| == 1 ==> records.records == RecordsAfter(old(records.records), Board(), config.wordLength, activePlayers)
      ensures totalScores == old(totalScores) && roundsWon == old(roundsWon)
      ensures old(net.sent) <= net.sent && Addressed(net.sent, |old(net.sent)|, activePlayers)
    {
      var name := Name(client);
      DropPlayer(client);
      var s0 := net.sent;
      Broadcast(PlayerLeft(name));
      var s1 := net.sent;
      CloseAfterDeparture(now);
      if |activePlayers| > 1 && old(roundActive) && !roundActive && waitingForReady {
        assert activePlayers[0] !in playersReady;
      }
      AddressedTrans(s0, s1, net.sent, activePlayers);
    }

    /**
     * What follows a departure once the others have been told: with at most one
     * player left the round stops (and a last player gets the end of the game);
     * otherwise an open round ends if everyone left has finished.
     */
    method CloseAfterDeparture(now: int)
      requires Valid()
      modifies this, net, records
      ensures Valid()
      ensures activePlayers == old(activePlayers) && playerFinished == old(playerFinished)
      ensures currentRound == old(currentRound) && currentWord == old(currentWord)
      ensures gameAbandoned == old(gameAbandoned) && roundStartTime == old(roundStartTime)
      ensures playerAttempts == old(playerAttempts) && playerRoundScores == old(playerRoundScores) && playerHintUsed == old(playerHintUsed)
      ensures totalScores == old(totalScores) && roundsWon == old(roundsWon)
      ensures |activePlayers| <= 1 ==> !roundActive && roundComplete
      ensures var ended := |activePlayers| > 1 && old(roundActive) && !roundActive;
        (!ended ==> playersReady == old(playersReady) && waitingForReady == old(waitingForReady)) &&
        (!ended && |activePlayers| > 1 ==> roundComplete == old(roundComplete)) &&
        (ended ==> (waitingForReady <==> currentRound < config.rounds) &&
                   (waitingForReady ==> playersReady == {}) &&
                   (!waitingForReady ==> playersReady == old(playersReady) && roundComplete))
      ensures |activePlayers| > 1 && old(roundActive) ==> (roundActive <==> !AllFinished())
      ensures |activePlayers| != 1 ==> records.records == old(records.records)
      ensures |activePlayers| == 1 ==> records.records == RecordsAfter(old(records.records), Board(), config.wordLength, activePlayers)
      ensures old(net.sent) <= net.sent && Addressed(net.sent, |old(net.sent)|, activePlayers)
    {
      if |activePlayers| <= 1 {
        StopRound();
        if |activePlayers| == 1 {
          EndGame();
        }
      } else if roundActive {
        CheckRoundEnd(DivTrunc(now - roundStartTime, 1000));
      }
    }

    /** The round stops for good: no guess is accepted and the round loop may go on. */
    method StopRound()
      requires Valid()
      modifies this
      ensures Valid()
      ensures !roundActive && roundComplete
      ensures waitingForReady == old(waitingForReady) && playersReady == old(playersReady)
      ensures playerAttempts == old(playerAttempts) && playerFinished == old(playerFinished)
      ensures playerRoundScores == old(playerRoundScores) && playerHintUsed == old(playerHintUsed)
      ensures activePlayers == old(activePlayers) && totalScores == old(totalScores) && roundsWon == old(roundsWon)
      ensures currentWord == old(currentWord) && currentRound == old(currentRound) && gameAbandoned == old(gameAbandoned)
      ensures roundStartTime == old(roundStartTime)
    {
      roundActive := false;
      roundComplete := true;
    }

    /** Ends the game at once; nothing is recorded. */
    method Abandon()
      requires Valid()
      modifies this
      ensures Valid()
      ensures gameAbandoned && !roundActive && roundComplete
      ensures activePlayers == old(activePlayers) && totalScores == old(totalScores) && roundsWon == old(roundsWon)
      ensures waitingForReady == old(waitingForReady) && playersReady == old(playersReady)
      ensures playerAttempts == old(playerAttempts) && playerFinished == old(playerFinished)
      ensures playerRoundScores == old(playerRoundScores) && playerHintUsed == old(playerHintUsed)
      ensures currentWord == old(currentWord) && currentRound == old(currentRound) && roundStartTime == old(roundStartTime)
    {
      gameAbandoned := true;
      roundActive := false;
      roundComplete := true;
    }

    /** After the round loop: the game ends normally unless it was abandoned or nobody is left. */
    method Finish()
      requires Valid()
      modifies net, records
      ensures old(gameAbandoned) || activePlayers == [] ==> net.sent == old(net.sent) && records.records == old(records.records)
      ensures !old(gameAbandoned) && activePlayers != [] ==>
        records.records == RecordsAfter(old(records.records), Board(), config.wordLength, activePlayers) &&
        net.sent == old(net.sent) + GameEnds(old(records.records), Board(), config.wordLength, activePlayers, BuildRankings())
    {
      if !gameAbandoned && activePlayers != [] {
        EndGame();
      }
    }

    /** `updateScore(PVP, …)` for one player, who then gets the final rankings and whether they made the table. */
    method SubmitAndAnnounce(p: ClientId, rankings: seq<PlayerScore>)
      modifies net, records
      ensures records.records == Submit(old(records.records), EntryOf(Board(), config.wordLength, p))
      ensures net.sent == old(net.sent) +
        [Delivery(p, PvpGameEnd(Get(totalScores, p, 0), rankings, IsNewRecord(old(records.records), EntryOf(Board(), config.wordLength, p))))]
    {
      var isNewRecord := records.UpdateScore(PVP, Name(p), Get(totalScores, p, 0), config.wordLength);
      net.Send(p, PvpGameEnd(Get(totalScores, p, 0), rankings, isNewRecord));
    }

    /**
     * `endGame`: each active player's total is submitted to the PVP records of the
     * word length, in list order, and the player gets the final rankings and
     * whether their own submission made the table.
     */
    method EndGame()
      modifies net, records
      ensures records.records == RecordsAfter(old(records.records), Board(), config.wordLength, activePlayers)
      ensures net.sent == old(net.sent) + GameEnds(old(records.records), Board(), config.wordLength, activePlayers, BuildRankings())
    {
      var ps := activePlayers;
      var r0 := records.records;
      var rankings := BuildRankings();
      for i := 0 to |ps|
        invariant records.records == RecordsAfter(r0, Board(), config.wordLength, ps[..i])
        invariant net.sent == old(net.sent) + GameEnds(r0, Board(), config.wordLength, ps[..i], rankings)
      {
        EndGameStep(old(net.sent), r0, ps, i, rankings);
      }
      assert ps[..|ps|] == ps;
    }

    /** One iteration of `endGame`'s loop: the `i`-th player's submission and `PVP_GAME_END`. */
    method EndGameStep(ghost sent0: seq<Delivery>, ghost r0: TopScores.Records, ps: seq<ClientId>, i: int, rankings: seq<PlayerScore>)
      requires 0 <= i < |ps|
      requires records.records == RecordsAfter(r0, Board(), config.wordLength, ps[..i])
      requires net.sent == sent0 + GameEnds(r0, Board(), config.wordLength, ps[..i], rankings)
      modifies net, records
      ensures records.records == RecordsAfter(r0, Board(), config.wordLength, ps[..i + 1])
      ensures net.sent == sent0 + GameEnds(r0, Board(), config.wordLength, ps[..i + 1], rankings)
    {
      var b := Board();
      var wl := config.wordLength;
      EndGameRecordsStep(r0, b, wl, ps, i);
      EndGameSentStep(sent0, r0, b, wl, ps, i, rankings);
      SubmitAndAnnounce(ps[i], rankings);
    }
  }
}
