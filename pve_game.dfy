/*
 * PVEGame.kt: one player's classic game of several rounds against the server's
 * dictionary. The coroutine that drives `start` is replaced by explicit events:
 * `BeginRound` (one iteration of the round loop, up to the wait for the round to
 * end), the player's `HandleGuess` / `HandleRequestHint`, `HandleTimeout` (the
 * timer firing), `Abandon`, and `Finish` (after the last round). The clock is the
 * parameter `now` (milliseconds) and the random draw of a word the parameter `pick`.
 */
module PveGames {
  import opened Protocol
  import opened Scoring
  import Dictionary
  import TopScores

  class PveGame {
    const gameId: string
    const config: GameConfig
    /** The player's connection (`clientHandler`). */
    const client: ClientId
    const net: Network
    const dictionary: Dictionary.DictionaryManager
    const records: TopScores.RecordsManager
    const playerName: string

    var currentRound: int
    var totalScore: int
    var roundsWon: int
    var currentWord: Option<WordData>
    var roundStartTime: int
    var currentAttempts: int
    var roundActive: bool
    var gameAbandoned: bool
    var roundHintUsed: bool

    /** An active round always has a word; the counters never go negative. */
    ghost predicate Valid()
      reads this
    {
      (roundActive ==> currentWord.Some?) &&
      totalScore >= 0 && roundsWon >= 0 && currentAttempts >= 0
    }

    constructor (gameId: string, config: GameConfig, client: ClientId, net: Network,
                 dictionary: Dictionary.DictionaryManager, records: TopScores.RecordsManager, playerName: string)
      ensures Valid()
      ensures this.gameId == gameId && this.config == config && this.client == client && this.net == net
      ensures this.dictionary == dictionary && this.records == records && this.playerName == playerName
      ensures currentRound == 1 && totalScore == 0 && roundsWon == 0 && currentWord == None
      ensures roundStartTime == 0 && currentAttempts == 0
      ensures !roundActive && !gameAbandoned && !roundHintUsed
    {
      this.gameId := gameId;
      this.config := config;
      this.client := client;
      this.net := net;
      this.dictionary := dictionary;
      this.records := records;
      this.playerName := playerName;
      currentRound := 1;
      totalScore := 0;
      roundsWon := 0;
      currentWord := None;
      roundStartTime := 0;
      currentAttempts := 0;
      roundActive := false;
      gameAbandoned := false;
      roundHintUsed := false;
    }

    function IsAbandoned(): (b: bool)
      reads this
      ensures b == gameAbandoned
    {
      gameAbandoned
    }

    /** The guess as the server compares it: normalised like dictionary words. */
    function Normalized(rawWord: string): string {
      Dictionary.NormalizeWord(dictionary.normalizer, rawWord)
    }

    /**
     * One iteration of `start`'s round loop: an abandoned game stops the loop
     * (`proceed` false, nothing changes); otherwise round `roundIndex + 1` draws its
     * word and, if there is one, announces the round and opens it with fresh
     * counters. With no word of the configured length the player gets NO_WORDS and
     * the round never opens. The loop only moves on once the previous round closed.
     */
    method BeginRound(roundIndex: int, pick: nat, now: int) returns (proceed: bool)
      requires Valid() && !roundActive
      modifies this, net
      ensures Valid()
      ensures proceed == !old(gameAbandoned)
      ensures !proceed ==> unchanged(this) && net.sent == old(net.sent)
      ensures proceed ==> currentRound == roundIndex + 1 && currentWord == dictionary.GetRandomWord(config.wordLength, pick)
      ensures proceed && currentWord.None? ==>
        net.sent == old(net.sent) + [Delivery(client, Error(NO_WORDS))] && !roundActive &&
        currentAttempts == old(currentAttempts) && roundHintUsed == old(roundHintUsed) && roundStartTime == old(roundStartTime)
      ensures proceed && currentWord.Some? ==>
        net.sent == old(net.sent) + [Delivery(client, GameStarted(gameId, PVE, config.rounds, roundIndex + 1, config.wordLength, config.maxAttempts))] &&
        roundActive && currentAttempts == 0 && !roundHintUsed && roundStartTime == now
      ensures totalScore == old(totalScore) && roundsWon == old(roundsWon) && gameAbandoned == old(gameAbandoned)
    {
      if gameAbandoned {
        return false;
      }
      currentRound := roundIndex + 1;
      PlayRound(pick, now);
      return true;
    }

    /** `playRound` up to the wait: draw the word, announce the round, open it. */
    method PlayRound(pick: nat, now: int)
      requires Valid() && !roundActive
      modifies this, net
      ensures Valid()
      ensures currentWord == dictionary.GetRandomWord(config.wordLength, pick)
      ensures currentWord.None? ==>
        net.sent == old(net.sent) + [Delivery(client, Error(NO_WORDS))] && !roundActive &&
        currentAttempts == old(currentAttempts) && roundHintUsed == old(roundHintUsed) && roundStartTime == old(roundStartTime)
      ensures currentWord.Some? ==>
        net.sent == old(net.sent) + [Delivery(client, GameStarted(gameId, PVE, config.rounds, currentRound, config.wordLength, config.maxAttempts))] &&
        roundActive && currentAttempts == 0 && !roundHintUsed && roundStartTime == now
      ensures currentRound == old(currentRound) && totalScore == old(totalScore) && roundsWon == old(roundsWon)
      ensures gameAbandoned == old(gameAbandoned)
    {
      currentWord := dictionary.GetRandomWord(config.wordLength, pick);
      if currentWord.None? {
        net.Send(client, Error(NO_WORDS));
        return;
      }
      net.Send(client, GameStarted(gameId, PVE, config.rounds, currentRound, config.wordLength, config.maxAttempts));
      roundStartTime := now;
      currentAttempts := 0;
      roundActive := true;
      roundHintUsed := false;
    }

    /**
     * A guess, checked in this order: an open round (ROUND_NOT_ACTIVE), the length
     * (INVALID_LENGTH), the dictionary (INVALID_WORD); a rejected guess costs no
     * attempt and changes nothing. An accepted one counts an attempt and is
     * answered with its letter feedback; it wins the round when it is the word and
     * loses it when it used the last attempt. A target shorter than the guess makes
     * the comparison throw: the attempt stays counted and nothing is sent.
     */
    method HandleGuess(rawWord: string, now: int)
      requires Valid()
      modifies this, net
      ensures Valid()
      ensures !old(roundActive) ==> unchanged(this) && net.sent == old(net.sent) + [Delivery(client, Error(ROUND_NOT_ACTIVE))]
      ensures var word := Normalized(rawWord);
        old(roundActive) && |word| != config.wordLength ==>
          unchanged(this) && net.sent == old(net.sent) + [Delivery(client, Error(INVALID_LENGTH))]
      ensures var word := Normalized(rawWord);
        old(roundActive) && |word| == config.wordLength && !dictionary.IsValidWord(word, config.wordLength) ==>
          unchanged(this) && net.sent == old(net.sent) + [Delivery(client, Error(INVALID_WORD))]
      ensures var word := Normalized(rawWord);
        old(roundActive) && |word| == config.wordLength && dictionary.IsValidWord(word, config.wordLength) ==>
          currentAttempts == old(currentAttempts) + 1 && currentWord == old(currentWord) &&
          roundHintUsed == old(roundHintUsed) && gameAbandoned == old(gameAbandoned) && currentRound == old(currentRound)
      ensures var word := Normalized(rawWord);
        old(roundActive) && |word| == config.wordLength && dictionary.IsValidWord(word, config.wordLength) &&
        |word| > |old(currentWord).value.palabra| ==>
          net.sent == old(net.sent) && roundActive && totalScore == old(totalScore) && roundsWon == old(roundsWon)
      ensures var word := Normalized(rawWord);
        old(roundActive) && |word| == config.wordLength && dictionary.IsValidWord(word, config.wordLength) &&
        |word| <= |old(currentWord).value.palabra| ==>
          var target := old(currentWord).value.palabra;
          var k := |old(net.sent)|; var elapsed := DivTrunc(now - roundStartTime, 1000);
          k < |net.sent| && net.sent[..k] == old(net.sent) && net.sent[k].to == client &&
          net.sent[k].msg.GuessResult? && net.sent[k].msg.word == word &&
          net.sent[k].msg.isCorrect == (word == target) && net.sent[k].msg.attemptsUsed == currentAttempts &&
          net.sent[k].msg.timeElapsed == elapsed &&
          Aligned(word, target, net.sent[k].msg.result) &&
          (Blank !in word ==> Feedback(word, target, net.sent[k].msg.result)) &&
          (word == target ==>
            !roundActive && roundsWon == old(roundsWon) + 1 &&
            totalScore == old(totalScore) + RoundScore(true, currentAttempts, elapsed, roundHintUsed) &&
            |net.sent| == k + 2 && net.sent[k + 1] == Delivery(client, RoundEnd(currentRound, true, target, currentAttempts, elapsed,
              RoundScore(true, currentAttempts, elapsed, roundHintUsed), totalScore))) &&
          (word != target && currentAttempts >= config.maxAttempts ==>
            !roundActive && roundsWon == old(roundsWon) && totalScore == old(totalScore) &&
            |net.sent| == k + 2 && net.sent[k + 1] == Delivery(client, RoundEnd(currentRound, false, target, currentAttempts, elapsed, 0, totalScore))) &&
          (word != target && currentAttempts < config.maxAttempts ==>
            roundActive && roundsWon == old(roundsWon) && totalScore == old(totalScore) && |net.sent| == k + 1)
    {
      var word := Normalized(rawWord);
      if !roundActive {
        net.Send(client, Error(ROUND_NOT_ACTIVE));
        return;
      }
      if |word| != config.wordLength {
        net.Send(client, Error(INVALID_LENGTH));
        return;
      }
      if !dictionary.IsValidWord(word, config.wordLength) {
        net.Send(client, Error(INVALID_WORD));
        return;
      }
      currentAttempts := currentAttempts + 1;
      var timeElapsed := DivTrunc(now - roundStartTime, 1000);
      var target := currentWord.value.palabra;
      if |word| > |target| {
        return;
      }
      var result := CompareWords(word, target);
      var isCorrect := word == target;
      net.Send(client, GuessResult(word, result, isCorrect, currentAttempts, timeElapsed));
      if isCorrect {
        EndRound(true, timeElapsed);
      } else if currentAttempts >= config.maxAttempts {
        EndRound(false, timeElapsed);
      }
    }

    /**
     * `endRound`: the round closes, its score (see `RoundScore`) is added to the
     * total, a win is counted, and the player is told the word and the scores.
     */
    method EndRound(won: bool, timeSeconds: int)
      requires Valid() && currentWord.Some?
      modifies this, net
      ensures Valid()
      ensures !roundActive
      ensures totalScore == old(totalScore) + RoundScore(won, currentAttempts, timeSeconds, roundHintUsed)
      ensures totalScore >= old(totalScore)
      ensures roundsWon == old(roundsWon) + (if won then 1 else 0)
      ensures currentWord == old(currentWord)
      ensures net.sent == old(net.sent) + [Delivery(client, RoundEnd(currentRound, won, currentWord.value.palabra, currentAttempts,
        timeSeconds, RoundScore(won, currentAttempts, timeSeconds, roundHintUsed), totalScore))]
      ensures currentRound == old(currentRound) && currentAttempts == old(currentAttempts)
      ensures roundStartTime == old(roundStartTime) && gameAbandoned == old(gameAbandoned) && roundHintUsed == old(roundHintUsed)
    {
      roundActive := false;
      var roundScore := RoundScore(won, currentAttempts, timeSeconds, roundHintUsed);
      totalScore := totalScore + roundScore;
      if won {
        roundsWon := roundsWon + 1;
      }
      net.Send(client, RoundEnd(currentRound, won, currentWord.value.palabra, currentAttempts, timeSeconds, roundScore, totalScore));
    }

    /** The round timer fired: an open round is lost, with the configured time as its duration. */
    method HandleTimeout()
      requires Valid()
      modifies this, net
      ensures Valid()
      ensures !old(roundActive) ==> unchanged(this) && net.sent == old(net.sent)
      ensures currentWord == old(currentWord)
      ensures old(roundActive) ==>
        !roundActive && totalScore == old(totalScore) && roundsWon == old(roundsWon) &&
        net.sent == old(net.sent) + [Delivery(client, RoundEnd(currentRound, false, currentWord.value.palabra, currentAttempts,
          config.timeoutSeconds, 0, totalScore))]
    {
      if !roundActive {
        return;
      }
      EndRound(false, config.timeoutSeconds);
    }

    /**
     * A hint, at most once per open round: ROUND_NOT_ACTIVE or HINT_ALREADY_USED
     * otherwise, with nothing changed. The hint itself costs 1000 points at the
     * end of the round (see `RoundScore`).
     */
    method HandleRequestHint()
      requires Valid()
      modifies this, net
      ensures Valid()
      ensures !old(roundActive) ==> unchanged(this) && net.sent == old(net.sent) + [Delivery(client, Error(ROUND_NOT_ACTIVE))]
      ensures old(roundActive) && old(roundHintUsed) ==>
        unchanged(this) && net.sent == old(net.sent) + [Delivery(client, Error(HINT_ALREADY_USED))]
      ensures old(roundActive) && !old(roundHintUsed) ==>
        roundHintUsed && roundActive && currentAttempts == old(currentAttempts) && totalScore == old(totalScore) &&
        net.sent == old(net.sent) + [Delivery(client, HintResponse(currentWord.value.pista))]
      ensures currentWord == old(currentWord) && roundsWon == old(roundsWon) && gameAbandoned == old(gameAbandoned)
    {
      if !roundActive {
        net.Send(client, Error(ROUND_NOT_ACTIVE));
        return;
      }
      if roundHintUsed {
        net.Send(client, Error(HINT_ALREADY_USED));
        return;
      }
      var hint := currentWord.value.pista;
      roundHintUsed := true;
      net.Send(client, HintResponse(hint));
    }

    /** The player leaves: the game is marked abandoned, any open round closes, and no score is kept. */
    method Abandon()
      requires Valid()
      modifies this, net
      ensures Valid()
      ensures gameAbandoned && !roundActive
      ensures totalScore == old(totalScore) && roundsWon == old(roundsWon) && currentAttempts == old(currentAttempts)
      ensures net.sent == old(net.sent) + [Delivery(client, GameAbandoned)]
    {
      gameAbandoned := true;
      roundActive := false;
      net.Send(client, GameAbandoned);
    }

    /**
     * After the round loop: unless the game was abandoned, `endGame` reports the
     * final score, and submits it to the PVE records of the word length only when
     * the configuration keeps records.
     */
    method Finish()
      requires Valid()
      modifies this, net, records
      ensures Valid() && unchanged(this)
      ensures old(gameAbandoned) ==> net.sent == old(net.sent) && unchanged(records)
      ensures !old(gameAbandoned) && !config.saveRecords ==>
        unchanged(records) && net.sent == old(net.sent) + [Delivery(client, GameEnd(PVE, totalScore, roundsWon, config.rounds, false))]
      ensures !old(gameAbandoned) && config.saveRecords ==>
        var top := TopScores.Ranked(Get(TopScores.TableOf(old(records.records), PVE), config.wordLength, []),
                                    RecordEntry(playerName, totalScore, config.wordLength));
        records.records == TopScores.WithTable(old(records.records), PVE, TopScores.TableOf(old(records.records), PVE)[config.wordLength := top]) &&
        net.sent == old(net.sent) + [Delivery(client, GameEnd(PVE, totalScore, roundsWon, config.rounds, TopScores.Listed(top, playerName, totalScore)))]
    {
      if !gameAbandoned {
        EndGame();
      }
    }

    method EndGame()
      requires Valid()
      modifies net, records
      ensures !config.saveRecords ==>
        unchanged(records) && net.sent == old(net.sent) + [Delivery(client, GameEnd(PVE, totalScore, roundsWon, config.rounds, false))]
      ensures config.saveRecords ==>
        var top := TopScores.Ranked(Get(TopScores.TableOf(old(records.records), PVE), config.wordLength, []),
                                    RecordEntry(playerName, totalScore, config.wordLength));
        records.records == TopScores.WithTable(old(records.records), PVE, TopScores.TableOf(old(records.records), PVE)[config.wordLength := top]) &&
        net.sent == old(net.sent) + [Delivery(client, GameEnd(PVE, totalScore, roundsWon, config.rounds, TopScores.Listed(top, playerName, totalScore)))]
    {
      var isNewRecord := false;
      if config.saveRecords {
        isNewRecord := records.UpdateScore(PVE, playerName, totalScore, config.wordLength);
      }
      net.Send(client, GameEnd(PVE, totalScore, roundsWon, config.rounds, isNewRecord));
    }
  }
}
