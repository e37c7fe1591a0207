/*
 * The client's game view-model (GameViewModel.kt). The UI state is one
 * immutable record that every event replaces with an updated copy; next to
 * it the view-model keeps whether a guess is in flight and a GAME_STARTED
 * held back while a round result is on screen. What the view-model sends
 * to the server is appended to `outbox`; whether a send failed is a
 * parameter. The round timer is not part of this model.
 */
module ClientGame {
  import opened Protocol

  /** What the error banner shows. */
  datatype UiError =
    | WrongLength(wordLength: int)
    | NoActiveGame
    | SendFailed
    | ServerError(code: ErrorCode)

  /**
   * How sending a guess ends: the send succeeds, it returns a failure, or an
   * exception is raised before the message goes out.
   */
  datatype SendOutcome = Sent | Failed | Raised

  /** The requests the view-model sends, with their payloads. */
  datatype ClientRequest =
    | Guess(word: string, attemptNumber: int)
    | ReadyNextRound
    | RequestHint
    | AbandonGame
    | LeaveRoom
    | GetRecords

  /** `GameUiState`. */
  datatype UiState = UiState(
    isConnected: bool,
    isInGame: bool,
    playerName: string,
    mode: Option<GameMode>,
    currentRound: int,
    totalRounds: int,
    wordLength: int,
    maxAttempts: int,
    attempts: seq<seq<LetterResult>>,
    currentInput: string,
    usedLetters: map<char, LetterStatus>,
    timeRemaining: int,
    score: int,
    roundScore: int,
    roundsWon: int,
    correctWord: Option<string>,
    showingRoundResult: bool,
    gameEnded: bool,
    gameAbandoned: bool,
    finalScore: int,
    isNewRecord: bool,
    error: Option<UiError>,
    pveRecordsByLength: map<int, seq<RecordEntry>>,
    pvpRecordsByLength: map<int, seq<RecordEntry>>,
    rooms: seq<RoomInfo>,
    currentRoomId: Option<string>,
    roomPlayers: seq<string>,
    roomHostName: Option<string>,
    isHost: bool,
    pvpRankings: seq<PlayerScore>,
    pvpPlayersStatus: seq<PlayerRoundStatus>,
    waitingForPlayers: bool,
    readyCount: int,
    totalPlayerCount: int,
    readyForNextRound: bool,
    showInvalidWordDialog: bool,
    hintText: Option<string>,
    hintUsed: bool)

  /** The seconds a round lasts on the client's clock. */
  const RoundSeconds := 90

  /** `GameUiState()` with every default. */
  const DefaultUi := UiState(
    false, false, "Jugador", None, 0, 0, 5, 6, [], "", map[], RoundSeconds, 0, 0, 0, None, false, false, false,
    0, false, None, map[], map[], [], None, [], None, false, [], [], false, 0, 0, false, false, None, false)

  /**
   * `Char.uppercase()` on the Latin-1 letters: a-z and the accented letters
   * move to their capitals, 'ß' becomes "SS", 'ÿ' and 'µ' leave Latin-1;
   * every other character is kept.
   */
  function Upper(c: char): (u: string)
    ensures 1 <= |u| <= 2
  {
    if 'a' <= c <= 'z' then [(c as int - 32) as char]
    else if 0xE0 <= c as int <= 0xFE && c as int != 0xF7 then [(c as int - 32) as char]
    else if c as int == 0xDF then "SS"
    else if c as int == 0xFF then [0x178 as char]
    else if c as int == 0xB5 then [0x39C as char]
    else [c]
  }

  /** Only 'ß' grows when upper-cased; 'ñ' becomes 'Ñ' and a lower-case ASCII letter its capital. */
  lemma UpperSingle(c: char)
    ensures |Upper(c)| == 2 <==> c as int == 0xDF
    ensures c as int == 0xF1 ==> Upper(c) == [0xD1 as char]
    ensures 'a' <= c <= 'z' ==> 'A' <= Upper(c)[0] <= 'Z' && Upper(c)[0] as int + 32 == c as int
    ensures 'A' <= c <= 'Z' ==> Upper(c) == [c]
  {
  }

  /** Keyboard colours rank ABSENT < PRESENT < CORRECT. */
  function StatusRank(s: LetterStatus): nat {
    match s
    case ABSENT => 0
    case PRESENT => 1
    case CORRECT => 2
  }

  /** The Kotlin condition for overwriting a letter's colour with `status`. */
  predicate Replaces(current: Option<LetterStatus>, status: LetterStatus) {
    current.None? || status == CORRECT || (status == PRESENT && current == Some(ABSENT))
  }

  /** The keyboard colours after one letter result. */
  function MergeOne(used: map<char, LetterStatus>, r: LetterResult): map<char, LetterStatus> {
    var current := if r.letter in used then Some(used[r.letter]) else None;
    if Replaces(current, r.status) then used[r.letter := r.status] else used
  }

  /** The keyboard colours after the letter results `rs`, taken in order. */
  function MergeAll(used: map<char, LetterStatus>, rs: seq<LetterResult>): map<char, LetterStatus> {
    if rs == [] then used else MergeOne(MergeAll(used, rs[..|rs| - 1]), rs[|rs| - 1])
  }

  /** One result leaves its letter at the higher of the two colours and every other letter alone. */
  lemma MergeOneIsMax(used: map<char, LetterStatus>, r: LetterResult)
    ensures r.letter in MergeOne(used, r)
    ensures r.letter !in used ==> MergeOne(used, r)[r.letter] == r.status
    ensures r.letter in used ==>
      StatusRank(MergeOne(used, r)[r.letter]) == if StatusRank(r.status) > StatusRank(used[r.letter])
        then StatusRank(r.status) else StatusRank(used[r.letter])
    ensures MergeOne(used, r)[r.letter] == r.status || (r.letter in used && MergeOne(used, r)[r.letter] == used[r.letter])
    ensures forall c :: c != r.letter ==> (c in MergeOne(used, r) <==> c in used)
    ensures forall c :: c != r.letter && c in used ==> MergeOne(used, r)[c] == used[c]
  {
  }

  /**
   * The merge is the maximum: no letter is ever downgraded, every letter of
   * the attempt ends at least at its colour there, and each colour shown
   * is either the old one or one the attempt gave that letter.
   */
  lemma {:induction false} MergeIsMaximum(used: map<char, LetterStatus>, rs: seq<LetterResult>)
    ensures forall c :: c in used ==>
      c in MergeAll(used, rs) && StatusRank(used[c]) <= StatusRank(MergeAll(used, rs)[c])
    ensures forall i :: 0 <= i < |rs| ==>
      rs[i].letter in MergeAll(used, rs) && StatusRank(rs[i].status) <= StatusRank(MergeAll(used, rs)[rs[i].letter])
    ensures forall c :: c in MergeAll(used, rs) ==>
      (c in used && MergeAll(used, rs)[c] == used[c]) ||
      exists i :: 0 <= i < |rs| && rs[i].letter == c && rs[i].status == MergeAll(used, rs)[c]
  {
    if rs != [] {
      var init, r := rs[..|rs| - 1], rs[|rs| - 1];
      MergeIsMaximum(used, init);
      var m := MergeAll(used, init);
      MergeOneIsMax(m, r);
      var m' := MergeAll(used, rs);
      assert m' == MergeOne(m, r);
      forall i | 0 <= i < |rs|
        ensures rs[i].letter in m' && StatusRank(rs[i].status) <= StatusRank(m'[rs[i].letter])
      {
        if i < |init| {
          assert rs[i] == init[i];
        }
      }
      forall c | c in m'
        ensures (c in used && m'[c] == used[c]) || exists i :: 0 <= i < |rs| && rs[i].letter == c && rs[i].status == m'[c]
      {
        if c == r.letter && m'[c] == r.status {
          assert rs[|rs| - 1].letter == c;
        } else if !(c in used && m'[c] == used[c]) {
          var i :| 0 <= i < |init| && init[i].letter == c && init[i].status == m[c];
          assert rs[i] == init[i];
        }
      }
    }
  }

  /** Letters outside the attempt keep their colour, and appear only if they were there before. */
  lemma {:induction false} MergeKeepsOthers(used: map<char, LetterStatus>, rs: seq<LetterResult>, c: char)
    requires forall i :: 0 <= i < |rs| ==> rs[i].letter != c
    ensures c in MergeAll(used, rs) <==> c in used
    ensures c in used ==> MergeAll(used, rs)[c] == used[c]
  {
    if rs != [] {
      var init := rs[..|rs| - 1];
      assert forall i :: 0 <= i < |init| ==> init[i] == rs[i];
      MergeKeepsOthers(used, init, c);
      MergeOneIsMax(MergeAll(used, init), rs[|rs| - 1]);
    }
  }

  /** The state once a GAME_STARTED `gs` is shown: a fresh round, with the game's score and rounds won carried over. */
  function Started(s: UiState, gs: ServerMessage): UiState
    requires gs.GameStarted?
  {
    s.(isInGame := true, mode := Some(gs.mode), currentRound := gs.currentRound, totalRounds := gs.rounds,
       wordLength := gs.wordLength, maxAttempts := gs.maxAttempts, attempts := [], currentInput := "",
       usedLetters := map[], timeRemaining := RoundSeconds, roundScore := 0, correctWord := None,
       showingRoundResult := false, waitingForPlayers := false, readyForNextRound := false, gameEnded := false,
       error := None, hintText := None, hintUsed := false)
  }

  /** A round starts clean and playable, while the game's totals and everything outside the game survive. */
  lemma StartedRound(s: UiState, gs: ServerMessage)
    requires gs.GameStarted?
    ensures var t := Started(s, gs);
      t.isInGame && !t.showingRoundResult && !t.gameEnded && !t.hintUsed && !t.readyForNextRound &&
      t.attempts == [] && t.currentInput == "" && t.usedLetters == map[] && t.error.None? &&
      t.wordLength == gs.wordLength && t.currentRound == gs.currentRound
    ensures var t := Started(s, gs);
      t.score == s.score && t.roundsWon == s.roundsWon && t.playerName == s.playerName &&
      t.currentRoomId == s.currentRoomId && t.pveRecordsByLength == s.pveRecordsByLength
  {
  }

  /** The keyboard-colour loop of GUESS_RESULT: each letter result, in order, merged into `used`. */
  method MergeColours(used: map<char, LetterStatus>, result: seq<LetterResult>) returns (merged: map<char, LetterStatus>)
    ensures merged == MergeAll(used, result)
  {
    merged := used;
    for i := 0 to |result|
      invariant merged == MergeAll(used, result[..i])
    {
      assert result[..i + 1] == result[..i] + [result[i]];
      assert result[..i + 1][..i] == result[..i];
      var r := result[i];
      var current := if r.letter in merged then Some(merged[r.letter]) else None;
      if current.None? || r.status == CORRECT || (r.status == PRESENT && current == Some(ABSENT)) {
        merged := merged[r.letter := r.status];
      }
    }
    assert result[..|result|] == result;
  }

  /** The client's game screen state and the requests it has sent. */
  class GameViewModel {
    var ui: UiState
    var isSubmitting: bool
    var pendingGameStarted: Option<ServerMessage>
    var outbox: seq<ClientRequest>

    /** Only a GAME_STARTED is ever held back. */
    ghost predicate Valid()
      reads this
    {
      pendingGameStarted.Some? ==> pendingGameStarted.value.GameStarted?
    }

    constructor ()
      ensures Valid()
      ensures ui == DefaultUi && !isSubmitting && pendingGameStarted == None && outbox == []
    {
      ui := DefaultUi;
      isSubmitting := false;
      pendingGameStarted := None;
      outbox := [];
    }

    /** Types one key: its upper-case form is appended only while the input is shorter than the word. */
    method UpdateInput(letter: char)
      modifies this
      ensures |old(ui.currentInput)| < ui.wordLength ==>
        ui == old(ui).(currentInput := old(ui.currentInput) + Upper(letter))
      ensures |old(ui.currentInput)| >= ui.wordLength ==> ui == old(ui)
      ensures |old(ui.currentInput)| <= ui.wordLength && letter as int != 0xDF ==> |ui.currentInput| <= ui.wordLength
      ensures isSubmitting == old(isSubmitting) && pendingGameStarted == old(pendingGameStarted) && outbox == old(outbox)
    {
      var current := ui.currentInput;
      if |current| < ui.wordLength {
        ui := ui.(currentInput := current + Upper(letter));
      }
    }

    /** Removes the last character typed; nothing happens on an empty input. */
    method DeleteLetter()
      modifies this
      ensures old(ui.currentInput) != [] ==>
        ui == old(ui).(currentInput := old(ui.currentInput)[..|old(ui.currentInput)| - 1])
      ensures old(ui.currentInput) == [] ==> ui == old(ui)
      ensures isSubmitting == old(isSubmitting) && pendingGameStarted == old(pendingGameStarted) && outbox == old(outbox)
    {
      var current := ui.currentInput;
      if current != [] {
        ui := ui.(currentInput := current[..|current| - 1]);
      }
    }

    /**
     * Sends the typed word as a guess. Nothing is sent while a guess is in
     * flight; a word of the wrong length, or no game in progress, only shows
     * an error. The attempt number is the count of attempts shown plus one.
     * A send that returns a failure shows an error and allows a new try; an
     * exception allows a new try without showing anything.
     */
    method SubmitGuess(outcome: SendOutcome)
      modifies this
      ensures old(isSubmitting) ==> ui == old(ui) && isSubmitting && outbox == old(outbox)
      ensures !old(isSubmitting) && |ui.currentInput| != ui.wordLength ==>
        ui == old(ui).(error := Some(WrongLength(old(ui.wordLength)))) && !isSubmitting && outbox == old(outbox)
      ensures !old(isSubmitting) && |ui.currentInput| == ui.wordLength && !ui.isInGame ==>
        ui == old(ui).(error := Some(NoActiveGame)) && !isSubmitting && outbox == old(outbox)
      ensures !old(isSubmitting) && |old(ui.currentInput)| == old(ui.wordLength) && old(ui.isInGame) ==>
        (outcome.Sent? ==> outbox == old(outbox) + [Guess(old(ui.currentInput), |old(ui.attempts)| + 1)] &&
                           ui == old(ui) && isSubmitting) &&
        (outcome.Failed? ==> outbox == old(outbox) + [Guess(old(ui.currentInput), |old(ui.attempts)| + 1)] &&
                             ui == old(ui).(error := Some(SendFailed)) && !isSubmitting) &&
        (outcome.Raised? ==> outbox == old(outbox) && ui == old(ui) && !isSubmitting)
      ensures pendingGameStarted == old(pendingGameStarted)
    {
      if isSubmitting {
        return;
      }
      var input := ui.currentInput;
      var wordLength := ui.wordLength;
      var attemptNumber := |ui.attempts| + 1;
      if |input| != wordLength {
        ui := ui.(error := Some(WrongLength(wordLength)));
        return;
      }
      if !ui.isInGame {
        ui := ui.(error := Some(NoActiveGame));
        return;
      }
      isSubmitting := true;
      if outcome.Raised? {
        isSubmitting := false;
        return;
      }
      outbox := outbox + [Guess(input, attemptNumber)];
      if outcome.Failed? {
        ui := ui.(error := Some(SendFailed));
        isSubmitting := false;
      }
    }

    /**
     * GUESS_RESULT: the attempt is appended, the keyboard colours are merged
     * letter by letter, the input is cleared and the clock shows what remains
     * of the round.
     */
    method HandleGuessResult(result: seq<LetterResult>, timeElapsed: int)
      modifies this
      ensures ui == old(ui).(attempts := old(ui.attempts) + [result], usedLetters := MergeAll(old(ui.usedLetters), result),
                             currentInput := "", timeRemaining := Max0(RoundSeconds - timeElapsed))
      ensures !isSubmitting && pendingGameStarted == old(pendingGameStarted) && outbox == old(outbox)
    {
      var used := MergeColours(ui.usedLetters, result);
      isSubmitting := false;
      ui := ui.(attempts := ui.attempts + [result], usedLetters := used, currentInput := "",
                timeRemaining := Max0(RoundSeconds - timeElapsed));
    }

    /**
     * GAME_STARTED. A PVE round arriving while the previous round's result is
     * on screen is held back (replacing any held earlier); otherwise the new
     * round is shown and a new guess may be sent.
     */
    method HandleGameStarted(gs: ServerMessage)
      requires Valid() && gs.GameStarted?
      modifies this
      ensures Valid()
      ensures old(ui.showingRoundResult) && gs.mode != PVP ==>
        pendingGameStarted == Some(gs) && ui == old(ui) && isSubmitting == old(isSubmitting)
      ensures !(old(ui.showingRoundResult) && gs.mode != PVP) ==>
        ui == Started(old(ui), gs) && !isSubmitting && pendingGameStarted == old(pendingGameStarted)
      ensures outbox == old(outbox)
    {
      if ui.showingRoundResult && gs.mode != PVP {
        pendingGameStarted := Some(gs);
        return;
      }
      isSubmitting := false;
      ui := Started(ui, gs);
    }

    /** Closes the round result; a held-back GAME_STARTED is then shown, and only once. */
    method ContinueToNextRound()
      requires Valid()
      modifies this
      ensures Valid()
      ensures pendingGameStarted == None
      ensures old(pendingGameStarted).Some? ==>
        ui == Started(old(ui).(showingRoundResult := false), old(pendingGameStarted).value) && !isSubmitting
      ensures old(pendingGameStarted).None? ==>
        ui == old(ui).(showingRoundResult := false) && isSubmitting == old(isSubmitting)
      ensures outbox == old(outbox)
    {
      ui := ui.(showingRoundResult := false);
      if pendingGameStarted.Some? {
        var gs := pendingGameStarted.value;
        pendingGameStarted := None;
        HandleGameStarted(gs);
      }
    }

    /** ROUND_END (PVE): the result is shown, the total taken from the server, and a won round counted once. */
    method HandleRoundEnd(won: bool, correctWord: string, timeSeconds: int, roundScore: int, totalScore: int)
      modifies this
      ensures ui == old(ui).(correctWord := Some(correctWord), roundScore := roundScore, score := totalScore,
                             roundsWon := old(ui.roundsWon) + (if won then 1 else 0), showingRoundResult := true,
                             timeRemaining := Max0(RoundSeconds - timeSeconds))
      ensures isSubmitting == old(isSubmitting) && pendingGameStarted == old(pendingGameStarted) && outbox == old(outbox)
    {
      ui := ui.(correctWord := Some(correctWord), roundScore := roundScore, score := totalScore,
                roundsWon := if won then ui.roundsWon + 1 else ui.roundsWon, showingRoundResult := true,
                timeRemaining := Max0(RoundSeconds - timeSeconds));
    }

    /** PVP_ROUND_END: as ROUND_END, with the rankings shown and the ready state of the next round reset. */
    method HandlePvpRoundEnd(won: bool, correctWord: string, timeSeconds: int, roundScore: int, totalScore: int,
                             rankings: seq<PlayerScore>)
      modifies this
      ensures ui == old(ui).(correctWord := Some(correctWord), roundScore := roundScore, score := totalScore,
                             roundsWon := old(ui.roundsWon) + (if won then 1 else 0), showingRoundResult := true,
                             pvpRankings := rankings, timeRemaining := Max0(RoundSeconds - timeSeconds),
                             readyForNextRound := false, readyCount := 0, totalPlayerCount := 0)
      ensures isSubmitting == old(isSubmitting) && pendingGameStarted == old(pendingGameStarted) && outbox == old(outbox)
    {
      ui := ui.(correctWord := Some(correctWord), roundScore := roundScore, score := totalScore,
                roundsWon := if won then ui.roundsWon + 1 else ui.roundsWon, showingRoundResult := true,
                pvpRankings := rankings, timeRemaining := Max0(RoundSeconds - timeSeconds),
                readyForNextRound := false, readyCount := 0, totalPlayerCount := 0);
    }

    /** GAME_END (PVE): the game is over and its final score shown. */
    method HandleGameEnd(finalScore: int, isNewRecord: bool)
      modifies this
      ensures ui == old(ui).(gameEnded := true, finalScore := finalScore, isNewRecord := isNewRecord, isInGame := false)
      ensures isSubmitting == old(isSubmitting) && pendingGameStarted == old(pendingGameStarted) && outbox == old(outbox)
    {
      ui := ui.(gameEnded := true, finalScore := finalScore, isNewRecord := isNewRecord, isInGame := false);
    }

    /** PVP_GAME_END: the game is over, with the final rankings and no round result on screen. */
    method HandlePvpGameEnd(finalScore: int, rankings: seq<PlayerScore>, isNewRecord: bool)
      modifies this
      ensures ui == old(ui).(gameEnded := true, finalScore := finalScore, isNewRecord := isNewRecord,
                             pvpRankings := rankings, isInGame := false, showingRoundResult := false)
      ensures isSubmitting == old(isSubmitting) && pendingGameStarted == old(pendingGameStarted) && outbox == old(outbox)
    {
      ui := ui.(gameEnded := true, finalScore := finalScore, isNewRecord := isNewRecord,
                pvpRankings := rankings, isInGame := false, showingRoundResult := false);
    }

    /** ERROR: a new guess may be sent; an invalid word opens its dialog, any other code fills the banner. */
    method HandleError(code: ErrorCode)
      modifies this
      ensures !isSubmitting
      ensures code == INVALID_WORD ==> ui == old(ui).(showInvalidWordDialog := true)
      ensures code != INVALID_WORD ==> ui == old(ui).(error := Some(ServerError(code)))
      ensures pendingGameStarted == old(pendingGameStarted) && outbox == old(outbox)
    {
      isSubmitting := false;
      if code == INVALID_WORD {
        ui := ui.(showInvalidWordDialog := true);
      } else {
        ui := ui.(error := Some(ServerError(code)));
      }
    }

    /** GAME_ABANDONED: honoured only while in a game. */
    method HandleGameAbandoned()
      modifies this
      ensures old(ui.isInGame) ==> ui == old(ui).(gameAbandoned := true, isInGame := false)
      ensures !old(ui.isInGame) ==> ui == old(ui)
      ensures isSubmitting == old(isSubmitting) && pendingGameStarted == old(pendingGameStarted) && outbox == old(outbox)
    {
      if !ui.isInGame {
        return;
      }
      ui := ui.(gameAbandoned := true, isInGame := false);
    }

    /** HINT_RESPONSE: the hint is shown and no further hint is asked for. */
    method HandleHint(hint: string)
      modifies this
      ensures ui == old(ui).(hintText := Some(hint), hintUsed := true)
      ensures isSubmitting == old(isSubmitting) && pendingGameStarted == old(pendingGameStarted) && outbox == old(outbox)
    {
      ui := ui.(hintText := Some(hint), hintUsed := true);
    }

    /** Marks this player ready for the next PVP round; only the first call sends READY_NEXT_ROUND. */
    method SendReadyForNextRound()
      modifies this
      ensures ui.readyForNextRound
      ensures old(ui.readyForNextRound) ==> ui == old(ui) && outbox == old(outbox)
      ensures !old(ui.readyForNextRound) ==>
        ui == old(ui).(readyForNextRound := true) && outbox == old(outbox) + [ReadyNextRound]
      ensures isSubmitting == old(isSubmitting) && pendingGameStarted == old(pendingGameStarted)
    {
      if ui.readyForNextRound {
        return;
      }
      ui := ui.(readyForNextRound := true);
      outbox := outbox + [ReadyNextRound];
    }

    /** Asks for the round's hint, unless it was already given or no game is in progress. */
    method AskHint()
      modifies this
      ensures ui == old(ui)
      ensures old(ui.hintUsed) || !old(ui.isInGame) ==> outbox == old(outbox)
      ensures !old(ui.hintUsed) && old(ui.isInGame) ==> outbox == old(outbox) + [RequestHint]
      ensures isSubmitting == old(isSubmitting) && pendingGameStarted == old(pendingGameStarted)
    {
      if ui.hintUsed || !ui.isInGame {
        return;
      }
      outbox := outbox + [RequestHint];
    }

    /**
     * Back to the menu: the state returns to its defaults except the
     * connection flag, the name and the records; the server is told to
     * abandon the game if one was in progress, else to leave the room if
     * one was joined, and the records are asked for again.
     */
    method BackToMenu()
      modifies this
      ensures ui == DefaultUi.(isConnected := old(ui.isConnected), playerName := old(ui.playerName),
                               pveRecordsByLength := old(ui.pveRecordsByLength),
                               pvpRecordsByLength := old(ui.pvpRecordsByLength))
      ensures old(ui.isInGame) ==> outbox == old(outbox) + [AbandonGame, GetRecords]
      ensures !old(ui.isInGame) && old(ui.currentRoomId).Some? ==> outbox == old(outbox) + [LeaveRoom, GetRecords]
      ensures !old(ui.isInGame) && old(ui.currentRoomId).None? ==> outbox == old(outbox) + [GetRecords]
      ensures isSubmitting == old(isSubmitting) && pendingGameStarted == old(pendingGameStarted)
    {
      var wasInGame := ui.isInGame;
      var wasInRoom := ui.currentRoomId.Some?;
      ui := DefaultUi.(isConnected := ui.isConnected, playerName := ui.playerName,
                       pveRecordsByLength := ui.pveRecordsByLength, pvpRecordsByLength := ui.pvpRecordsByLength);
      if wasInGame {
        outbox := outbox + [AbandonGame];
      } else if wasInRoom {
        outbox := outbox + [LeaveRoom];
      }
      outbox := outbox + [GetRecords];
    }
  }

  /** Pressing "ready" twice sends READY_NEXT_ROUND at most once. */
  method ReadyTwice(vm: GameViewModel)
    modifies vm
    ensures vm.ui.readyForNextRound
    ensures |vm.outbox| <= |old(vm.outbox)| + 1
    ensures !old(vm.ui.readyForNextRound) ==> vm.outbox == old(vm.outbox) + [ReadyNextRound]
  {
    vm.SendReadyForNextRound();
    vm.SendReadyForNextRound();
  }

  /**
   * A PVE round that starts while the last result is on screen waits for the
   * player, is shown when the player continues, and is not shown again by a
   * second "continue".
   */
  method NextRoundAfterResult(vm: GameViewModel, gs: ServerMessage)
    requires vm.Valid() && gs.GameStarted? && gs.mode == PVE && vm.ui.showingRoundResult
    modifies vm
    ensures vm.Valid() && vm.pendingGameStarted == None
    ensures vm.ui == Started(old(vm.ui).(showingRoundResult := false), gs)
    ensures vm.outbox == old(vm.outbox)
  {
    vm.HandleGameStarted(gs);
    assert vm.ui == old(vm.ui);
    vm.ContinueToNextRound();
    vm.ContinueToNextRound();
  }
}
