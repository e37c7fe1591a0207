/*
 * Shared wire and data types of the Wordle server and client (the `protocol`
 * package). They carry no behaviour; every other module imports them.
 * Kotlin `Int`/`Long` are modelled as unbounded `int`.
 */
module Protocol {

  datatype Option<+T> = None | Some(value: T) {
    function GetOr(default: T): T {
      match this
      case Some(v) => v
      case None => default
    }
  }

  /** Map lookup with a default, Kotlin's `m[k] ?: d`. */
  function Get<K, V>(m: map<K, V>, k: K, default: V): V {
    if k in m then m[k] else default
  }

  datatype GameMode = PVE | PVP

  /** CORRECT: right letter, right place; PRESENT: elsewhere in the word; ABSENT: not (again) in the word. */
  datatype LetterStatus = CORRECT | PRESENT | ABSENT

  datatype GameConfig = GameConfig(
    wordLength: int,
    maxAttempts: int,
    rounds: int,
    timeoutSeconds: int,
    saveRecords: bool)

  /** A solution word (`palabra`) and its hint (`pista`). */
  datatype WordData = WordData(palabra: string, pista: string)

  datatype LetterResult = LetterResult(letter: char, status: LetterStatus)

  /**
   * Cumulative per-player statistics. The JSON store keys `guessDistribution`
   * by the decimal text of the attempt count; here the count itself is the key.
   */
  datatype PlayerStats = PlayerStats(
    gamesPlayed: int,
    gamesWon: int,
    currentStreak: int,
    maxStreak: int,
    guessDistribution: map<int, int>,
    totalWordsAttempted: int,
    totalWordsGuessed: int,
    totalTimeSeconds: int)

  /** `PlayerStats()` with every default. */
  const DefaultStats := PlayerStats(0, 0, 0, 0, map[], 0, 0, 0)

  datatype RecordEntry = RecordEntry(playerName: string, score: int, wordLength: int)

  datatype PlayerScore = PlayerScore(playerName: string, score: int, roundsWon: int)

  datatype PlayerRoundStatus = PlayerRoundStatus(playerName: string, attempts: int, finished: bool, totalScore: int)

  datatype RoomInfo = RoomInfo(roomId: string, hostName: string, playerCount: int, maxPlayers: int)

  /** The `code` of an ERROR message; the human-readable text is not modelled. */
  datatype ErrorCode =
    | ROUND_NOT_ACTIVE | INVALID_LENGTH | INVALID_WORD | HINT_ALREADY_USED | NO_WORDS
    | ALREADY_IN_ROOM | ROOM_NOT_FOUND | NOT_IN_ROOM | NOT_HOST | NOT_ENOUGH_PLAYERS
    | NO_ACTIVE_GAME | USE_ROOMS

  /** Server-to-client messages, one constructor per message type, payload fields as typed values. */
  datatype ServerMessage =
    | GameStarted(gameId: string, mode: GameMode, rounds: int, currentRound: int, wordLength: int, maxAttempts: int)
    | GuessResult(word: string, result: seq<LetterResult>, isCorrect: bool, attemptsUsed: int, timeElapsed: int)
    | RoundEnd(roundNumber: int, won: bool, correctWord: string, attemptsUsed: int, timeSeconds: int,
               roundScore: int, totalScore: int)
    | GameEnd(mode: GameMode, finalScore: int, roundsWon: int, totalRounds: int, isNewRecord: bool)
    | GameAbandoned
    | Error(code: ErrorCode)
    | HintResponse(hint: string)
    | OpponentUpdate(opponentAttempts: int, opponentFinished: bool)
    | PlayersStatus(players: seq<PlayerRoundStatus>)
    | PvpRoundEnd(roundNumber: int, won: bool, correctWord: string, attemptsUsed: int, timeSeconds: int,
                  roundScore: int, totalScore: int, rankings: seq<PlayerScore>)
    | PvpGameEnd(finalScore: int, rankings: seq<PlayerScore>, isNewRecord: bool)
    | WaitingForPlayers(readyCount: int, totalCount: int)
    | PlayerLeft(playerName: string)
    | RoomCreated(roomId: string)
    | RoomJoined(joinedRoomId: string, joinedPlayers: seq<string>)
    | RoomUpdate(updatedRoomId: string, roomPlayers: seq<string>, hostName: string)
    | RoomList(rooms: set<RoomInfo>)
    | RecordsList(pveRecords: map<int, seq<RecordEntry>>, pvpRecords: map<int, seq<RecordEntry>>)

  /** Identity of one client connection (a `ClientHandler` object in the server). */
  type ClientId = nat

  /** One message addressed to one connection. */
  datatype Delivery = Delivery(to: ClientId, msg: ServerMessage)

  /** Every line the server writes to any socket, in order; `send` appends to it. */
  class Network {
    var sent: seq<Delivery>

    constructor ()
      ensures sent == []
    {
      sent := [];
    }

    method Send(to: ClientId, msg: ServerMessage)
      modifies this
      ensures sent == old(sent) + [Delivery(to, msg)]
    {
      sent := sent + [Delivery(to, msg)];
    }
  }

  /** `Deliveries(ps, m)`: `m` sent to each of `ps`, in order (a broadcast). */
  function Deliveries(ps: seq<ClientId>, m: ServerMessage): (r: seq<Delivery>)
    ensures |r| == |ps|
  {
    if ps == [] then [] else Deliveries(ps[..|ps| - 1], m) + [Delivery(ps[|ps| - 1], m)]
  }

  /** The `i`-th delivery of a broadcast is the message to the `i`-th recipient. */
  lemma {:induction false} DeliveriesAt(ps: seq<ClientId>, m: ServerMessage, i: int)
    requires 0 <= i < |ps|
    ensures Deliveries(ps, m)[i] == Delivery(ps[i], m)
  {
    if i < |ps| - 1 {
      DeliveriesAt(ps[..|ps| - 1], m, i);
    }
  }

  /**
   * What reading one JSON file yields: the file is absent, present but not
   * decodable, or decoded to a value.
   */
  datatype FileRead<T> = Missing | Unparseable | Parsed(value: T)

  /** Kotlin `Int`/`Long` division truncates toward zero; Dafny's `/` is Euclidean. */
  function DivTrunc(a: int, b: int): int
    requires b > 0
  {
    if a >= 0 then a / b else -((-a) / b)
  }

  /** The quotient rounds toward zero: it agrees with `/` on non-negative operands and the remainder takes the sign of `a`. */
  lemma DivTruncTowardZero(a: int, b: int)
    requires b > 0
    ensures a >= 0 ==> DivTrunc(a, b) == a / b
    ensures a >= 0 ==> DivTrunc(a, b) * b <= a < DivTrunc(a, b) * b + b
    ensures a < 0 ==> DivTrunc(a, b) * b - b < a <= DivTrunc(a, b) * b
  {
  }

  /** `x.coerceAtLeast(0)`. */
  function Max0(x: int): int {
    if x < 0 then 0 else x
  }
}
