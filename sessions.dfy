/*
 * SessionManager.kt: PVE games interrupted by a disconnection, kept per player
 * name for two hours so that the player can resume them. The clock
 * (`System.currentTimeMillis`) is the parameter `now`, in milliseconds.
 * `disk` is what this store last wrote to sessions.json (`None`: nothing yet);
 * the order in which the file lists the sessions is not modelled.
 */
module Sessions {
  import opened Protocol

  /** Two hours, in milliseconds. */
  const ExpirationMs: int := 2 * 60 * 60 * 1000

  datatype GameSession = GameSession(
    playerName: string,
    config: GameConfig,
    nextRound: int,
    totalScore: int,
    roundsWon: int,
    savedAt: int)

  /** A session is still usable when at most two hours have passed since it was saved. */
  predicate Fresh(s: GameSession, now: int) {
    now - s.savedAt <= ExpirationMs
  }

  /** Exactly two hours after saving a session is still valid; one millisecond later it is not. */
  lemma FreshBoundary(s: GameSession)
    ensures Fresh(s, s.savedAt + 7200000)
    ensures !Fresh(s, s.savedAt + 7200001)
  {
  }

  /** Every session sits under its own player's name. */
  ghost predicate KeyedByName(m: map<string, GameSession>) {
    forall name :: name in m ==> m[name].playerName == name
  }

  /**
   * The sessions `loadSessions` keeps from the file's list: the fresh ones, each
   * under its player's name, a later entry replacing an earlier one of the same name.
   */
  function Loaded(stored: seq<GameSession>, now: int): map<string, GameSession> {
    if stored == [] then map[]
    else
      var last := stored[|stored| - 1];
      var m := Loaded(stored[..|stored| - 1], now);
      if Fresh(last, now) then m[last.playerName := last] else m
  }

  /** Every kept session is fresh, comes from the list and sits under its own name; every fresh entry's name is kept. */
  lemma {:induction false} LoadedSound(stored: seq<GameSession>, now: int)
    ensures KeyedByName(Loaded(stored, now))
    ensures forall name :: name in Loaded(stored, now) ==> Fresh(Loaded(stored, now)[name], now) && Loaded(stored, now)[name] in stored
    ensures forall s :: s in stored && Fresh(s, now) ==> s.playerName in Loaded(stored, now)
  {
    if stored != [] {
      var init := stored[..|stored| - 1];
      LoadedSound(init, now);
      assert stored == init + [stored[|stored| - 1]];
    }
  }

  /** Under each name, `Loaded` keeps the last fresh entry of that name in the list. */
  lemma {:induction false} LoadedLastWins(stored: seq<GameSession>, now: int, i: int)
    requires 0 <= i < |stored| && Fresh(stored[i], now)
    requires forall j :: i < j < |stored| && Fresh(stored[j], now) ==> stored[j].playerName != stored[i].playerName
    ensures stored[i].playerName in Loaded(stored, now) && Loaded(stored, now)[stored[i].playerName] == stored[i]
  {
    var n := |stored| - 1;
    var init := stored[..n];
    if i < n {
      assert init[i] == stored[i];
      forall j | i < j < |init| && Fresh(init[j], now)
        ensures init[j].playerName != init[i].playerName
      {
        assert init[j] == stored[j];
      }
      LoadedLastWins(init, now, i);
    }
  }

  class SessionManager {
    var sessions: map<string, GameSession>
    var disk: Option<map<string, GameSession>>

    ghost predicate Valid()
      reads this
    {
      KeyedByName(sessions)
    }

    /** `init { loadSessions() }`: keeps the fresh sessions of a readable file, in file order; writes nothing. */
    constructor (stored: FileRead<seq<GameSession>>, now: int)
      ensures Valid()
      ensures sessions == if stored.Parsed? then Loaded(stored.value, now) else map[]
      ensures disk == None
    {
      sessions := map[];
      disk := None;
      new;
      if stored.Parsed? {
        var list := stored.value;
        var expired := 0;
        for i := 0 to |list|
          invariant sessions == Loaded(list[..i], now) && disk == None
        {
          assert list[..i + 1][..i] == list[..i];
          var session := list[i];
          if now - session.savedAt <= ExpirationMs {
            sessions := sessions[session.playerName := session];
          } else {
            expired := expired + 1;
          }
        }
        assert list[..|list|] == list;
        LoadedSound(list, now);
      }
    }

    /** Stores the session under its player's name, replacing any earlier one, and writes the file. */
    method SaveSession(session: GameSession)
      requires Valid()
      modifies this
      ensures Valid()
      ensures sessions == old(sessions)[session.playerName := session]
      ensures disk == Some(sessions)
    {
      sessions := sessions[session.playerName := session];
      disk := Some(sessions);
    }

    /**
     * The player's session if it is still fresh. An expired one is removed (and
     * the file rewritten); an unknown player changes nothing.
     */
    method GetSession(playerName: string, now: int) returns (r: Option<GameSession>)
      requires Valid()
      modifies this
      ensures Valid()
      ensures playerName !in old(sessions) ==> r == None && sessions == old(sessions) && disk == old(disk)
      ensures playerName in old(sessions) && !Fresh(old(sessions)[playerName], now) ==>
        r == None && sessions == old(sessions) - {playerName} && disk == Some(sessions)
      ensures playerName in old(sessions) && Fresh(old(sessions)[playerName], now) ==>
        r == Some(old(sessions)[playerName]) && sessions == old(sessions) && disk == old(disk)
      ensures r.Some? ==> r.value.playerName == playerName && Fresh(r.value, now)
    {
      if playerName !in sessions {
        return None;
      }
      var session := sessions[playerName];
      if now - session.savedAt > ExpirationMs {
        sessions := sessions - {playerName};
        disk := Some(sessions);
        return None;
      }
      return Some(session);
    }

    /** Forgets the player's session; the file is rewritten only if there was one. */
    method DeleteSession(playerName: string)
      requires Valid()
      modifies this
      ensures Valid()
      ensures sessions == old(sessions) - {playerName}
      ensures disk == if playerName in old(sessions) then Some(sessions) else old(disk)
    {
      if playerName in sessions {
        sessions := sessions - {playerName};
        disk := Some(sessions);
      }
    }
  }
}
