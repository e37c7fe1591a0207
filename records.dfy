/*
 * RecordsManager.kt: the global top-10 score tables, one per game mode and
 * word length, with their one-time migration from the legacy single-table
 * format. `disk` is what this store last wrote to records.json (`None`:
 * nothing yet); the JSON encoding itself is not modelled, and a write is
 * assumed to succeed.
 */
module TopScores {
  import opened Protocol
  import opened Sorting

  /** Word lengths that always have a table (`SUPPORTED_LENGTHS`). */
  const SupportedLengths: seq<int> := [4, 5, 6, 7]
  /** Entries kept per table. */
  const TopSize := 10
  /** Legacy entries carried no word length; they are filed under 5 letters. */
  const LegacyLength := 5

  type Table = map<int, seq<RecordEntry>>

  /** The persisted `Records` object: tables by word length and the legacy lists. */
  datatype Records = Records(
    pveByLength: Table,
    pvpByLength: Table,
    pveLegacy: Option<seq<RecordEntry>>,
    pvpLegacy: Option<seq<RecordEntry>>)

  /** `Records()`. */
  const EmptyRecords := Records(map[], map[], None, None)

  /** A table for every supported length, all empty. */
  const EmptyTables: Table := map l | l in SupportedLengths :: []

  function EntryScore(e: RecordEntry): int {
    e.score
  }

  function TableOf(r: Records, mode: GameMode): Table {
    match mode
    case PVE => r.pveByLength
    case PVP => r.pvpByLength
  }

  function WithTable(r: Records, mode: GameMode, t: Table): (r': Records)
    ensures TableOf(r', mode) == t
    ensures mode == PVE ==> r'.pvpByLength == r.pvpByLength
    ensures mode == PVP ==> r'.pveByLength == r.pveByLength
    ensures r'.pveLegacy == r.pveLegacy && r'.pvpLegacy == r.pvpLegacy
  {
    match mode
    case PVE => r.(pveByLength := t)
    case PVP => r.(pvpByLength := t)
  }

  /** A well-kept table: best score first and at most `TopSize` entries. */
  ghost predicate Ranking(list: seq<RecordEntry>) {
    |list| <= TopSize && SortedDesc(list, EntryScore)
  }

  /**
   * The table after `e` is added to `list`: everything sorted by descending score
   * (stable, so earlier entries win ties) and cut to the first `TopSize`.
   */
  function Ranked(list: seq<RecordEntry>, e: RecordEntry): seq<RecordEntry> {
    var sorted := SortDesc(list + [e], EntryScore);
    if |sorted| > TopSize then sorted[..TopSize] else sorted
  }

  /** The new table is well kept, holds one more entry until it is full, and holds only entries it was given. */
  lemma RankedIsRanking(list: seq<RecordEntry>, e: RecordEntry)
    ensures Ranking(Ranked(list, e))
    ensures |Ranked(list, e)| == if |list| < TopSize then |list| + 1 else TopSize
    ensures multiset(Ranked(list, e)) <= multiset(list + [e])
  {
    var sorted := SortDesc(list + [e], EntryScore);
    SortDescSortedPerm(list + [e], EntryScore);
    if |sorted| > TopSize {
      assert sorted == sorted[..TopSize] + sorted[TopSize..];
    }
  }

  /** `any { it.playerName == name && it.score == score }`. */
  predicate Listed(list: seq<RecordEntry>, name: string, score: int) {
    exists i :: 0 <= i < |list| && list[i].playerName == name && list[i].score == score
  }

  /** An entry that does not make the cut scores no more than any entry that does. */
  lemma RankedKeepsBest(list: seq<RecordEntry>, e: RecordEntry, x: RecordEntry)
    requires x in list + [e] && x !in Ranked(list, e)
    ensures forall y :: y in Ranked(list, e) ==> y.score >= x.score
  {
    var sorted := SortDesc(list + [e], EntryScore);
    SortDescSortedPerm(list + [e], EntryScore);
    assert x in multiset(sorted);
    var k :| 0 <= k < |sorted| && sorted[k] == x;
    assert k >= TopSize;
    forall y | y in Ranked(list, e) ensures y.score >= x.score {
      var j :| 0 <= j < TopSize && sorted[j] == y;
      assert EntryScore(sorted[j]) >= EntryScore(sorted[k]);
    }
  }

  /**
   * On a well-kept table, a fresh (name, score) pair becomes a record exactly when
   * fewer than `TopSize` entries already score at least as much: ties go to the
   * entries that were there first.
   */
  lemma NewRecordIffRoom(list: seq<RecordEntry>, e: RecordEntry)
    requires Ranking(list)
    requires !Listed(list, e.playerName, e.score)
    ensures Listed(Ranked(list, e), e.playerName, e.score) <==> Leading(list, EntryScore, e.score) < TopSize
  {
    SortDescAppend(list, e, EntryScore);
    InsertDescSplit(list, e, EntryScore);
    var p := Leading(list, EntryScore, e.score);
    var ins := InsertDesc(list, e, EntryScore);
    assert ins == list[..p] + ([e] + list[p..]);
    assert ins[p] == e;
    var r := Ranked(list, e);
    assert r == ins[..|r|];
    if p < TopSize {
      assert r[p] == e;
    } else {
      forall i | 0 <= i < |r| ensures !(r[i].playerName == e.playerName && r[i].score == e.score) {
        assert r[i] == list[i];
      }
    }
  }

  /**
   * The result of `updateScore` also reports a record when the same name already
   * holds the same score in a well-kept table, even though the table is full and
   * the new entry itself is cut.
   */
  lemma RepeatedScoreIsListed(list: seq<RecordEntry>, e: RecordEntry)
    requires Ranking(list)
    requires Listed(list, e.playerName, e.score)
    ensures Listed(Ranked(list, e), e.playerName, e.score)
  {
    var i :| 0 <= i < |list| && list[i].playerName == e.playerName && list[i].score == e.score;
    var p := Leading(list, EntryScore, e.score);
    LeadingSorted(list, EntryScore, e.score, i);
    SortDescAppend(list, e, EntryScore);
    InsertDescSplit(list, e, EntryScore);
    var ins := InsertDesc(list, e, EntryScore);
    assert ins == list[..p] + ([e] + list[p..]);
    var r := Ranked(list, e);
    assert r == ins[..|r|];
    assert ins[i] == list[..p][i] == list[i];
    assert r[i] == ins[i];
  }

  /** `legacyList.map { RecordEntry(it.playerName, it.score, 5) }`. */
  function Relabel(legacy: seq<RecordEntry>): (r: seq<RecordEntry>)
    ensures |r| == |legacy|
    ensures forall i :: 0 <= i < |r| ==>
      r[i].playerName == legacy[i].playerName && r[i].score == legacy[i].score && r[i].wordLength == LegacyLength
  {
    if legacy == [] then []
    else [RecordEntry(legacy[0].playerName, legacy[0].score, LegacyLength)] + Relabel(legacy[1..])
  }

  predicate HasLegacy(legacy: Option<seq<RecordEntry>>) {
    legacy.Some? && legacy.value != []
  }

  /** One mode's table after its legacy list, if non-empty, replaces the 5-letter table. */
  function AfterLegacy(t: Table, legacy: Option<seq<RecordEntry>>): Table {
    if HasLegacy(legacy) then t[LegacyLength := Relabel(legacy.value)] else t
  }

  /** `t` with an empty table added for every supported length it lacks. */
  function Completed(t: Table): (t': Table)
    ensures forall l :: l in SupportedLengths ==> l in t'
    ensures forall l :: l in t ==> l in t' && t'[l] == t[l]
    ensures forall l :: l in t' && l !in t ==> l in SupportedLengths && t'[l] == []
  {
    t + map l | l in SupportedLengths && l !in t :: []
  }

  /**
   * `t` is `base` with an empty table put at each of `lengths`: over any table
   * already there when `overwrite`, only where there is none otherwise.
   */
  ghost predicate Filled(t: Table, base: Table, lengths: seq<int>, overwrite: bool) {
    (forall l :: l in t <==> l in base || l in lengths) &&
    (forall l :: l in t ==> t[l] == if l in lengths && (overwrite || l !in base) then [] else base[l])
  }

  lemma FilledStep(t: Table, base: Table, lengths: seq<int>, l: int, overwrite: bool)
    requires Filled(t, base, lengths, overwrite)
    ensures overwrite ==> Filled(t[l := []], base, lengths + [l], overwrite)
    ensures !overwrite ==> Filled(if l in t then t else t[l := []], base, lengths + [l], overwrite)
  {
  }

  lemma FilledAll(t: Table, base: Table)
    ensures Filled(t, base, SupportedLengths, true) ==> t == base + EmptyTables
    ensures Filled(t, base, SupportedLengths, false) ==> t == Completed(base)
  {
    if Filled(t, base, SupportedLengths, true) {
      var u := base + EmptyTables;
      assert forall l :: l in t <==> l in u;
      assert forall l :: l in t ==> t[l] == u[l];
    }
    if Filled(t, base, SupportedLengths, false) {
      var u := Completed(base);
      assert forall l :: l in t <==> l in u;
      assert forall l :: l in t ==> t[l] == u[l];
    }
  }

  /** The records once `migrateFromLegacy` has run. */
  function Migrated(r: Records): (m: Records)
    ensures !HasLegacy(m.pveLegacy) && !HasLegacy(m.pvpLegacy)
    ensures forall l :: l in SupportedLengths ==> l in m.pveByLength && l in m.pvpByLength
  {
    Records(
      Completed(AfterLegacy(r.pveByLength, r.pveLegacy)),
      Completed(AfterLegacy(r.pvpByLength, r.pvpLegacy)),
      if HasLegacy(r.pveLegacy) then None else r.pveLegacy,
      if HasLegacy(r.pvpLegacy) then None else r.pvpLegacy)
  }

  /**
   * Migration moves every legacy entry, relabelled as 5-letter, into the 5-letter
   * table, and leaves every other existing table as it was.
   */
  lemma MigratedKeepsEntries(r: Records)
    ensures HasLegacy(r.pveLegacy) ==> Migrated(r).pveByLength[LegacyLength] == Relabel(r.pveLegacy.value)
    ensures HasLegacy(r.pvpLegacy) ==> Migrated(r).pvpByLength[LegacyLength] == Relabel(r.pvpLegacy.value)
    ensures forall l :: l in r.pveByLength && (l != LegacyLength || !HasLegacy(r.pveLegacy)) ==>
      Migrated(r).pveByLength[l] == r.pveByLength[l]
    ensures forall l :: l in r.pvpByLength && (l != LegacyLength || !HasLegacy(r.pvpLegacy)) ==>
      Migrated(r).pvpByLength[l] == r.pvpByLength[l]
  {
  }

  /** Migrating twice is migrating once: a migrated file is left alone on the next start. */
  lemma MigratedIdempotent(r: Records)
    ensures Migrated(Migrated(r)) == Migrated(r)
  {
    var m := Migrated(r);
    assert Completed(m.pveByLength) == m.pveByLength;
    assert Completed(m.pvpByLength) == m.pvpByLength;
  }

  /** The server's records store. */
  class RecordsManager {
    var records: Records
    var disk: Option<Records>

    /** `init { loadRecords() }`, given what reading records.json yields. */
    constructor (stored: FileRead<Records>)
      ensures stored.Missing? ==> records == EmptyRecords.(pveByLength := EmptyTables, pvpByLength := EmptyTables)
      ensures stored.Unparseable? ==> records == EmptyRecords
      ensures stored.Parsed? ==> records == Migrated(stored.value)
      ensures stored.Parsed? && !HasLegacy(stored.value.pveLegacy) && !HasLegacy(stored.value.pvpLegacy) ==>
        disk == None
      ensures !(stored.Parsed? && !HasLegacy(stored.value.pveLegacy) && !HasLegacy(stored.value.pvpLegacy)) ==>
        disk == Some(records)
    {
      records := EmptyRecords;
      disk := None;
      new;
      match stored {
        case Parsed(r) =>
          records := r;
          MigrateFromLegacy();
        case Unparseable =>
          // Decoding failed: the default object is written back, without empty tables.
          SaveRecords();
        case Missing =>
          InitializeEmptyRecords();
          SaveRecords();
      }
    }

    method SaveRecords()
      modifies this
      ensures records == old(records) && disk == Some(records)
    {
      disk := Some(records);
    }

    /** Puts an empty table for every supported length, in both modes. */
    method InitializeEmptyRecords()
      modifies this
      ensures records == old(records).(pveByLength := old(records.pveByLength) + EmptyTables,
                                       pvpByLength := old(records.pvpByLength) + EmptyTables)
      ensures disk == old(disk)
    {
      for i := 0 to |SupportedLengths|
        invariant records.pveLegacy == old(records.pveLegacy) && records.pvpLegacy == old(records.pvpLegacy)
        invariant Filled(records.pveByLength, old(records.pveByLength), SupportedLengths[..i], true)
        invariant Filled(records.pvpByLength, old(records.pvpByLength), SupportedLengths[..i], true)
        invariant disk == old(disk)
      {
        var l := SupportedLengths[i];
        assert SupportedLengths[..i + 1] == SupportedLengths[..i] + [l];
        FilledStep(records.pveByLength, old(records.pveByLength), SupportedLengths[..i], l, true);
        FilledStep(records.pvpByLength, old(records.pvpByLength), SupportedLengths[..i], l, true);
        records := records.(pveByLength := records.pveByLength[l := []],
                            pvpByLength := records.pvpByLength[l := []]);
      }
      assert SupportedLengths[..|SupportedLengths|] == SupportedLengths;
      FilledAll(records.pveByLength, old(records.pveByLength));
      FilledAll(records.pvpByLength, old(records.pvpByLength));
    }

    /** Moves non-empty legacy lists into the 5-letter tables and fills in missing tables; saves if it moved any. */
    method MigrateFromLegacy()
      modifies this
      ensures records == Migrated(old(records))
      ensures disk == if HasLegacy(old(records).pveLegacy) || HasLegacy(old(records).pvpLegacy) then Some(records) else old(disk)
    {
      var migrated := false;
      if HasLegacy(records.pveLegacy) {
        records := records.(pveByLength := records.pveByLength[LegacyLength := Relabel(records.pveLegacy.value)],
                            pveLegacy := None);
        migrated := true;
      }
      if HasLegacy(records.pvpLegacy) {
        records := records.(pvpByLength := records.pvpByLength[LegacyLength := Relabel(records.pvpLegacy.value)],
                            pvpLegacy := None);
        migrated := true;
      }
      ghost var before := records;
      for i := 0 to |SupportedLengths|
        invariant records.pveLegacy == before.pveLegacy && records.pvpLegacy == before.pvpLegacy
        invariant Filled(records.pveByLength, before.pveByLength, SupportedLengths[..i], false)
        invariant Filled(records.pvpByLength, before.pvpByLength, SupportedLengths[..i], false)
        invariant disk == old(disk)
      {
        var l := SupportedLengths[i];
        assert SupportedLengths[..i + 1] == SupportedLengths[..i] + [l];
        FilledStep(records.pveByLength, before.pveByLength, SupportedLengths[..i], l, false);
        FilledStep(records.pvpByLength, before.pvpByLength, SupportedLengths[..i], l, false);
        if l !in records.pveByLength {
          records := records.(pveByLength := records.pveByLength[l := []]);
        }
        if l !in records.pvpByLength {
          records := records.(pvpByLength := records.pvpByLength[l := []]);
        }
      }
      assert SupportedLengths[..|SupportedLengths|] == SupportedLengths;
      FilledAll(records.pveByLength, before.pveByLength);
      FilledAll(records.pvpByLength, before.pvpByLength);
      if migrated {
        SaveRecords();
      }
    }

    /** A copy of both tables, without the legacy lists. */
    function GetRecords(): (r: Records)
      reads this
      ensures r.pveLegacy == None && r.pvpLegacy == None
      ensures r.pveByLength == records.pveByLength && r.pvpByLength == records.pvpByLength
    {
      Records(records.pveByLength, records.pvpByLength, None, None)
    }

    /** The table of one mode and length; empty when there is none. */
    function GetRecordsByLength(mode: GameMode, wordLength: int): (list: seq<RecordEntry>)
      reads this
      ensures wordLength in TableOf(records, mode) ==> list == TableOf(records, mode)[wordLength]
      ensures wordLength !in TableOf(records, mode) ==> list == []
    {
      Get(TableOf(records, mode), wordLength, [])
    }

    /**
     * Adds the score to its table (created if absent), keeps the best `TopSize`,
     * and reports whether the (name, score) pair is now in the table; saves only then.
     */
    method UpdateScore(mode: GameMode, playerName: string, score: int, wordLength: int) returns (isNewRecord: bool)
      modifies this
      ensures var top := Ranked(Get(TableOf(old(records), mode), wordLength, []), RecordEntry(playerName, score, wordLength));
        records == WithTable(old(records), mode, TableOf(old(records), mode)[wordLength := top]) &&
        isNewRecord == Listed(top, playerName, score)
      ensures disk == if isNewRecord then Some(records) else old(disk)
    {
      var table := TableOf(records, mode);
      var list := Get(table, wordLength, []);
      var top := Ranked(list, RecordEntry(playerName, score, wordLength));
      records := WithTable(records, mode, table[wordLength := top]);
      isNewRecord := Listed(top, playerName, score);
      if isNewRecord {
        SaveRecords();
      }
    }
  }
}
