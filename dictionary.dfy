/*
 * DictionaryManager.kt: the solution words (with hints) and the accepted words,
 * indexed by word length. The dictionary files arrive already read: each one is
 * `Missing`, `Unparseable` or its `Parsed` entries. Unicode normalisation and the
 * random draw are parameters.
 */
module Dictionary {
  import opened Protocol

  /** `SUPPORTED_LENGTHS` of the dictionary. */
  const SupportedLengths: seq<int> := [4, 5, 6, 7]

  /** An entry of a `20_solutions_N.json` file. */
  datatype SolutionEntry = SolutionEntry(word: string, hint: string)

  /**
   * The three files of one length: `20_solutions_N.json` (preferred),
   * `soluciones_N.json` (consulted only when the former does not exist) and
   * `palabras_validas_N.json` (extra accepted words).
   */
  datatype LengthFiles = LengthFiles(
    solutions: FileRead<seq<SolutionEntry>>,
    oldSolutions: FileRead<seq<WordData>>,
    extraValid: FileRead<seq<WordData>>)

  /** The dictionary directory (whether it exists, and its files by length) and the legacy `palabras.json`. */
  datatype DictionaryFiles = DictionaryFiles(
    dirExists: bool,
    byLength: map<int, LengthFiles>,
    legacy: FileRead<seq<WordData>>)

  function FilesFor(files: DictionaryFiles, length: int): LengthFiles {
    Get(files.byLength, length, LengthFiles(Missing, Missing, Missing))
  }

  /**
   * `normalizeWord`: uppercase, then canonical decomposition (NFD), then removal of
   * the combining marks (with the attempted protection of Ñ, which after NFD no
   * longer matches anything). The three steps are library calls, given here as functions.
   */
  datatype Normalizer = Normalizer(upper: string -> string, nfd: string -> string, stripMarks: string -> string)

  function NormalizeWord(n: Normalizer, word: string): string {
    n.stripMarks(n.nfd(n.upper(word)))
  }

  /** Normalising a normalised word changes nothing. */
  ghost predicate Idempotent(n: Normalizer) {
    forall w :: NormalizeWord(n, NormalizeWord(n, w)) == NormalizeWord(n, w)
  }

  /** The solutions and accepted words by length. */
  datatype Index = Index(solutions: map<int, seq<WordData>>, valid: map<int, set<string>>)

  /** New-format entries as `WordData`, the word normalised. */
  function ToWordData(entries: seq<SolutionEntry>, n: Normalizer): (ws: seq<WordData>) {
    seq(|entries|, i requires 0 <= i < |entries| => WordData(NormalizeWord(n, entries[i].word), entries[i].hint))
  }

  /** The normalised words of a list. */
  function Words(ws: seq<WordData>, n: Normalizer): set<string> {
    set w | w in ws :: NormalizeWord(n, w.palabra)
  }

  /** The solutions one length contributes: the new file if it exists (nothing if it does not parse), else the old one. */
  function SolutionsFor(f: LengthFiles, n: Normalizer): Option<seq<WordData>> {
    match f.solutions
    case Parsed(entries) => Some(ToWordData(entries, n))
    case Unparseable => None
    case Missing => if f.oldSolutions.Parsed? then Some(f.oldSolutions.value) else None
  }

  /** The accepted words one length contributes: those of its solutions, joined with the extra file's. */
  function ValidFor(f: LengthFiles, n: Normalizer): Option<set<string>> {
    var base: Option<set<string>> :=
      match f.solutions
      case Parsed(entries) => Some(set w | w in ToWordData(entries, n) :: w.palabra)
      case Unparseable => None
      case Missing => if f.oldSolutions.Parsed? then Some(Words(f.oldSolutions.value, n)) else None;
    if f.extraValid.Parsed? then Some(base.GetOr({}) + Words(f.extraValid.value, n)) else base
  }

  /** What the per-length files give, over the supported lengths (nothing when the directory is missing). */
  function PerLength(files: DictionaryFiles, n: Normalizer): Index {
    Index(
      map l | l in SupportedLengths && files.dirExists && SolutionsFor(FilesFor(files, l), n).Some? ::
        SolutionsFor(FilesFor(files, l), n).value,
      map l | l in SupportedLengths && files.dirExists && ValidFor(FilesFor(files, l), n).Some? ::
        ValidFor(FilesFor(files, l), n).value)
  }

  /** `groupBy { it.palabra.length }[length]`: the words of that length, in file order. */
  function Grouped(ws: seq<WordData>, length: int): (g: seq<WordData>)
    ensures forall w :: w in g <==> w in ws && |w.palabra| == length
  {
    if ws == [] then []
    else (if |ws[0].palabra| == length then [ws[0]] else []) + Grouped(ws[1..], length)
  }

  /** The supported lengths the legacy list has words of. */
  function LegacyLengths(ws: seq<WordData>): set<int> {
    set l | l in SupportedLengths && Grouped(ws, l) != []
  }

  /** `loadLegacyDictionary`: each supported length the legacy list has words of is replaced by them. */
  function WithLegacy(legacy: FileRead<seq<WordData>>, n: Normalizer, idx: Index): Index {
    if !legacy.Parsed? then idx
    else
      var ws := legacy.value;
      Index(
        map l | l in idx.solutions.Keys + LegacyLengths(ws) ::
          if l in LegacyLengths(ws) then Grouped(ws, l) else idx.solutions[l],
        map l | l in idx.valid.Keys + LegacyLengths(ws) ::
          if l in LegacyLengths(ws) then Words(Grouped(ws, l), n) else idx.valid[l])
  }

  /** `loadAllDictionaries`: the per-length files, or the legacy file when they gave no solutions at all. */
  function Loaded(files: DictionaryFiles, n: Normalizer): Index {
    var p := PerLength(files, n);
    if p.solutions == map[] then WithLegacy(files.legacy, n, p) else p
  }

  /** The maps once the lengths in `done` have been loaded from their own files. */
  ghost predicate PerLengthFilled(solutions: map<int, seq<WordData>>, validWords: map<int, set<string>>,
                                  files: DictionaryFiles, n: Normalizer, done: seq<int>)
  {
    (forall l :: l in solutions <==> l in done && SolutionsFor(FilesFor(files, l), n).Some?) &&
    (forall l :: l in solutions ==> solutions[l] == SolutionsFor(FilesFor(files, l), n).value) &&
    (forall l :: l in validWords <==> l in done && ValidFor(FilesFor(files, l), n).Some?) &&
    (forall l :: l in validWords ==> validWords[l] == ValidFor(FilesFor(files, l), n).value)
  }

  /** The files of one length that no earlier step has touched: its solutions and accepted words, if any. */
  method LoadLength(f: LengthFiles, n: Normalizer, length: int, solutions: map<int, seq<WordData>>,
                    validWords: map<int, set<string>>) returns (solutions': map<int, seq<WordData>>, validWords': map<int, set<string>>)
    requires length !in solutions && length !in validWords
    ensures solutions' == if SolutionsFor(f, n).Some? then solutions[length := SolutionsFor(f, n).value] else solutions
    ensures validWords' == if ValidFor(f, n).Some? then validWords[length := ValidFor(f, n).value] else validWords
  {
    solutions', validWords' := solutions, validWords;
    match f.solutions {
      case Parsed(entries) =>
        var list := ToWordData(entries, n);
        solutions' := solutions'[length := list];
        validWords' := validWords'[length := set w | w in list :: w.palabra];
      case Unparseable =>
      case Missing =>
        if f.oldSolutions.Parsed? {
          solutions' := solutions'[length := f.oldSolutions.value];
          validWords' := validWords'[length := Words(f.oldSolutions.value, n)];
        }
    }
    if f.extraValid.Parsed? {
      var existing := if length in validWords' then validWords'[length] else {};
      validWords' := validWords'[length := existing + Words(f.extraValid.value, n)];
    }
  }

  lemma PerLengthFilledStep(solutions: map<int, seq<WordData>>, validWords: map<int, set<string>>,
                            files: DictionaryFiles, n: Normalizer, done: seq<int>, l: int)
    requires PerLengthFilled(solutions, validWords, files, n, done)
    ensures var f := FilesFor(files, l);
      PerLengthFilled(if SolutionsFor(f, n).Some? then solutions[l := SolutionsFor(f, n).value] else solutions,
                      if ValidFor(f, n).Some? then validWords[l := ValidFor(f, n).value] else validWords,
                      files, n, done + [l])
  {
    assert forall x :: x in done + [l] <==> x in done || x == l;
  }

  /** The per-length part of loading: the loop over the supported lengths. */
  method LoadPerLength(files: DictionaryFiles, n: Normalizer) returns (idx: Index)
    ensures idx == PerLength(files, n)
  {
    var solutions: map<int, seq<WordData>> := map[];
    var validWords: map<int, set<string>> := map[];
    var lengths := if files.dirExists then SupportedLengths else [];
    for k := 0 to |lengths|
      invariant PerLengthFilled(solutions, validWords, files, n, lengths[..k])
    {
      var length := lengths[k];
      assert lengths[..k + 1] == lengths[..k] + [lengths[k]];
      assert length !in lengths[..k];
      PerLengthFilledStep(solutions, validWords, files, n, lengths[..k], length);
      solutions, validWords := LoadLength(FilesFor(files, length), n, length, solutions, validWords);
    }
    assert lengths[..|lengths|] == lengths;
    idx := Index(solutions, validWords);
    var p := PerLength(files, n);
    assert forall l :: l in solutions <==> l in p.solutions;
    assert forall l :: l in validWords <==> l in p.valid;
  }

  /** The legacy maps once the lengths in `done` have been taken from the legacy list `ws`. */
  ghost predicate LegacyFilled(sol: map<int, seq<WordData>>, valid: map<int, set<string>>, idx: Index,
                               ws: seq<WordData>, n: Normalizer, done: seq<int>)
  {
    (forall l :: l in sol <==> l in idx.solutions || (l in done && Grouped(ws, l) != [])) &&
    (forall l :: l in sol ==> sol[l] == if l in done && Grouped(ws, l) != [] then Grouped(ws, l) else idx.solutions[l]) &&
    (forall l :: l in valid <==> l in idx.valid || (l in done && Grouped(ws, l) != [])) &&
    (forall l :: l in valid ==> valid[l] == if l in done && Grouped(ws, l) != [] then Words(Grouped(ws, l), n) else idx.valid[l])
  }

  lemma LegacyFilledStep(sol: map<int, seq<WordData>>, valid: map<int, set<string>>, idx: Index,
                         ws: seq<WordData>, n: Normalizer, done: seq<int>, l: int)
    requires LegacyFilled(sol, valid, idx, ws, n, done)
    ensures Grouped(ws, l) != [] ==>
      LegacyFilled(sol[l := Grouped(ws, l)], valid[l := Words(Grouped(ws, l), n)], idx, ws, n, done + [l])
    ensures Grouped(ws, l) == [] ==> LegacyFilled(sol, valid, idx, ws, n, done + [l])
  {
    assert forall x :: x in done + [l] <==> x in done || x == l;
  }

  lemma LegacyFilledAll(sol: map<int, seq<WordData>>, valid: map<int, set<string>>, idx: Index, ws: seq<WordData>, n: Normalizer)
    requires LegacyFilled(sol, valid, idx, ws, n, SupportedLengths)
    ensures Index(sol, valid) == WithLegacy(Parsed(ws), n, idx)
  {
    var w := WithLegacy(Parsed(ws), n, idx);
    assert forall l :: l in sol <==> l in w.solutions;
    assert forall l :: l in sol ==> sol[l] == w.solutions[l];
    assert forall l :: l in valid <==> l in w.valid;
    assert forall l :: l in valid ==> valid[l] == w.valid[l];
  }

  /** `loadLegacyDictionary`, run on the maps loaded so far. */
  method LoadLegacyDictionary(legacy: FileRead<seq<WordData>>, n: Normalizer, idx: Index) returns (r: Index)
    ensures r == WithLegacy(legacy, n, idx)
  {
    r := idx;
    if legacy.Parsed? {
      var ws := legacy.value;
      var solutions := idx.solutions;
      var validWords := idx.valid;
      for k := 0 to |SupportedLengths|
        invariant LegacyFilled(solutions, validWords, idx, ws, n, SupportedLengths[..k])
      {
        var length := SupportedLengths[k];
        assert SupportedLengths[..k + 1] == SupportedLengths[..k] + [length];
        LegacyFilledStep(solutions, validWords, idx, ws, n, SupportedLengths[..k], length);
        var words := Grouped(ws, length);
        if words != [] {
          solutions := solutions[length := words];
          validWords := validWords[length := Words(words, n)];
        }
      }
      assert SupportedLengths[..|SupportedLengths|] == SupportedLengths;
      LegacyFilledAll(solutions, validWords, idx, ws, n);
      r := Index(solutions, validWords);
    }
  }

  /** Only supported lengths are ever indexed. */
  lemma LoadedLengths(files: DictionaryFiles, n: Normalizer)
    ensures forall l :: l in Loaded(files, n).solutions ==> l in SupportedLengths
    ensures forall l :: l in Loaded(files, n).valid ==> l in SupportedLengths
  {
  }

  /** The legacy file is consulted only when the per-length files gave no solution list at all. */
  lemma LegacyOnlyAsFallback(files: DictionaryFiles, n: Normalizer)
    ensures PerLength(files, n).solutions != map[] ==> Loaded(files, n) == PerLength(files, n)
    ensures !files.dirExists ==> Loaded(files, n) == WithLegacy(files.legacy, n, Index(map[], map[]))
  {
    if !files.dirExists {
      var p := PerLength(files, n);
      assert p.solutions == map[] && p.valid == map[];
    }
  }

  /**
   * A `20_solutions_N.json` that exists but does not parse hides `soluciones_N.json`:
   * that length has no solutions of its own.
   */
  lemma BrokenFileHidesOldFormat(files: DictionaryFiles, n: Normalizer, l: int)
    requires FilesFor(files, l).solutions.Unparseable?
    ensures l !in PerLength(files, n).solutions
  {
  }

  /** The legacy list is grouped by length: every solution it supplies has the length it is filed under. */
  lemma LegacyWordsHaveTheirLength(files: DictionaryFiles, n: Normalizer, l: int)
    requires PerLength(files, n).solutions == map[] && files.legacy.Parsed?
    ensures l in Loaded(files, n).solutions ==> forall w :: w in Loaded(files, n).solutions[l] ==> |w.palabra| == l
    ensures l in SupportedLengths && (exists w :: w in files.legacy.value && |w.palabra| == l) ==> l in Loaded(files, n).solutions
  {
    if l in SupportedLengths && exists w :: w in files.legacy.value && |w.palabra| == l {
      var w :| w in files.legacy.value && |w.palabra| == l;
      assert w in Grouped(files.legacy.value, l);
    }
  }

  /** The extra accepted words of a supported length are accepted, unless the legacy fallback ran. */
  lemma ExtraWordsAreValid(files: DictionaryFiles, n: Normalizer, l: int)
    requires files.dirExists && l in SupportedLengths && FilesFor(files, l).extraValid.Parsed?
    requires PerLength(files, n).solutions != map[]
    ensures l in Loaded(files, n).valid
    ensures Words(FilesFor(files, l).extraValid.value, n) <= Loaded(files, n).valid[l]
  {
  }

  /** Every solution's normalised word is accepted for its length. */
  ghost predicate CoversSolutions(idx: Index, n: Normalizer) {
    forall l :: l in idx.solutions ==>
      l in idx.valid && forall w :: w in idx.solutions[l] ==> NormalizeWord(n, w.palabra) in idx.valid[l]
  }

  lemma PerLengthCovers(files: DictionaryFiles, n: Normalizer)
    requires Idempotent(n)
    ensures CoversSolutions(PerLength(files, n), n)
  {
    var p := PerLength(files, n);
    forall l | l in p.solutions
      ensures l in p.valid && forall w :: w in p.solutions[l] ==> NormalizeWord(n, w.palabra) in p.valid[l]
    {
      var f := FilesFor(files, l);
      if f.solutions.Parsed? {
        var list := ToWordData(f.solutions.value, n);
        forall w | w in list ensures NormalizeWord(n, w.palabra) == w.palabra {
          var i :| 0 <= i < |list| && list[i] == w;
        }
      }
    }
  }

  /**
   * With a normalisation that is idempotent, every solution word the dictionary can
   * draw is itself an accepted guess of its length.
   */
  lemma {:induction false} LoadedCovers(files: DictionaryFiles, n: Normalizer)
    requires Idempotent(n)
    ensures CoversSolutions(Loaded(files, n), n)
  {
    PerLengthCovers(files, n);
  }

  /** The loaded dictionary. */
  class DictionaryManager {
    const normalizer: Normalizer
    var solutionsByLength: map<int, seq<WordData>>
    var validWordsByLength: map<int, set<string>>

    constructor (files: DictionaryFiles, n: Normalizer)
      ensures normalizer == n
      ensures Index(solutionsByLength, validWordsByLength) == Loaded(files, n)
    {
      normalizer := n;
      var idx := LoadPerLength(files, n);
      if idx.solutions == map[] {
        idx := LoadLegacyDictionary(files.legacy, n, idx);
      }
      solutionsByLength := idx.solutions;
      validWordsByLength := idx.valid;
    }

    /**
     * A solution of the given length, the `pick`-th modulo their number (the
     * random draw); none when that length has no solutions.
     */
    function GetRandomWord(length: int, pick: nat): (r: Option<WordData>)
      reads this
      ensures r.None? <==> length !in solutionsByLength || solutionsByLength[length] == []
      ensures r.Some? ==> r.value in solutionsByLength[length]
    {
      var words := Get(solutionsByLength, length, []);
      if words == [] then None else Some(words[pick % |words|])
    }

    function IsValidWord(word: string, length: int): (b: bool)
      reads this
      ensures b <==> length in validWordsByLength && NormalizeWord(normalizer, word) in validWordsByLength[length]
    {
      length in validWordsByLength && NormalizeWord(normalizer, word) in validWordsByLength[length]
    }

    function GetWordCount(length: int): (count: nat)
      reads this
      ensures count == if length in solutionsByLength then |solutionsByLength[length]| else 0
    {
      |Get(solutionsByLength, length, [])|
    }

    function HasDictionaryFor(length: int): (b: bool)
      reads this
      ensures b <==> GetWordCount(length) > 0
    {
      length in solutionsByLength && solutionsByLength[length] != []
    }

    /** The supported lengths that have solutions, in increasing order. */
    function GetSupportedLengths(): (ls: seq<int>)
      reads this
      ensures forall l :: l in ls <==> l in SupportedLengths && HasDictionaryFor(l)
      ensures forall i, j :: 0 <= i < j < |ls| ==> ls[i] < ls[j]
    {
      HavingSolutions(SupportedLengths)
    }

    function HavingSolutions(ls: seq<int>): (r: seq<int>)
      reads this
      ensures forall l :: l in r <==> l in ls && HasDictionaryFor(l)
      ensures forall i :: 0 <= i < |r| ==> exists j :: 0 <= j < |ls| && r[i] == ls[j]
      ensures (forall i, j :: 0 <= i < j < |ls| ==> ls[i] < ls[j]) ==> forall i, j :: 0 <= i < j < |r| ==> r[i] < r[j]
    {
      if ls == [] then []
      else
        var rest := HavingSolutions(ls[1..]);
        assert forall i :: 0 <= i < |rest| ==> exists j :: 0 <= j < |ls| && rest[i] == ls[j] by {
          forall i | 0 <= i < |rest| ensures exists j :: 0 <= j < |ls| && rest[i] == ls[j] {
            var j :| 0 <= j < |ls[1..]| && rest[i] == ls[1..][j];
            assert rest[i] == ls[j + 1];
          }
        }
        if HasDictionaryFor(ls[0]) then [ls[0]] + rest else rest
    }

    /** Every solution the dictionary can draw is accepted as a guess of its length (for an idempotent normalisation). */
    lemma SolutionsAreValidWords(files: DictionaryFiles, length: int, pick: nat)
      requires Index(solutionsByLength, validWordsByLength) == Loaded(files, normalizer)
      requires Idempotent(normalizer)
      ensures GetRandomWord(length, pick).Some? ==> IsValidWord(GetRandomWord(length, pick).value.palabra, length)
    {
      LoadedCovers(files, normalizer);
    }

    /** Each solution of a length is drawn by some value of the random number. */
    lemma EveryWordCanBeDrawn(length: int, i: nat)
      requires length in solutionsByLength && i < |solutionsByLength[length]|
      ensures GetRandomWord(length, i) == Some(solutionsByLength[length][i])
    {
    }
  }
}
