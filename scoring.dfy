/*
 * The Wordle core shared by the PVE and PVP games: the two-pass letter
 * feedback (`compareWords`, identical in PVEGame.kt and PVPGame.kt) and the
 * per-round score.
 */
module Scoring {
  import opened Protocol

  /** The filler `compareWords` writes over a target letter once it is used. */
  const Blank: char := '_'

  /** `s.indexOf(c)`: the first position of `c` in `s`, or -1. */
  function IndexOf(s: seq<char>, c: char): (k: int)
    ensures -1 <= k < |s|
    ensures k == -1 <==> c !in s
    ensures 0 <= k ==> s[k] == c && c !in s[..k]
  {
    if s == [] then -1
    else if s[0] == c then 0
    else
      var k := IndexOf(s[1..], c);
      assert s[1..][..(if k < 0 then 0 else k)] == s[1..1 + (if k < 0 then 0 else k)];
      if k == -1 then -1 else k + 1
  }

  /** How many times `c` occurs in `s` (the multiplicity of `c` in `multiset(s)`). */
  function Occurs(s: string, c: char): nat {
    if s == [] then 0 else (if s[0] == c then 1 else 0) + Occurs(s[1..], c)
  }

  /** How many positions of a feedback row mark the letter `c` as in the word (CORRECT or PRESENT). */
  function Marks(r: seq<LetterResult>, c: char): nat {
    if r == [] then 0 else Marks(r[..|r| - 1], c) + MarkOf(r[|r| - 1], c)
  }

  function MarkOf(e: LetterResult, c: char): nat {
    if e.status != ABSENT && e.letter == c then 1 else 0
  }

  lemma {:induction false} OccursUpdate(s: string, idx: int, b: char, c: char)
    requires 0 <= idx < |s|
    ensures Occurs(s[idx := b], c) + (if s[idx] == c then 1 else 0) == Occurs(s, c) + (if b == c then 1 else 0)
  {
    if idx > 0 {
      assert s[idx := b][1..] == s[1..][idx - 1 := b];
      OccursUpdate(s[1..], idx - 1, b, c);
    } else {
      assert s[idx := b][1..] == s[1..];
    }
  }

  lemma {:induction false} OccursPositive(s: string, c: char)
    ensures Occurs(s, c) > 0 <==> c in s
  {
    if s != [] {
      OccursPositive(s[1..], c);
      assert c in s <==> s[0] == c || c in s[1..];
    }
  }

  lemma MarksAppend(r: seq<LetterResult>, e: LetterResult, c: char)
    ensures Marks(r + [e], c) == Marks(r, c) + MarkOf(e, c)
  {
    assert (r + [e])[..|r|] == r;
  }

  lemma {:induction false} MarksUpdate(r: seq<LetterResult>, i: int, e: LetterResult, c: char)
    requires 0 <= i < |r|
    ensures Marks(r[i := e], c) + MarkOf(r[i], c) == Marks(r, c) + MarkOf(e, c)
  {
    var n := |r| - 1;
    var r' := r[i := e];
    if i < n {
      assert r'[..n] == r[..n][i := e];
      MarksUpdate(r[..n], i, e, c);
    } else {
      assert r'[..n] == r[..n];
    }
  }

  /** Only letters of the row can be marked. */
  lemma {:induction false} MarksLetters(r: seq<LetterResult>, c: char)
    requires Marks(r, c) > 0
    ensures exists i :: 0 <= i < |r| && r[i].letter == c && r[i].status != ABSENT
  {
    var n := |r| - 1;
    if Marks(r[..n], c) > 0 {
      MarksLetters(r[..n], c);
      var i :| 0 <= i < n && r[..n][i].letter == c && r[..n][i].status != ABSENT;
      assert r[i] == r[..n][i];
    }
  }

  /**
   * The letters of the row are those of the guess, and a position is CORRECT
   * exactly when the guess and the target agree there.
   */
  ghost predicate Aligned(guess: string, target: string, r: seq<LetterResult>)
    requires |guess| <= |target|
  {
    |r| == |guess| &&
    (forall i :: 0 <= i < |r| ==> r[i].letter == guess[i]) &&
    (forall i :: 0 <= i < |r| ==> (r[i].status == CORRECT <==> guess[i] == target[i]))
  }

  /**
   * Wordle feedback: a letter of the target is used by at most one position of
   * the guess, exact matches first; a letter is ABSENT only when every copy of it
   * in the target is already used; and copies are handed out left to right, so an
   * ABSENT letter is never followed by a PRESENT copy of itself.
   */
  ghost predicate Feedback(guess: string, target: string, r: seq<LetterResult>)
    requires |guess| <= |target|
  {
    Aligned(guess, target, r) &&
    (forall c :: Marks(r, c) <= Occurs(target, c)) &&
    (forall i :: 0 <= i < |r| && r[i].status == ABSENT ==> Marks(r, guess[i]) == Occurs(target, guess[i])) &&
    (forall j, k :: 0 <= j < k < |r| && guess[j] == guess[k] && r[j].status == ABSENT ==> r[k].status != PRESENT)
  }

  /**
   * Bookkeeping of `compareWords`: every target letter other than the filler is
   * either still unused in `pool` or already marked in `res`.
   */
  ghost predicate Accounted(res: seq<LetterResult>, pool: string, target: string) {
    forall c :: c != Blank ==> Marks(res, c) + Occurs(pool, c) == Occurs(target, c)
  }

  /** Marking position `i` of the row with the copy of its letter at `pool[idx]` keeps the books. */
  lemma UseLetter(res: seq<LetterResult>, pool: string, target: string, i: int, e: LetterResult, idx: int)
    requires Accounted(res, pool, target)
    requires 0 <= i < |res| && res[i].status == ABSENT && e.status != ABSENT
    requires 0 <= idx < |pool| && pool[idx] == e.letter
    ensures Accounted(res[i := e], pool[idx := Blank], target)
  {
    forall c | c != Blank
      ensures Marks(res[i := e], c) + Occurs(pool[idx := Blank], c) == Occurs(target, c)
    {
      MarksUpdate(res, i, e, c);
      OccursUpdate(pool, idx, Blank, c);
    }
  }

  /** Appending a mark that uses the copy of its letter at `pool[idx]` keeps the books. */
  lemma AppendLetter(res: seq<LetterResult>, pool: string, target: string, e: LetterResult, idx: int)
    requires Accounted(res, pool, target)
    requires e.status != ABSENT && 0 <= idx < |pool| && pool[idx] == e.letter
    ensures Accounted(res + [e], pool[idx := Blank], target)
  {
    forall c | c != Blank
      ensures Marks(res + [e], c) + Occurs(pool[idx := Blank], c) == Occurs(target, c)
    {
      MarksAppend(res, e, c);
      OccursUpdate(pool, idx, Blank, c);
    }
  }

  /**
   * `compareWords`. Kotlin indexes the target at every position of the guess, so a
   * target shorter than the guess throws; callers only reach here with
   * `|guess| <= |target|`. The Wordle rules hold whenever the guess does not itself
   * contain the filler `_` (normalised dictionary words never do).
   */
  method CompareWords(guess: string, target: string) returns (r: seq<LetterResult>)
    requires |guess| <= |target|
    ensures Aligned(guess, target, r)
    ensures Blank !in guess ==> Feedback(guess, target, r)
  {
    var res, pool := MarkExact(guess, target);
    r, pool := MarkPresent(guess, target, res, pool);
    if Blank !in guess {
      forall c ensures Marks(r, c) <= Occurs(target, c) {
        if c == Blank && Marks(r, c) > 0 {
          MarksLetters(r, c);
        }
      }
      forall i | 0 <= i < |r| && r[i].status == ABSENT
        ensures Marks(r, guess[i]) == Occurs(target, guess[i])
      {
        OccursPositive(pool, guess[i]);
      }
    }
  }

  /** First pass of `compareWords`: exact matches are CORRECT and use up their target letter. */
  method MarkExact(guess: string, target: string) returns (res: seq<LetterResult>, pool: string)
    requires |guess| <= |target|
    ensures Aligned(guess, target, res) && |pool| == |target|
    ensures forall j :: 0 <= j < |res| ==> res[j].status != PRESENT
    ensures Accounted(res, pool, target)
  {
    res, pool := [], target;
    var i := 0;
    while i < |guess|
      invariant 0 <= i <= |guess|
      invariant |res| == i && |pool| == |target|
      invariant forall j :: 0 <= j < i ==> res[j].letter == guess[j]
      invariant forall j :: 0 <= j < i ==> (res[j].status == CORRECT <==> guess[j] == target[j])
      invariant forall j :: 0 <= j < i ==> res[j].status != PRESENT
      invariant forall j :: i <= j < |pool| ==> pool[j] == target[j]
      invariant Accounted(res, pool, target)
    {
      if guess[i] == pool[i] {
        var e := LetterResult(guess[i], CORRECT);
        AppendLetter(res, pool, target, e, i);
        res, pool := res + [e], pool[i := Blank];
      } else {
        var e := LetterResult(guess[i], ABSENT);
        forall c { MarksAppend(res, e, c); }
        res := res + [e];
      }
      i := i + 1;
    }
  }

  /** Second pass of `compareWords`: each remaining letter takes the first unused copy in the pool. */
  method MarkPresent(guess: string, target: string, res0: seq<LetterResult>, pool0: string)
    returns (res: seq<LetterResult>, pool: string)
    requires |guess| <= |target|
    requires Aligned(guess, target, res0) && |pool0| == |target|
    requires forall j :: 0 <= j < |res0| ==> res0[j].status != PRESENT
    requires Accounted(res0, pool0, target)
    ensures Aligned(guess, target, res)
    ensures Accounted(res, pool, target)
    ensures forall j :: 0 <= j < |res| && res[j].status == ABSENT && guess[j] != Blank ==> guess[j] !in pool
    ensures forall j, k :: 0 <= j < k < |res| && guess[j] == guess[k] != Blank && res[j].status == ABSENT ==> res[k].status != PRESENT
  {
    res, pool := res0, pool0;
    var i := 0;
    while i < |guess|
      invariant 0 <= i <= |guess|
      invariant Aligned(guess, target, res) && |pool| == |target|
      invariant forall j :: i <= j < |res| ==> res[j].status != PRESENT
      invariant Accounted(res, pool, target)
      invariant forall j :: 0 <= j < i && res[j].status == ABSENT && guess[j] != Blank ==> guess[j] !in pool
      invariant forall j, k :: 0 <= j < k < i && guess[j] == guess[k] != Blank && res[j].status == ABSENT ==> res[k].status != PRESENT
    {
      if res[i].status == ABSENT {
        var index := IndexOf(pool, guess[i]);
        if index != -1 {
          var e := LetterResult(guess[i], PRESENT);
          UseLetter(res, pool, target, i, e, index);
          res, pool := res[i := e], pool[index := Blank];
        }
      }
      i := i + 1;
    }
  }

  /** Row `a` marks `c` wherever row `b` does. */
  ghost predicate Covers(a: seq<LetterResult>, b: seq<LetterResult>, c: char) {
    |a| == |b| && forall i :: 0 <= i < |a| && MarkOf(b[i], c) == 1 ==> MarkOf(a[i], c) == 1
  }

  lemma {:induction false} MarksCovers(a: seq<LetterResult>, b: seq<LetterResult>, c: char)
    requires Covers(a, b, c)
    ensures Marks(a, c) >= Marks(b, c)
  {
    if a != [] {
      var n := |a| - 1;
      MarksCovers(a[..n], b[..n], c);
    }
  }

  /** Covering with one extra mark at `k` counts at least one more. */
  lemma {:induction false} MarksCoversStrictly(a: seq<LetterResult>, b: seq<LetterResult>, c: char, k: int)
    requires Covers(a, b, c)
    requires 0 <= k < |a| && MarkOf(a[k], c) == 1 && MarkOf(b[k], c) == 0
    ensures Marks(a, c) > Marks(b, c)
  {
    var n := |a| - 1;
    if k == n {
      MarksCovers(a[..n], b[..n], c);
    } else {
      MarksCoversStrictly(a[..n], b[..n], c, k);
    }
  }

  /**
   * The Wordle rules pin the feedback down completely: two rows that both obey
   * them for the same guess and target are the same row. So `Feedback` is a full
   * reference definition of `compareWords`, not just a set of sanity checks.
   */
  lemma FeedbackUnique(guess: string, target: string, r1: seq<LetterResult>, r2: seq<LetterResult>)
    requires |guess| <= |target|
    requires Feedback(guess, target, r1) && Feedback(guess, target, r2)
    ensures r1 == r2
  {
    forall k | 0 <= k < |r1| ensures r1[k] == r2[k] {
      if r1[k].status == PRESENT {
        PresentAgrees(guess, target, r1, r2, k);
      } else if r2[k].status == PRESENT {
        PresentAgrees(guess, target, r2, r1, k);
      }
    }
  }

  /** A letter one rule-abiding row marks PRESENT is PRESENT in every other. */
  lemma PresentAgrees(guess: string, target: string, r1: seq<LetterResult>, r2: seq<LetterResult>, k: int)
    requires |guess| <= |target|
    requires Feedback(guess, target, r1) && Feedback(guess, target, r2)
    requires 0 <= k < |r1| && r1[k].status == PRESENT
    ensures r2[k].status == PRESENT
  {
    var c := guess[k];
    if r2[k].status != PRESENT {
      forall i | 0 <= i < |r1| && MarkOf(r2[i], c) == 1 ensures MarkOf(r1[i], c) == 1 {
        if i < k {
          assert r1[i].status != ABSENT;
        } else if i > k {
          assert r2[i].status == CORRECT;
        }
      }
      MarksCoversStrictly(r1, r2, c, k);
      assert false;
    }
  }

  /** A guess letter that does not occur in the target at all is ABSENT. */
  lemma AbsentWhenNotInTarget(guess: string, target: string, r: seq<LetterResult>, i: int)
    requires |guess| <= |target| && Feedback(guess, target, r)
    requires 0 <= i < |r| && guess[i] !in target
    ensures r[i].status == ABSENT
  {
    var c := guess[i];
    OccursPositive(target, c);
    MarksUpdate(r, i, LetterResult(c, ABSENT), c);
  }

  /**
   * The score of one round: `(7 - attempts) * 1000 - seconds`, never below zero, for
   * a won round and nothing for a lost one; a hint taken in the round costs another
   * 1000, again never below zero.
   */
  function RoundScore(won: bool, attempts: int, seconds: int, hintUsed: bool): (s: int)
    ensures s >= 0
    ensures !won ==> s == 0
    ensures seconds >= 0 ==> s <= Max0((7 - attempts) * 1000)
    ensures won && !hintUsed && seconds >= 0 && 1 <= attempts <= 6 ==> s > 0 || seconds >= (7 - attempts) * 1000
  {
    var base := if won then Max0((7 - attempts) * 1000 - seconds) else 0;
    if hintUsed then Max0(base - 1000) else base
  }

  /** Solving in fewer attempts, or faster, never scores less. */
  lemma RoundScoreMonotone(attempts: int, attempts': int, seconds: int, seconds': int, hintUsed: bool)
    requires attempts <= attempts' && seconds <= seconds'
    ensures RoundScore(true, attempts, seconds, hintUsed) >= RoundScore(true, attempts', seconds', hintUsed)
  {
  }

  /** The hint costs exactly 1000 points, as long as that many were earned. */
  lemma HintPenalty(won: bool, attempts: int, seconds: int)
    ensures RoundScore(won, attempts, seconds, true) <= RoundScore(won, attempts, seconds, false)
    ensures RoundScore(won, attempts, seconds, false) >= 1000 ==>
      RoundScore(won, attempts, seconds, true) == RoundScore(won, attempts, seconds, false) - 1000
  {
  }
}
