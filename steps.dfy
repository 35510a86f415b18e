/** The three scoring loops of the turn routine, as a specification: walk the
    `Moves` table in order, skip cells off the board, and keep a cell when its
    score is strictly greater than the best so far. */
module Steps {
  import opened Opt
  import opened Board
  import opened Dict

  /** The 15 in the greedy score `(15 - dist) * 2 + energy`. */
  const DistanceBase: int := 15

  /** The score of the approach loops: `(15 - dist) * 2 + energy`, with `dist`
      the Manhattan distance to `target`. */
  function TowardTarget(target: Pos, energy: Dict<int>): Pos -> int
  {
    n => (DistanceBase - Manhattan(n, target)) * 2 + EnergyAt(energy, n)
  }

  /** The score of the keyless loop: the energy of the cell. */
  function MostEnergy(energy: Dict<int>): Pos -> int
  {
    n => EnergyAt(energy, n)
  }

  /** The loop state: `best_move`, and `best_score` with None for minus infinity. */
  datatype Best = Best(move: Option<Pos>, score: Option<int>)

  predicate Beats(s: int, bar: Option<int>)
  {
    bar.None? || s > bar.value
  }

  /** The loop state after the first `k` entries of `Moves`, starting from the bar `init`. */
  function Scan(cur: Pos, score: Pos -> int, init: Option<int>, k: nat): (b: Best)
    requires k <= |Moves|
    ensures b.move.None? ==> b.score == init
    ensures b.move.Some? ==> InBoard(b.move.value) && Chebyshev(b.move.value, cur) == 1
    ensures b.move.Some? ==> b.score == Some(score(b.move.value))
  {
    if k == 0 then Best(None, init)
    else
      var b := Scan(cur, score, init, k - 1);
      var n := Step(cur, k - 1);
      if InBoard(n) && Beats(score(n), b.score) then Best(Some(n), Some(score(n)))
      else b
  }

  /** Independent reading of what the loop finds among the first `k` moves:
      move `i` lands on the board, clears the bar, scores at least as much as
      every move that lands on the board, and strictly more than every earlier one. */
  predicate IsFirstBest(cur: Pos, score: Pos -> int, init: Option<int>, k: nat, i: nat)
    requires k <= |Moves|
  {
    && i < k
    && InBoard(Step(cur, i))
    && Beats(score(Step(cur, i)), init)
    && (forall j :: 0 <= j < k && InBoard(Step(cur, j)) ==> score(Step(cur, j)) <= score(Step(cur, i)))
    && (forall j :: 0 <= j < i && InBoard(Step(cur, j)) ==> score(Step(cur, j)) < score(Step(cur, i)))
  }

  /** The scan finds the first best move, and finds none exactly when no move
      on the board clears the bar. */
  lemma {:induction false} ScanCorrect(cur: Pos, score: Pos -> int, init: Option<int>, k: nat)
    returns (i: nat)
    requires k <= |Moves|
    ensures var b := Scan(cur, score, init, k);
      b.move.None? <==> forall j :: 0 <= j < k && InBoard(Step(cur, j)) ==> !Beats(score(Step(cur, j)), init)
    ensures var b := Scan(cur, score, init, k);
      b.move.Some? ==> IsFirstBest(cur, score, init, k, i) && b.move.value == Step(cur, i)
  {
    ScanFindsNone(cur, score, init, k);
    i := ScanFindsFirstBest(cur, score, init, k);
  }

  lemma {:induction false} ScanFindsNone(cur: Pos, score: Pos -> int, init: Option<int>, k: nat)
    requires k <= |Moves|
    ensures Scan(cur, score, init, k).move.None? <==>
      forall j :: 0 <= j < k && InBoard(Step(cur, j)) ==> !Beats(score(Step(cur, j)), init)
  {
    if k > 0 {
      ScanFindsNone(cur, score, init, k - 1);
    }
  }

  lemma {:induction false} ScanFindsFirstBest(cur: Pos, score: Pos -> int, init: Option<int>, k: nat)
    returns (i: nat)
    requires k <= |Moves|
    ensures var b := Scan(cur, score, init, k);
      b.move.Some? ==> IsFirstBest(cur, score, init, k, i) && b.move.value == Step(cur, i)
  {
    if k == 0 {
      i := 0;
      return;
    }
    var i' := ScanFindsFirstBest(cur, score, init, k - 1);
    var prev := Scan(cur, score, init, k - 1);
    var n := Step(cur, k - 1);
    var s := score(n);
    assert Scan(cur, score, init, k) ==
      if InBoard(n) && Beats(s, prev.score) then Best(Some(n), Some(s)) else prev;
    if InBoard(n) && Beats(s, prev.score) {
      i := k - 1;
      if prev.move.Some? {
        ScanStepReplaces(cur, score, init, k, i');
      } else {
        ScanFindsNone(cur, score, init, k - 1);
        ScanStepFirst(cur, score, init, k);
      }
    } else {
      i := i';
      if prev.move.Some? {
        ScanStepKeeps(cur, score, init, k, i');
      }
    }
  }

  /** Inductive step of `ScanFindsFirstBest` when move `k - 1` is the first to clear the bar. */
  lemma ScanStepFirst(cur: Pos, score: Pos -> int, init: Option<int>, k: nat)
    requires 0 < k <= |Moves|
    requires forall j :: 0 <= j < k - 1 && InBoard(Step(cur, j)) ==> !Beats(score(Step(cur, j)), init)
    requires InBoard(Step(cur, k - 1)) && Beats(score(Step(cur, k - 1)), init)
    ensures IsFirstBest(cur, score, init, k, k - 1)
  {
  }

  /** Inductive step of `ScanFindsFirstBest` when move `k - 1` beats the best of the earlier ones. */
  lemma ScanStepReplaces(cur: Pos, score: Pos -> int, init: Option<int>, k: nat, i': nat)
    requires 0 < k <= |Moves|
    requires IsFirstBest(cur, score, init, k - 1, i')
    requires InBoard(Step(cur, k - 1))
    requires score(Step(cur, k - 1)) > score(Step(cur, i'))
    ensures IsFirstBest(cur, score, init, k, k - 1)
  {
  }

  /** Inductive step of `ScanFindsFirstBest` when move `k - 1` does not beat the best so far. */
  lemma ScanStepKeeps(cur: Pos, score: Pos -> int, init: Option<int>, k: nat, i': nat)
    requires 0 < k <= |Moves|
    requires IsFirstBest(cur, score, init, k - 1, i')
    requires InBoard(Step(cur, k - 1)) ==> score(Step(cur, k - 1)) <= score(Step(cur, i'))
    ensures IsFirstBest(cur, score, init, k, i')
  {
  }

  /** The first best move is unique, so `IsFirstBest` determines the loop's result. */
  lemma FirstBestUnique(cur: Pos, score: Pos -> int, init: Option<int>, k: nat, i: nat, i': nat)
    requires k <= |Moves|
    requires IsFirstBest(cur, score, init, k, i) && IsFirstBest(cur, score, init, k, i')
    ensures i == i'
  {
  }

  /** The greedy step of the approach loops: toward `target`, starting from minus infinity. */
  function GreedyStep(cur: Pos, target: Pos, energy: Dict<int>): Option<Pos>
  {
    Scan(cur, TowardTarget(target, energy), None, |Moves|).move
  }

  /** The step of the keyless loop: most energy, starting from the bar -1. */
  function RichestStep(cur: Pos, energy: Dict<int>): Option<Pos>
  {
    Scan(cur, MostEnergy(energy), Some(-1), |Moves|).move
  }

  /** The greedy step maximises `(15 - dist) * 2 + energy` over the neighbours on
      the board, the first in `Moves` order winning a tie; there is one whenever
      the bot stands on the board. */
  lemma GreedyStepIsBest(cur: Pos, target: Pos, energy: Dict<int>) returns (i: nat)
    ensures GreedyStep(cur, target, energy).None? <==> forall j :: 0 <= j < |Moves| ==> !InBoard(Step(cur, j))
    ensures GreedyStep(cur, target, energy).Some? ==>
      IsFirstBest(cur, TowardTarget(target, energy), None, |Moves|, i) && GreedyStep(cur, target, energy) == Some(Step(cur, i))
    ensures InBoard(cur) ==> GreedyStep(cur, target, energy).Some?
  {
    i := ScanCorrect(cur, TowardTarget(target, energy), None, |Moves|);
    if InBoard(cur) {
      var k := NeighbourOnBoard(cur);
    }
  }

  /** The keyless step goes to the neighbour on the board holding the most
      energy, the first in `Moves` order winning a tie; it needs energy of at
      least 0 to clear the initial bar of -1. */
  lemma RichestStepIsBest(cur: Pos, energy: Dict<int>) returns (i: nat)
    ensures RichestStep(cur, energy).None? <==>
      forall j :: 0 <= j < |Moves| && InBoard(Step(cur, j)) ==> EnergyAt(energy, Step(cur, j)) < 0
    ensures RichestStep(cur, energy).Some? ==>
      IsFirstBest(cur, MostEnergy(energy), Some(-1), |Moves|, i) && RichestStep(cur, energy) == Some(Step(cur, i))
  {
    i := ScanCorrect(cur, MostEnergy(energy), Some(-1), |Moves|);
  }

  /** With no negative energy anywhere, a bot on the board always finds a keyless step. */
  lemma RichestStepExists(cur: Pos, energy: Dict<int>)
    requires InBoard(cur)
    requires forall i :: 0 <= i < |energy| ==> energy[i].value >= 0
    ensures RichestStep(cur, energy).Some?
  {
    var k := NeighbourOnBoard(cur);
    var n := Step(cur, k);
    var _ := RichestStepIsBest(cur, energy);
    if Get(energy, n).Some? {
      assert Entry(n, Get(energy, n).value) in energy;
    }
    assert EnergyAt(energy, n) >= 0;
  }
}
