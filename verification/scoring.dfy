/** Per-round point transfers of the score sheet: the fan-to-points table and
    the delta vector computed from one round's winner, discarding player and
    fan count. */
module Scoring {

  /** Points each losing player pays, indexed by the hand's fan count. */
  const ScoreTable: seq<int> := [0, 1, 2, 4, 8, 12, 16, 24, 32, 48, 64, 96, 128, 192, 256]

  /** The fan slider runs from 0 to this value. */
  const MaxFan: nat := 13

  /** Total of a vector, added up from the left starting at 0. */
  function Sum(s: seq<int>): int
  {
    if |s| == 0 then 0 else Sum(s[..|s| - 1]) + s[|s| - 1]
  }

  /** A vector of `n` copies of `c`. */
  function Constant(n: nat, c: int): (r: seq<int>)
    ensures |r| == n
  {
    seq(n, _ => c)
  }

  lemma {:induction false} SumConstant(n: nat, c: int)
    ensures Sum(Constant(n, c)) == n * c
  {
    if n > 0 {
      assert Constant(n, c)[..n - 1] == Constant(n - 1, c);
      SumConstant(n - 1, c);
    }
  }

  /** Overwriting one entry moves the total by the difference. */
  lemma {:induction false} SumUpdate(s: seq<int>, k: nat, v: int)
    requires k < |s|
    ensures Sum(s[k := v]) == Sum(s) - s[k] + v
  {
    var last := |s| - 1;
    if k == last {
      assert s[k := v][..last] == s[..last];
    } else {
      assert s[k := v][..last] == s[..last][k := v];
      SumUpdate(s[..last], k, v);
    }
  }

  /** Every player other than the winner starts at minus the base value;
      the winner's slot starts at 0 (one entry per player). */
  function InitialDeltas(n: nat, winner: nat, base: int): seq<int>
  {
    seq(n, i => if i == winner then 0 else -base)
  }

  /** Doubles entry `k`, leaving the others as they are. */
  function DoubleAt(deltas: seq<int>, k: nat): seq<int>
    requires k < |deltas|
  {
    deltas[k := deltas[k] * 2]
  }

  /** Doubles every entry. */
  function DoubleAll(deltas: seq<int>): seq<int>
  {
    seq(|deltas|, i requires 0 <= i < |deltas| => deltas[i] * 2)
  }

  /** The vector just before the winner's slot is filled in: initial losses,
      the discarder's entry doubled, and on a self-draw every entry doubled. */
  function Unsettled(n: nat, winner: nat, discarder: nat, fan: nat): seq<int>
    requires winner < n && discarder < n && fan < |ScoreTable|
  {
    var doubled := DoubleAt(InitialDeltas(n, winner, ScoreTable[fan]), discarder);
    if winner == discarder then DoubleAll(doubled) else doubled
  }

  /** The round's payment vector: the winner receives what everybody else pays. */
  function ComputeScoreDeltas(n: nat, winner: nat, discarder: nat, fan: nat): (r: seq<int>)
    requires winner < n && discarder < n && fan < |ScoreTable|
    ensures |r| == n
    ensures Sum(r) == 0
  {
    var pending := Unsettled(n, winner, discarder, fan);
    SumUpdate(pending, winner, -Sum(pending));
    pending[winner := -Sum(pending)]
  }

  /** Closed form of each player's delta, stated independently of the
      step-by-step computation. */
  function ExpectedDelta(n: nat, winner: nat, discarder: nat, fan: nat, i: nat): int
    requires fan < |ScoreTable|
  {
    var base := ScoreTable[fan];
    if winner == discarder then
      (if i == winner then 2 * (n - 1) * base else -2 * base)
    else if i == winner then n * base
    else if i == discarder then -2 * base
    else -base
  }

  /** One entry per player, and the winner's slot is still 0 when the
      others' losses are summed. */
  lemma UnsettledShape(n: nat, winner: nat, discarder: nat, fan: nat)
    requires winner < n && discarder < n && fan < |ScoreTable|
    ensures |Unsettled(n, winner, discarder, fan)| == n
    ensures Unsettled(n, winner, discarder, fan)[winner] == 0
    ensures forall i :: 0 <= i < n && i != winner ==>
      Unsettled(n, winner, discarder, fan)[i] == ExpectedDelta(n, winner, discarder, fan, i)
  {
  }

  /** Bystanders pay `base`, the discarder pays double, the winner's slot is 0. */
  lemma SumDiscardLosses(n: nat, winner: nat, discarder: nat, base: int)
    requires winner < n && discarder < n && winner != discarder
    ensures Sum(Constant(n, -base)[winner := 0][discarder := -2 * base]) == -(n * base)
  {
    var c := Constant(n, -base);
    SumConstant(n, -base);
    SumUpdate(c, winner, 0);
    SumUpdate(c[winner := 0], discarder, -2 * base);
  }

  /** Everybody but the winner pays double `base`, the winner's slot is 0. */
  lemma SumSelfDrawLosses(n: nat, winner: nat, base: int)
    requires winner < n
    ensures Sum(Constant(n, -2 * base)[winner := 0]) == -(2 * (n - 1) * base)
  {
    SumConstant(n, -2 * base);
    SumUpdate(Constant(n, -2 * base), winner, 0);
  }

  /** What everybody other than the winner pays in total. */
  lemma UnsettledTotal(n: nat, winner: nat, discarder: nat, fan: nat)
    requires winner < n && discarder < n && fan < |ScoreTable|
    ensures Sum(Unsettled(n, winner, discarder, fan)) == -ExpectedDelta(n, winner, discarder, fan, winner)
  {
    var base := ScoreTable[fan];
    var pending := Unsettled(n, winner, discarder, fan);
    UnsettledShape(n, winner, discarder, fan);
    if winner == discarder {
      assert pending == Constant(n, -2 * base)[winner := 0];
      SumSelfDrawLosses(n, winner, base);
    } else {
      assert pending == Constant(n, -base)[winner := 0][discarder := -2 * base];
      SumDiscardLosses(n, winner, discarder, base);
    }
  }

  /** Every entry of the computed vector equals the closed form. */
  lemma ComputeMatchesExpected(n: nat, winner: nat, discarder: nat, fan: nat)
    requires winner < n && discarder < n && fan < |ScoreTable|
    ensures forall i :: 0 <= i < n ==>
      ComputeScoreDeltas(n, winner, discarder, fan)[i] == ExpectedDelta(n, winner, discarder, fan, i)
  {
    UnsettledShape(n, winner, discarder, fan);
    UnsettledTotal(n, winner, discarder, fan);
  }

  /** A discard win: bystanders pay the base value, the discarder pays
      double, and the winner collects `n` times the base value. */
  lemma DiscardWinPayments(n: nat, winner: nat, discarder: nat, fan: nat)
    requires winner < n && discarder < n && fan < |ScoreTable|
    requires winner != discarder
    ensures forall i :: 0 <= i < n && i != winner && i != discarder ==>
      ComputeScoreDeltas(n, winner, discarder, fan)[i] == -ScoreTable[fan]
    ensures ComputeScoreDeltas(n, winner, discarder, fan)[discarder] == -2 * ScoreTable[fan]
    ensures ComputeScoreDeltas(n, winner, discarder, fan)[winner] == n * ScoreTable[fan]
  {
    ComputeMatchesExpected(n, winner, discarder, fan);
  }

  /** A self-draw: every other player pays double the base value and the
      winner collects `2 * (n - 1)` times the base value. */
  lemma SelfDrawPayments(n: nat, winner: nat, fan: nat)
    requires winner < n && fan < |ScoreTable|
    ensures forall i :: 0 <= i < n && i != winner ==>
      ComputeScoreDeltas(n, winner, winner, fan)[i] == -2 * ScoreTable[fan]
    ensures ComputeScoreDeltas(n, winner, winner, fan)[winner] == 2 * (n - 1) * ScoreTable[fan]
  {
    ComputeMatchesExpected(n, winner, winner, fan);
  }

  /** The table never decreases as the fan count grows. */
  lemma ScoreTableNonDecreasing(f: nat, g: nat)
    requires f <= g < |ScoreTable|
    ensures 0 <= ScoreTable[f] <= ScoreTable[g]
  {
  }

  /** More fan never makes a loser pay less or the winner collect less. */
  lemma PaymentsMonotoneInFan(n: nat, winner: nat, discarder: nat, f: nat, g: nat)
    requires winner < n && discarder < n && f <= g < |ScoreTable|
    ensures forall i :: 0 <= i < n && i != winner ==>
      ComputeScoreDeltas(n, winner, discarder, g)[i] <= ComputeScoreDeltas(n, winner, discarder, f)[i] <= 0
    ensures 0 <= ComputeScoreDeltas(n, winner, discarder, f)[winner] <= ComputeScoreDeltas(n, winner, discarder, g)[winner]
  {
    ComputeMatchesExpected(n, winner, discarder, f);
    ComputeMatchesExpected(n, winner, discarder, g);
    ScoreTableNonDecreasing(f, g);
    var bf, bg := ScoreTable[f], ScoreTable[g];
    if winner == discarder {
      MulMonotone(2 * (n - 1), bf, bg);
    } else {
      MulMonotone(n, bf, bg);
    }
  }

  lemma {:induction false} MulMonotone(k: nat, a: int, b: int)
    requires 0 <= a <= b
    ensures 0 <= k * a <= k * b
  {
    if k > 0 {
      MulMonotone(k - 1, a, b);
    }
  }

  /** Zero fan moves no points at all: there is no minimum payment. */
  lemma ZeroFanTransfersNothing(n: nat, winner: nat, discarder: nat)
    requires winner < n && discarder < n
    ensures forall i :: 0 <= i < n ==> ComputeScoreDeltas(n, winner, discarder, 0)[i] == 0
  {
    ComputeMatchesExpected(n, winner, discarder, 0);
  }

  /** Three fan, player 0 wins off player 2's discard. */
  lemma ExampleDiscardWin()
    ensures ComputeScoreDeltas(4, 0, 2, 3) == [16, -4, -8, -4]
  {
    ComputeMatchesExpected(4, 0, 2, 3);
  }

  /** Three fan, player 0 wins by self-draw. */
  lemma ExampleSelfDraw()
    ensures ComputeScoreDeltas(4, 0, 0, 3) == [24, -8, -8, -8]
  {
    ComputeMatchesExpected(4, 0, 0, 3);
  }
}
