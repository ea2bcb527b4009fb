/** The score sheet's state: player names and the append-only list of saved
    rounds, with the running totals shown under the table. */
module History {
  import opened Scoring
  import Players

  /** The sheet always has four seats; the totals row starts as four zeros. */
  const PlayerCount: nat := 4

  /** One saved row of the table. */
  datatype Round = Round(deltas: seq<int>)

  /** The outcome chosen in the form before saving a round. */
  datatype Outcome = Outcome(winner: nat, discarder: nat, fan: nat)

  datatype Game = Game(playerNames: seq<string>, results: seq<Round>)

  /** A fresh sheet: seats named after the winds, nothing saved. */
  const InitialGame: Game := Game(["East", "South", "West", "North"], [])

  /** An outcome the form can produce: both selects offer exactly the seats,
      the slider runs from 0 to `MaxFan`. */
  predicate ValidOutcome(g: Game, m: Outcome)
  {
    m.winner < |g.playerNames| && m.discarder < |g.playerNames| && m.fan <= MaxFan
  }

  /** Every saved row has `width` entries. */
  predicate Rectangular(rows: seq<Round>, width: nat)
  {
    forall i :: 0 <= i < |rows| ==> |rows[i].deltas| == width
  }

  /** Every saved row moves no points in or out of the game. */
  predicate ZeroSumRows(rows: seq<Round>)
  {
    forall i :: 0 <= i < |rows| ==> Sum(rows[i].deltas) == 0
  }

  /** The state invariant: four seats, and every row is a zero-sum vector
      with one entry per seat. */
  predicate Consistent(g: Game)
  {
    |g.playerNames| == PlayerCount && Rectangular(g.results, PlayerCount) && ZeroSumRows(g.results)
  }

  /** The preview row shown under the form. */
  function Preview(g: Game, m: Outcome): (r: seq<int>)
    requires ValidOutcome(g, m)
    ensures |r| == |g.playerNames|
    ensures Sum(r) == 0
  {
    ComputeScoreDeltas(|g.playerNames|, m.winner, m.discarder, m.fan)
  }

  /** The Save button: the previewed row is appended to the results and
      nothing already saved changes. */
  function Save(g: Game, m: Outcome): (g': Game)
    requires ValidOutcome(g, m)
    ensures g'.playerNames == g.playerNames
    ensures |g'.results| == |g.results| + 1
    ensures g'.results[..|g.results|] == g.results
    ensures g'.results[|g.results|].deltas == Preview(g, m)
  {
    g.(results := g.results + [Round(Preview(g, m))])
  }

  /** Editing a seat's name leaves the saved rounds alone. */
  function Rename(g: Game, newVal: string, i: nat): (g': Game)
    requires i < |g.playerNames|
    ensures g'.results == g.results
    ensures |g'.playerNames| == |g.playerNames|
    ensures g'.playerNames[i] == newVal
  {
    g.(playerNames := Players.UpdatePlayerName(g.playerNames, newVal, i))
  }

  /** Player `j`'s total: the sum of column `j` over the saved rows, in order. */
  function ColumnSum(rows: seq<Round>, j: nat): int
    requires forall i :: 0 <= i < |rows| ==> j < |rows[i].deltas|
  {
    if |rows| == 0 then 0
    else ColumnSum(rows[..|rows| - 1], j) + rows[|rows| - 1].deltas[j]
  }

  /** The totals row as a value: one column sum per seat. */
  function Totals(rows: seq<Round>): seq<int>
    requires Rectangular(rows, PlayerCount)
  {
    seq(PlayerCount, j requires 0 <= j < PlayerCount => ColumnSum(rows, j))
  }

  /** Entry-wise sum of two vectors of the same length. */
  function AddVectors(a: seq<int>, b: seq<int>): (r: seq<int>)
    requires |a| == |b|
    ensures |r| == |a|
  {
    seq(|a|, j requires 0 <= j < |a| => a[j] + b[j])
  }

  lemma {:induction false} SumAddVectors(a: seq<int>, b: seq<int>)
    requires |a| == |b|
    ensures Sum(AddVectors(a, b)) == Sum(a) + Sum(b)
  {
    if |a| > 0 {
      var k := |a| - 1;
      assert AddVectors(a, b)[..k] == AddVectors(a[..k], b[..k]);
      SumAddVectors(a[..k], b[..k]);
    }
  }

  /** The totals row as the render loop builds it: start from four zeros,
      then add every entry of every row into its column. */
  method CurrentScores(results: seq<Round>) returns (scores: seq<int>)
    requires Rectangular(results, PlayerCount)
    ensures |scores| == PlayerCount
    ensures forall j :: 0 <= j < PlayerCount ==> scores[j] == ColumnSum(results, j)
    ensures ZeroSumRows(results) ==> Sum(scores) == 0
  {
    scores := [0, 0, 0, 0];
    var i := 0;
    while i < |results|
      invariant 0 <= i <= |results|
      invariant |scores| == PlayerCount
      invariant forall j :: 0 <= j < PlayerCount ==> scores[j] == ColumnSum(results[..i], j)
    {
      var row := results[i].deltas;
      assert results[..i + 1][..i] == results[..i];
      var j := 0;
      while j < |row|
        invariant 0 <= j <= |row|
        invariant |scores| == PlayerCount
        invariant forall k :: 0 <= k < j ==> scores[k] == ColumnSum(results[..i + 1], k)
        invariant forall k :: j <= k < PlayerCount ==> scores[k] == ColumnSum(results[..i], k)
      {
        scores := scores[j := scores[j] + row[j]];
        j := j + 1;
      }
      i := i + 1;
    }
    assert results[..i] == results;
    assert scores == Totals(results);
    if ZeroSumRows(results) {
      TotalsZeroSum(results);
    }
  }

  /** Saving a row adds that row's entry to each player's total. */
  lemma {:induction false} TotalsAppend(rows: seq<Round>, row: Round)
    requires Rectangular(rows, PlayerCount) && |row.deltas| == PlayerCount
    ensures Rectangular(rows + [row], PlayerCount)
    ensures Totals(rows + [row]) == AddVectors(Totals(rows), row.deltas)
  {
  }

  /** When every row is zero-sum, so is the totals row. */
  lemma {:induction false} TotalsZeroSum(rows: seq<Round>)
    requires Rectangular(rows, PlayerCount) && ZeroSumRows(rows)
    ensures Sum(Totals(rows)) == 0
  {
    if |rows| == 0 {
      assert Totals(rows) == Constant(PlayerCount, 0);
      SumConstant(PlayerCount, 0);
    } else {
      var k := |rows| - 1;
      var prefix, last := rows[..k], rows[k];
      assert rows == prefix + [last];
      TotalsZeroSum(prefix);
      TotalsAppend(prefix, last);
      SumAddVectors(Totals(prefix), last.deltas);
    }
  }

  lemma InitialGameConsistent()
    ensures Consistent(InitialGame)
    ensures Totals(InitialGame.results) == [0, 0, 0, 0]
  {
  }

  /** Saving any outcome the form allows keeps the state invariant. */
  lemma SavePreservesConsistent(g: Game, m: Outcome)
    requires Consistent(g) && ValidOutcome(g, m)
    ensures Consistent(Save(g, m))
  {
  }

  /** After a save each total moves by exactly the new row's entry, and the
      totals still sum to zero. */
  lemma SaveUpdatesTotals(g: Game, m: Outcome)
    requires Consistent(g) && ValidOutcome(g, m)
    ensures Rectangular(Save(g, m).results, PlayerCount)
    ensures forall j :: 0 <= j < PlayerCount ==>
      Totals(Save(g, m).results)[j] == Totals(g.results)[j] + Preview(g, m)[j]
    ensures Sum(Totals(Save(g, m).results)) == 0
  {
    TotalsAppend(g.results, Round(Preview(g, m)));
    SavePreservesConsistent(g, m);
    TotalsZeroSum(Save(g, m).results);
  }

  /** Renaming a seat keeps the state invariant and every total. */
  lemma RenamePreservesConsistent(g: Game, newVal: string, i: nat)
    requires Consistent(g) && i < |g.playerNames|
    ensures Consistent(Rename(g, newVal, i))
    ensures Totals(Rename(g, newVal, i).results) == Totals(g.results)
  {
  }
}
