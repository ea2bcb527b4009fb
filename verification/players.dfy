/** The seat names: editing one name, and the label of the round being played. */
module Players {

  /** Wind names in seating order. */
  const Winds: seq<string> := ["East", "South", "West", "North"]

  /** Editing seat `i`'s name: a copy of the list with that one entry replaced. */
  function UpdatePlayerName(names: seq<string>, newVal: string, i: nat): (r: seq<string>)
    requires i < |names|
    ensures |r| == |names|
    ensures r[i] == newVal
    ensures forall j :: 0 <= j < |names| && j != i ==> r[j] == names[j]
  {
    names[i := newVal]
  }

  /** Putting the old name back undoes an edit. */
  lemma UpdateUndo(names: seq<string>, newVal: string, i: nat)
    requires i < |names|
    ensures UpdatePlayerName(UpdatePlayerName(names, newVal, i), names[i], i) == names
  {
  }

  /** Edits to two different seats both survive, in either order. */
  lemma EditsAtDifferentSeatsCommute(names: seq<string>, a: string, i: nat, b: string, k: nat)
    requires i < |names| && k < |names| && i != k
    ensures UpdatePlayerName(UpdatePlayerName(names, a, i), b, k)
         == UpdatePlayerName(UpdatePlayerName(names, b, k), a, i)
    ensures UpdatePlayerName(UpdatePlayerName(names, a, i), b, k)[i] == a
  {
  }

  /** The handler as registered: memoised with an empty dependency list, it
      copies the names of the first render and ignores the current ones. */
  function UpdatePlayerNameAsWritten(firstRender: seq<string>, current: seq<string>, newVal: string, i: nat): (r: seq<string>)
    requires i < |firstRender|
    ensures |r| == |firstRender|
    ensures r[i] == newVal
    ensures forall j :: 0 <= j < |firstRender| && j != i ==> r[j] == firstRender[j]
  {
    firstRender[i := newVal]
  }

  /** Renaming seat 0 and then seat 1 loses the first edit. */
  lemma StaleUpdateRevertsEarlierEdit()
    ensures var first := Winds;
            var afterOne := UpdatePlayerNameAsWritten(first, first, "Ann", 0);
            var afterTwo := UpdatePlayerNameAsWritten(first, afterOne, "Bo", 1);
            afterOne[0] == "Ann" && afterTwo[0] == "East"
    ensures var afterOne := UpdatePlayerName(Winds, "Ann", 0);
            UpdatePlayerName(afterOne, "Bo", 1)[0] == "Ann"
  {
  }

  /** The label above the table. Wind and dealer are fixed at index 0:
      the round is always announced as East 1, dealt by seat 0. */
  function CurrentRoundName(names: seq<string>): (r: string)
    requires |names| > 0
    ensures |r| == |names[0]| + 15
    ensures r[..4] == Winds[0]
    ensures r[4..8] == " 1 ("
    ensures r[8..|r| - 7] == names[0]
    ensures r[|r| - 7..] == " deals)"
  {
    Winds[0] + " " + "1" + " (" + names[0] + " deals)"
  }

  /** The label names the dealer: two name lists get the same label exactly
      when their first names agree. */
  lemma RoundNameIdentifiesDealer(a: seq<string>, b: seq<string>)
    requires |a| > 0 && |b| > 0
    ensures CurrentRoundName(a) == CurrentRoundName(b) <==> a[0] == b[0]
  {
    if CurrentRoundName(a) == CurrentRoundName(b) {
      var r := CurrentRoundName(a);
      assert a[0] == r[8..|r| - 7] == b[0];
    }
  }
}
