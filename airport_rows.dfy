/**
 * The planner page's airport rows: a label, and which of the add and remove
 * buttons the row carries. Rows are added at the end and removed anywhere;
 * only the last row offers the add button.
 */
module AirportRows {
  import opened Numbers

  datatype Row = Row(labelText: string, hasAdd: bool, hasRemove: bool)

  /** Only the last row has an add button. */
  predicate OnlyLastHasAdd(rows: seq<Row>) {
    forall i :: 0 <= i < |rows| ==> (rows[i].hasAdd <==> i == |rows| - 1)
  }

  /** The labels `updateLabels` gives: Departure, En Route 1 .. En Route n-2, Arrival. */
  function StandardLabel(i: nat, n: nat): string {
    if i == 0 then "Departure"
    else if i == n - 1 then "Arrival"
    else "En Route " + NatToString(i)
  }

  predicate StandardLabels(rows: seq<Row>) {
    forall i :: 0 <= i < |rows| ==> rows[i].labelText == StandardLabel(i, |rows|)
  }

  /** Different rows get different standard labels. */
  lemma StandardLabelsDistinct(i: nat, j: nat, n: nat)
    requires i < j < n
    ensures StandardLabel(i, n) != StandardLabel(j, n)
  {
    if 0 < i && j < n - 1 {
      NatToStringInjective(i, j);
      var a, b := NatToString(i), NatToString(j);
      assert ("En Route " + a)[9..] == a;
      assert ("En Route " + b)[9..] == b;
    } else if i == 0 && j < n - 1 {
      assert StandardLabel(j, n)[0] == 'E';
    } else if 0 < i {
      assert StandardLabel(i, n)[0] == 'E';
    }
  }

  function Relabelled(rows: seq<Row>): (r: seq<Row>)
    ensures |r| == |rows| && StandardLabels(r)
    ensures forall i :: 0 <= i < |rows| ==> r[i].hasAdd == rows[i].hasAdd && r[i].hasRemove == rows[i].hasRemove
  {
    seq(|rows|, i requires 0 <= i < |rows| => rows[i].(labelText := StandardLabel(i, |rows|)))
  }

  /** The label `addAirportInput` gives the new row when there are n rows. */
  function NewRowLabel(n: nat): string
    requires n >= 1
  {
    if n == 1 then "En Route"
    else if n == 2 then "Arrival"
    else "En Route " + NatToString(n - 1)
  }

  /**
   * `addAirportInput`: with two rows the second becomes "En Route 1"; the old
   * last row loses its add button; the new row has both buttons.
   */
  function AddedRows(rows: seq<Row>): seq<Row>
    requires |rows| >= 1
  {
    var n := |rows|;
    var relabelled := if n == 2 then rows[1 := rows[1].(labelText := "En Route 1")] else rows;
    relabelled[n - 1 := relabelled[n - 1].(hasAdd := false)] + [Row(NewRowLabel(n), true, true)]
  }

  /**
   * `removeAirportInput`: with one row nothing happens; otherwise the row goes,
   * every label is recomputed, and the new last row gets an add button if it
   * lacks one.
   */
  function RemovedRows(rows: seq<Row>, idx: nat): seq<Row>
    requires idx < |rows|
  {
    if |rows| <= 1 then rows
    else
      var rest := Relabelled(rows[..idx] + rows[idx + 1..]);
      var last := rest[|rest| - 1];
      if last.hasAdd then rest else rest[|rest| - 1 := last.(hasAdd := true)]
  }

  lemma AddKeepsOnlyLastAdd(rows: seq<Row>)
    requires |rows| >= 1 && OnlyLastHasAdd(rows)
    ensures |AddedRows(rows)| == |rows| + 1
    ensures OnlyLastHasAdd(AddedRows(rows))
    ensures AddedRows(rows)[..|rows| - 1] == rows[..|rows| - 1]
    ensures AddedRows(rows)[|rows|].hasAdd && AddedRows(rows)[|rows|].hasRemove
  {
  }

  /** Removal keeps the invariant and leaves the standard labels on all remaining rows. */
  lemma RemoveKeepsOnlyLastAdd(rows: seq<Row>, idx: nat)
    requires idx < |rows| && OnlyLastHasAdd(rows)
    ensures |rows| > 1 ==> |RemovedRows(rows, idx)| == |rows| - 1
    ensures OnlyLastHasAdd(RemovedRows(rows, idx))
    ensures |rows| > 1 ==> StandardLabels(RemovedRows(rows, idx))
  {
    if |rows| > 1 {
      var kept := rows[..idx] + rows[idx + 1..];
      forall i | 0 <= i < |kept| - 1 ensures !kept[i].hasAdd {
        if i < idx {
          assert kept[i] == rows[i];
        } else {
          assert kept[i] == rows[i + 1];
        }
      }
      var rest := Relabelled(kept);
      assert forall i :: 0 <= i < |rest| - 1 ==> !rest[i].hasAdd;
    }
  }

  /** The labels `addAirportInput` produces, read off from the initial row and three additions. */
  lemma ThreeAdditionsAsWritten()
    ensures var rows := AddedRows(AddedRows(AddedRows([Row("Departure", true, false)])));
      |rows| == 4 && rows[2].labelText == "Arrival" && rows[3].labelText == "En Route 2"
  {
    var r1 := AddedRows([Row("Departure", true, false)]);
    var r2 := AddedRows(r1);
    assert |r2| == 3 && r2[2].labelText == "Arrival";
    var r3 := AddedRows(r2);
    assert NatToString(2) == "2";
    assert r3[2].labelText == "Arrival";
  }

  /** The same rows are not standard: "Arrival" sits before the last row. */
  lemma AdditionLeavesNonStandardLabels()
    ensures !StandardLabels(AddedRows(AddedRows(AddedRows([Row("Departure", true, false)]))))
  {
    ThreeAdditionsAsWritten();
    var rows := AddedRows(AddedRows(AddedRows([Row("Departure", true, false)])));
    assert StandardLabel(2, 4) == "En Route " + NatToString(2);
    assert StandardLabel(2, 4)[0] == 'E';
  }

  /** Adding a row followed by the recomputation `updateLabels` performs. */
  function AddedRowsLabelled(rows: seq<Row>): seq<Row>
    requires |rows| >= 1
  {
    Relabelled(AddedRows(rows))
  }

  lemma AddLabelledIsStandard(rows: seq<Row>)
    requires |rows| >= 1 && OnlyLastHasAdd(rows)
    ensures |AddedRowsLabelled(rows)| == |rows| + 1
    ensures StandardLabels(AddedRowsLabelled(rows))
    ensures OnlyLastHasAdd(AddedRowsLabelled(rows))
    ensures AddedRowsLabelled(rows)[|rows|].labelText == "Arrival"
  {
    AddKeepsOnlyLastAdd(rows);
  }

  /** The row list of the page. */
  class AirportInputs {
    var rows: seq<Row>

    predicate Valid()
      reads this
    {
      |rows| >= 1 && OnlyLastHasAdd(rows)
    }

    /** The page starts with the departure row and its add button. */
    constructor()
      ensures Valid()
      ensures rows == [Row("Departure", true, false)]
    {
      rows := [Row("Departure", true, false)];
    }

    method AddAirportInput()
      requires Valid()
      modifies this
      ensures Valid()
      ensures rows == AddedRows(old(rows))
    {
      AddKeepsOnlyLastAdd(rows);
      var n := |rows|;
      var text;
      if n == 1 {
        text := "En Route";
      } else if n == 2 {
        text := "Arrival";
        rows := rows[1 := rows[1].(labelText := "En Route 1")];
      } else {
        text := "En Route " + NatToString(n - 1);
      }
      if rows[n - 1].hasAdd {
        rows := rows[n - 1 := rows[n - 1].(hasAdd := false)];
      }
      rows := rows + [Row(text, true, true)];
    }

    /** The addition with the label recomputation it lacks. */
    method AddAirportInputLabelled()
      requires Valid()
      modifies this
      ensures Valid() && StandardLabels(rows)
      ensures rows == AddedRowsLabelled(old(rows))
    {
      AddLabelledIsStandard(rows);
      AddAirportInput();
      UpdateLabels();
    }

    method UpdateLabels()
      modifies this
      ensures rows == Relabelled(old(rows))
    {
      var n := |rows|;
      ghost var before := rows;
      for i := 0 to n
        invariant |rows| == n
        invariant forall j :: 0 <= j < i ==> rows[j] == before[j].(labelText := StandardLabel(j, n))
        invariant forall j :: i <= j < n ==> rows[j] == before[j]
      {
        var text;
        if i == 0 {
          text := "Departure";
        } else if i == n - 1 {
          text := "Arrival";
        } else {
          text := "En Route " + NatToString(i);
        }
        rows := rows[i := rows[i].(labelText := text)];
      }
    }

    method RemoveAirportInput(idx: nat)
      requires Valid() && idx < |rows|
      modifies this
      ensures Valid()
      ensures rows == RemovedRows(old(rows), idx)
    {
      RemoveKeepsOnlyLastAdd(rows, idx);
      if |rows| <= 1 {
        return;
      }
      rows := rows[..idx] + rows[idx + 1..];
      UpdateLabels();
      var last := rows[|rows| - 1];
      if !last.hasAdd {
        rows := rows[|rows| - 1 := last.(hasAdd := true)];
      }
    }
  }
}
