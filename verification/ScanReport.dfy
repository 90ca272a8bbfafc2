/** What the report of the background scan says about the channels visited. */
module ScanReport {
  import opened ChannelScan

  /** Where the rows with a property are. */
  function Where(rows: seq<Row>, p: Row -> bool): set<nat> { set i: nat | i < |rows| && p(rows[i]) }

  function SumOf(rows: seq<Row>, f: Row -> nat): nat {
    if rows == [] then 0 else SumOf(rows[..|rows| - 1], f) + f(rows[|rows| - 1])
  }

  lemma OneMoreWhere(rows: seq<Row>, row: Row, p: Row -> bool)
    ensures Where(rows + [row], p) == Where(rows, p) + if p(row) then {|rows|} else {}
    ensures |Where(rows + [row], p)| == |Where(rows, p)| + if p(row) then 1 else 0
  {
    assert Where(rows + [row], p) == Where(rows, p) + if p(row) then {|rows|} else {};
  }

  predicate IsChecked(r: Row) { r.checkEnabled }
  predicate Fails(r: Row) { r.checkEnabled && r.check.Failed? }
  predicate Succeeds(r: Row) { r.checkEnabled && r.check.Checked? }
  predicate HasChanges(r: Row) {
    Succeeds(r) && (r.check.detected > 0 || r.check.autoAdded > 0 || r.check.removed > 0)
  }
  predicate IsStale(r: Row) { Succeeds(r) && r.check.changed }
  function Additions(r: Row): nat { if Succeeds(r) then r.check.detected + r.check.autoAdded else 0 }
  function Removals(r: Row): nat { if Succeeds(r) then r.check.removed else 0 }
  function Applied(r: Row): nat { if Succeeds(r) then r.check.autoAdded else 0 }

  /** What one more channel adds to the counters. */
  lemma CountedIs(r: Report, row: Row)
    ensures var next := Counted(r, row);
      && next.checked == r.checked + (if IsChecked(row) then 1 else 0)
      && next.changedChannels == r.changedChannels + (if HasChanges(row) then 1 else 0)
      && next.failedIds == r.failedIds + (if Fails(row) then [row.id] else [])
      && next.detectedAdd == r.detectedAdd + Additions(row) && next.detectedRemove == r.detectedRemove + Removals(row)
      && next.autoAdded == r.autoAdded + Applied(row)
      && (next.refreshNeeded <==> r.refreshNeeded || IsStale(row))
  {
  }

  lemma LastCounted(rows: seq<Row>)
    requires rows != []
    ensures Tally(rows) == Counted(Tally(rows[..|rows| - 1]), rows[|rows| - 1])
  {
  }

  lemma {:induction false} CheckedCount(rows: seq<Row>)
    ensures Tally(rows).checked == |Where(rows, IsChecked)|
  {
    if rows == [] {
      assert Where(rows, IsChecked) == {};
    } else {
      var init, last := rows[..|rows| - 1], rows[|rows| - 1];
      CheckedCount(init);
      LastCounted(rows);
      CountedIs(Tally(init), last);
      OneMoreWhere(init, last, IsChecked);
      assert rows == init + [last];
    }
  }

  lemma {:induction false} ChangedCount(rows: seq<Row>)
    ensures Tally(rows).changedChannels == |Where(rows, HasChanges)|
  {
    if rows == [] {
      assert Where(rows, HasChanges) == {};
    } else {
      var init, last := rows[..|rows| - 1], rows[|rows| - 1];
      ChangedCount(init);
      LastCounted(rows);
      CountedIs(Tally(init), last);
      OneMoreWhere(init, last, HasChanges);
      assert rows == init + [last];
    }
  }

  lemma {:induction false} FailedCount(rows: seq<Row>)
    ensures |Tally(rows).failedIds| == |Where(rows, Fails)|
  {
    if rows == [] {
      assert Where(rows, Fails) == {};
    } else {
      var init, last := rows[..|rows| - 1], rows[|rows| - 1];
      FailedCount(init);
      LastCounted(rows);
      CountedIs(Tally(init), last);
      OneMoreWhere(init, last, Fails);
      assert rows == init + [last];
    }
  }

  lemma {:induction false} SumsAre(rows: seq<Row>)
    ensures var r := Tally(rows);
      && r.detectedAdd == SumOf(rows, Additions) && r.detectedRemove == SumOf(rows, Removals)
      && r.autoAdded == SumOf(rows, Applied)
  {
    if rows != [] {
      SumsAre(rows[..|rows| - 1]);
      LastCounted(rows);
      CountedIs(Tally(rows[..|rows| - 1]), rows[|rows| - 1]);
    }
  }

  lemma {:induction false} RefreshIff(rows: seq<Row>)
    ensures Tally(rows).refreshNeeded <==> exists i :: 0 <= i < |rows| && IsStale(rows[i])
  {
    if rows != [] {
      var init, last := rows[..|rows| - 1], rows[|rows| - 1];
      RefreshIff(init);
      LastCounted(rows);
      CountedIs(Tally(init), last);
      if i :| 0 <= i < |init| && IsStale(init[i]) { assert IsStale(rows[i]); }
    }
  }

  /** What the counters say: how many channels were checked, how many have changes, how many failed, how
      much was found and applied in all, and whether any channel was changed. */
  lemma TallyIs(rows: seq<Row>)
    ensures var r := Tally(rows);
      && r.checked == |Where(rows, IsChecked)| && r.changedChannels == |Where(rows, HasChanges)|
      && |r.failedIds| == |Where(rows, Fails)|
      && r.detectedAdd == SumOf(rows, Additions) && r.detectedRemove == SumOf(rows, Removals)
      && r.autoAdded == SumOf(rows, Applied)
      && (r.refreshNeeded <==> exists i :: 0 <= i < |rows| && IsStale(rows[i]))
  {
    CheckedCount(rows);
    ChangedCount(rows);
    FailedCount(rows);
    SumsAre(rows);
    RefreshIff(rows);
  }

  /** The failed channels are listed in the order they were visited. */
  lemma {:induction false} FailedInOrder(rows: seq<Row>, i: nat)
    requires i < |rows| && Fails(rows[i])
    ensures var k := |Where(rows[..i], Fails)|; k < |Tally(rows).failedIds| && Tally(rows).failedIds[k] == rows[i].id
  {
    var init, last := rows[..|rows| - 1], rows[|rows| - 1];
    LastCounted(rows);
    CountedIs(Tally(init), last);
    if i < |init| {
      FailedInOrder(init, i);
      assert init[..i] == rows[..i];
    } else {
      FailedCount(init);
    }
  }
}
