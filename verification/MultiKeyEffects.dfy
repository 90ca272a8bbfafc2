/**
What each action does to the rows that a channel with plain keys shows, row by row, and what an append
adds to them.
*/
module MultiKeyEffects {
  import opened Basics
  import opened Separated
  import opened ModelNames
  import opened KeyText
  import opened KeyListing
  import opened MultiKey
  import opened MultiKeyProperties

  // ---------- the actions ----------

  lemma PlainStep(s: Stored, action: Action, arrays: Arrays)
    requires PlainStored(s, arrays) && !(action.DeleteAutoDisabled? && AllAuto(Shown(s, arrays)))
    ensures Shown(StoredStep(s, action, arrays), arrays) == Apply(Shown(s, arrays), action)
  {
    PlainGuard(s, action, arrays);
    StepShowsIff(s, action, arrays);
  }

  /** Disabling and enabling change the status of exactly the rows they are for. Disabling keeps time and
      reason, enabling forgets them. */
  lemma StatusEffects(s: Stored, action: Action, arrays: Arrays)
    requires PlainStored(s, arrays) && !action.DeleteKey? && !action.DeleteAutoDisabled?
    ensures var before, after := Shown(s, arrays), Shown(StoredStep(s, action, arrays), arrays);
      && |after| == |before|
      && forall i | 0 <= i < |before| ::
           var row := before[i];
           after[i] == match action
             case DisableKey(k) => if i == k then Row(row.key, 2, row.time, row.reason) else row
             case EnableKey(k) => if i == k then Row(row.key, 1, 0, "") else row
             case EnableAll => Row(row.key, 1, 0, "")
             case DisableAll => if row.status == 1 then Row(row.key, 2, row.time, row.reason) else row
             case _ => row
  {
    PlainStep(s, action, arrays);
    StatusesApplied(Shown(s, arrays), action);
  }

  lemma StatusesApplied(before: seq<Row>, action: Action)
    requires !action.DeleteKey? && !action.DeleteAutoDisabled?
    ensures var after := Apply(before, action);
      && |after| == |before|
      && forall i | 0 <= i < |before| ::
           var row := before[i];
           after[i] == match action
             case DisableKey(k) => if i == k then Row(row.key, 2, row.time, row.reason) else row
             case EnableKey(k) => if i == k then Row(row.key, 1, 0, "") else row
             case EnableAll => Row(row.key, 1, 0, "")
             case DisableAll => if row.status == 1 then Row(row.key, 2, row.time, row.reason) else row
             case _ => row
  {
  }

  /** Deleting a key takes out its row, and no other, unless it is the last one. */
  lemma DeletionEffect(s: Stored, k: int, arrays: Arrays)
    requires PlainStored(s, arrays)
    ensures var before, after := Shown(s, arrays), Shown(StoredStep(s, DeleteKey(k), arrays), arrays);
      if 0 <= k < |before| && |before| > 1 then
        && |after| == |before| - 1
        && forall i | 0 <= i < |after| :: after[i] == before[if i < k then i else i + 1]
      else after == before
  {
    PlainStep(s, DeleteKey(k), arrays);
    Dropped(Shown(s, arrays), k);
  }

  lemma DroppedAt(rows: seq<Row>, k: nat, i: nat)
    requires k < |rows| && i < |rows| - 1
    ensures |Drop(rows, k)| == |rows| - 1
    ensures Drop(rows, k)[i] == rows[if i < k then i else i + 1]
  {
  }

  lemma Dropped(before: seq<Row>, k: int)
    ensures var after := Apply(before, DeleteKey(k));
      if 0 <= k < |before| && |before| > 1 then
        && |after| == |before| - 1
        && forall i | 0 <= i < |after| :: after[i] == before[if i < k then i else i + 1]
      else after == before
  {
    if 0 <= k < |before| && |before| > 1 {
      DroppedAt(before, k, 0);
      forall i | 0 <= i < |before| - 1 ensures Drop(before, k)[i] == before[if i < k then i else i + 1] {
        DroppedAt(before, k, i);
      }
    }
  }

  function NotAutoRows(rows: seq<Row>): set<nat> { set j: nat | j < |rows| && rows[j].status != 3 }

  lemma OneMoreNotAuto(rows: seq<Row>, last: Row)
    ensures |NotAutoRows(rows + [last])| == |NotAutoRows(rows)| + if last.status != 3 then 1 else 0
  {
    assert NotAutoRows(rows + [last]) == NotAutoRows(rows) + if last.status != 3 then {|rows|} else {};
  }

  lemma {:induction false} SurvivorsCount(rows: seq<Row>)
    ensures |Survivors(rows)| == |NotAutoRows(rows)|
  {
    if rows != [] {
      SurvivorsCount(rows[..|rows| - 1]);
      OneMoreNotAuto(rows[..|rows| - 1], rows[|rows| - 1]);
      assert rows == rows[..|rows| - 1] + [rows[|rows| - 1]];
    }
  }

  /** The rows that survive a sweep, in order, those of enabled keys without time and reason. */
  lemma {:induction false} SurvivorAt(rows: seq<Row>, i: nat)
    requires i < |rows| && rows[i].status != 3
    ensures var at := |NotAutoRows(rows[..i])|;
      && at < |Survivors(rows)|
      && Survivors(rows)[at] == if rows[i].status == 1 then Row(rows[i].key, 1, 0, "") else rows[i]
  {
    var init := rows[..|rows| - 1];
    if i < |init| {
      SurvivorAt(init, i);
      assert init[..i] == rows[..i];
    } else {
      SurvivorsCount(init);
    }
  }

  /** Deleting the automatically disabled keys takes out exactly their rows. When there are no others, it
      takes out none and enables all. */
  lemma SweepEffect(s: Stored, arrays: Arrays, i: nat)
    requires PlainStored(s, arrays) && i < |Shown(s, arrays)|
    ensures var before, after := Shown(s, arrays), Shown(StoredStep(s, DeleteAutoDisabled, arrays), arrays);
      var row, at := before[i], |NotAutoRows(before[..i])|;
      if |NotAutoRows(before)| == |before| then after == before
      else if |NotAutoRows(before)| == 0 then |after| == |before| && after[i] == Row(row.key, 1, 0, "")
      else
        && |after| == |NotAutoRows(before)|
        && (row.status != 3 ==>
              at < |after| && after[at] == if row.status == 1 then Row(row.key, 1, 0, "") else row)
  {
    var before := Shown(s, arrays);
    SurvivorsCount(before);
    AutoCount(before);
    if before[i].status != 3 { SurvivorAt(before, i); }
    if AllAuto(before) {
      SweepOfAllEnables(s, arrays);
    } else {
      PlainStep(s, DeleteAutoDisabled, arrays);
    }
  }

  lemma {:induction false} AutoCount(rows: seq<Row>)
    ensures CountStatus(rows, AUTO_DISABLED) + |NotAutoRows(rows)| == |rows|
  {
    if rows != [] {
      AutoCount(rows[..|rows| - 1]);
      OneMoreNotAuto(rows[..|rows| - 1], rows[|rows| - 1]);
      assert rows == rows[..|rows| - 1] + [rows[|rows| - 1]];
    }
  }

  function EnabledAmong(info: Info, n: nat): set<nat> {
    set i: nat | i < n && (i in info.status ==> info.status[i] == 1)
  }

  /** The number of keys that are disabled when all are. */
  lemma {:induction false} EnabledCount(info: Info, n: nat)
    ensures EnabledBelow(info, n) == |EnabledAmong(info, n)|
  {
    if n > 0 {
      EnabledCount(info, n - 1);
      assert EnabledAmong(info, n)
          == EnabledAmong(info, n - 1) + if StatusAt(info, n - 1) == ENABLED then {n - 1} else {};
    }
  }

  /** What storing does to the records: their number is counted anew, the statuses behind it are dropped,
      and nothing else changes. An empty text leaves the stored one. */
  lemma StoringEffect(s: Stored, text: string, info: Info, arrays: Arrays)
    ensures var next := Updated(s, text, info, arrays);
      && next.text == (if text == "" then s.text else text)
      && next.info.size == CountKeys(next.text, arrays)
      && next.info.time == info.time && next.info.reason == info.reason
      && (forall i :: i in next.info.status <==> i in info.status && i < next.info.size)
      && forall i | i in next.info.status :: next.info.status[i] == info.status[i]
  {
  }

  // ---------- appending ----------

  /** Lines of which none begins like an array. */
  ghost predicate PlainLines(input: string) {
    forall line | line in SplitBy(input, '\n') && Trim(line) != "" :: Trim(line)[0] != '['
  }

  /** The lines that are no existing key, trimmed, each once and in order of first occurrence. */
  ghost predicate Adds(keys: seq<string>, input: string, more: seq<string>) {
    var lines := SplitBy(input, '\n');
    && Distinct(more)
    && (forall x :: x in more <==>
          && x != "" && (exists line :: line in lines && Trim(line) == x)
          && !(exists key :: key in keys && Trim(key) == x))
    && forall i: nat, j: nat | i < j < |more| :: OccurBefore(lines, more[i], more[j])
  }

  ghost predicate OccurBefore(lines: seq<string>, x: string, y: string) {
    exists m: nat, n: nat :: m < n && FirstAt(lines, m, x) && FirstAt(lines, n, y)
  }

  lemma NewKeysAdd(keys: seq<string>, input: string)
    ensures Adds(keys, input, NewKeys(keys, input))
  {
    var lines, more := SplitBy(input, '\n'), NewKeys(keys, input);
    NormalizeIsNormalized(lines);
    NormalizeIsNormalized(keys);
    WithoutNormalized(Normalize(lines), Names(Normalize(keys)));
    NewKeysMembers(keys, input);
    forall i: nat, j: nat | i < j < |more| ensures OccurBefore(lines, more[i], more[j]) {
      assert Before(more, more[i], more[j]);
      WithoutOrder(Normalize(lines), Names(Normalize(keys)), more[i], more[j]);
      OrderedLines(lines, more[i], more[j]);
    }
  }

  lemma NewKeysMembers(keys: seq<string>, input: string)
    ensures forall x :: x in NewKeys(keys, input) <==>
      && x != "" && (exists line :: line in SplitBy(input, '\n') && Trim(line) == x)
      && !(exists key :: key in keys && Trim(key) == x)
  {
    NormalizeIsNormalized(SplitBy(input, '\n'));
    NormalizeIsNormalized(keys);
    WithoutMembers(Normalize(SplitBy(input, '\n')), Names(Normalize(keys)));
  }

  lemma OrderedLines(lines: seq<string>, x: string, y: string)
    requires Before(Normalize(lines), x, y)
    ensures OccurBefore(lines, x, y)
  {
    var i, j :| 0 <= i < j < |Normalize(lines)| && Normalize(lines)[i] == x && Normalize(lines)[j] == y;
    var m, n := NormalizeOrder(lines, i, j);
  }

  lemma AddedPlain(keys: seq<string>, input: string)
    requires PlainLines(input)
    ensures Plain(NewKeys(keys, input))
  {
    NewKeysMembers(keys, input);
    NewKeysPlain(keys, input);
    forall k | k in NewKeys(keys, input) ensures PlainKey(k) {
      var line :| line in SplitBy(input, '\n') && Trim(line) == k;
      TrimIsTrimmed(line);
      TrimIsTrimmed(k);
    }
  }

  lemma {:induction false} SplitFirst(s: string, sep: char) returns (more: string)
    ensures s == SplitBy(s, sep)[0] + more
  {
    if s == "" || s[0] == sep {
      more := s;
    } else {
      more := SplitFirst(s[1..], sep);
    }
  }

  /** Stripping line breaks does not change what stands first. */
  lemma {:induction false} StripKeepsFirst(s: string)
    requires Trim(Strip(s, '\n')) != ""
    ensures Trim(s) != "" && Trim(s)[0] == Trim(Strip(s, '\n'))[0]
  {
    if s != "" && s[0] == '\n' {
      StripKeepsFirst(s[1..]);
    } else if s != "" && s[|s| - 1] == '\n' {
      StripKeepsFirst(s[..|s| - 1]);
      PlainFirst(s[..|s| - 1], "\n");
      assert s == s[..|s| - 1] + "\n";
    }
  }

  /** The existing keys as an append parses them are the keys, when these are plain. */
  lemma PlainExisting(s: Stored, arrays: Arrays)
    requires PlainStored(s, arrays) && s.text != ""
    ensures Existing(s.text, arrays) == GetKeys(s.text, arrays)
  {
    if !IsArray(s.text, arrays) {
      var keys := Lines(s.text);
      assert PlainKey(keys[0]);
      var more := SplitFirst(Strip(s.text, '\n'), '\n');
      PlainFirst(keys[0], more);
      StripKeepsFirst(s.text);
    }
  }

  function NewRows(more: seq<string>): seq<Row> {
    seq(|more|, i requires 0 <= i < |more| => Row(more[i], 1, 0, ""))
  }

  lemma RowsAppended(keys: seq<string>, more: seq<string>, info: Info)
    requires forall i | i in info.status || i in info.time || i in info.reason :: i < |keys|
    ensures Rows(keys + more, info) == Rows(keys, info) + NewRows(more)
  {
    forall i | 0 <= i < |keys + more|
      ensures Rows(keys + more, info)[i] == (Rows(keys, info) + NewRows(more))[i]
    {
    }
  }

  /** Appending to plain keys: the old rows stay, each with its own records, and behind them comes an
      enabled row for every new line. */
  lemma AppendEffect(s: Stored, input: string, arrays: Arrays)
    requires PlainStored(s, arrays) && InRange(s, arrays) && PlainLines(input) && s.text != ""
    ensures exists more ::
      && Adds(GetKeys(s.text, arrays), input, more)
      && Shown(AppendStep(s, input, arrays), arrays) == Shown(s, arrays) + NewRows(more)
  {
    var keys := GetKeys(s.text, arrays);
    var more := NewKeys(keys, input);
    var all := keys + more;
    NewKeysAdd(keys, input);
    PlainExisting(s, arrays);
    AddedPlain(keys, input);
    assert Plain(all);
    PlainReadsBack(all, arrays);
    UpdatedShows(s, InLines(all), s.info, arrays);
    RowsAppended(keys, more, s.info);
  }

  /** A channel without keys takes the input as it is. */
  lemma FirstAppend(s: Stored, input: string, arrays: Arrays)
    requires s.text == ""
    ensures Shown(AppendStep(s, input, arrays), arrays) == Rows(GetKeys(input, arrays), s.info)
  {
    UpdatedShows(s, input, s.info, arrays);
  }
}
