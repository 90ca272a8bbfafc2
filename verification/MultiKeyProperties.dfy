/**
What the actions on the keys of a channel are for, said of the list of rows that the channel shows,
and exactly when what is stored afterwards shows that.
*/
module MultiKeyProperties {
  import opened Basics
  import opened Separated
  import opened ModelNames
  import opened KeyText
  import opened KeyListing
  import opened MultiKey

  /** One row for each key, with what is recorded about it. */
  function Shown(s: Stored, arrays: Arrays): seq<Row> { Rows(GetKeys(s.text, arrays), s.info) }

  // ---------- what the actions mean ----------

  function Drop(rows: seq<Row>, k: int): seq<Row> {
    if 0 <= k < |rows| then rows[..k] + rows[k + 1..] else rows
  }

  function EnableRows(rows: seq<Row>): seq<Row> {
    seq(|rows|, i requires 0 <= i < |rows| => Fresh(rows[i].key))
  }

  function Disabled(row: Row): Row { if row.status == ENABLED then row.(status := MANUALLY_DISABLED) else row }

  function DisableRows(rows: seq<Row>): seq<Row> {
    seq(|rows|, i requires 0 <= i < |rows| => Disabled(rows[i]))
  }

  /** Time and reason of an enabled key are forgotten. */
  function Clean(row: Row): Row { if row.status == ENABLED then Fresh(row.key) else row }

  /** The rows that are not automatically disabled. */
  function Survivors(rows: seq<Row>): seq<Row> {
    if rows == [] then []
    else
      Survivors(rows[..|rows| - 1])
      + if rows[|rows| - 1].status == AUTO_DISABLED then [] else [Clean(rows[|rows| - 1])]
  }

  /** Deleting keeps the last key, and without anything to delete nothing changes. */
  function Apply(rows: seq<Row>, action: Action): seq<Row> {
    match action
    case DisableKey(k) => if 0 <= k < |rows| then rows[k := rows[k].(status := MANUALLY_DISABLED)] else rows
    case EnableKey(k) => if 0 <= k < |rows| then rows[k := Fresh(rows[k].key)] else rows
    case EnableAll => EnableRows(rows)
    case DisableAll => DisableRows(rows)
    case DeleteKey(k) => if Drop(rows, k) == [] then rows else Drop(rows, k)
    case DeleteAutoDisabled => if CountStatus(rows, AUTO_DISABLED) == 0 then rows else Survivors(rows)
  }

  function KeysOf(rows: seq<Row>): seq<string> {
    seq(|rows|, i requires 0 <= i < |rows| => rows[i].key)
  }

  lemma KeysOfRows(keys: seq<string>, info: Info)
    ensures KeysOf(Rows(keys, info)) == keys
  {
    forall i | 0 <= i < |keys| ensures KeysOf(Rows(keys, info))[i] == keys[i] {}
  }

  // ---------- reindexing, row by row ----------

  lemma RowsEqual(keys: seq<string>, a: Info, b: Info)
    requires forall i | 0 <= i < |keys| :: RowAt(keys[i], a, i) == RowAt(keys[i], b, i)
    ensures Rows(keys, a) == Rows(keys, b)
  {
    forall i | 0 <= i < |keys| ensures Rows(keys, a)[i] == Rows(keys, b)[i] {}
  }

  /** Cleaning up statuses behind the last key does not show. */
  lemma CleanedUpShows(keys: seq<string>, info: Info, size: nat)
    requires |keys| <= size
    ensures Rows(keys, CleanedUp(info, size)) == Rows(keys, info)
  {
    RowsEqual(keys, CleanedUp(info, size), info);
  }

  lemma UpdatedShows(s: Stored, text: string, info: Info, arrays: Arrays)
    ensures var next := Updated(s, text, info, arrays);
      && next.text == (if text == "" then s.text else text) && ValidStored(next, arrays)
      && Shown(next, arrays) == Rows(GetKeys(next.text, arrays), info)
  {
    var kept := if text == "" then s.text else text;
    KeyCounts(kept, arrays);
    CleanedUpShows(GetKeys(kept, arrays), info, CountKeys(kept, arrays));
  }

  function CleanIf(row: Row, clean: bool): Row { if clean then Clean(row) else row }

  lemma {:induction false} CarriedRows(keys: seq<string>, info: Info, at: seq<nat>, clean: bool)
    requires forall j | j in at :: j < |keys|
    ensures Rows(Pick(keys, at), Carried(info, at, clean))
      == seq(|at|, j requires 0 <= j < |at| => assert at[j] in at; CleanIf(RowAt(keys[at[j]], info, at[j]), clean))
  {
    var rows := Rows(Pick(keys, at), Carried(info, at, clean));
    forall j | 0 <= j < |at|
      ensures at[j] in at && rows[j] == CleanIf(RowAt(keys[at[j]], info, at[j]), clean)
    {
      assert at[j] in at;
      CarriedAt(info, at, clean, j);
    }
  }

  lemma {:induction false} OthersAt(n: nat, k: nat, j: nat)
    requires k < n && j < n - 1
    ensures |Others(n, k)| == n - 1 && Others(n, k)[j] == if j < k then j else j + 1
  {
    if k == n - 1 {
      AllAt(n - 1, k, j);
    } else if j < n - 2 {
      OthersAt(n - 1, k, j);
    } else if n > 2 {
      OthersAt(n - 1, k, 0);
    } else {
      assert Others(1, 0) == [] && Others(2, 0) == [1];
    }
  }

  lemma {:induction false} AllAt(n: nat, k: int, j: int)
    requires !(0 <= k < n)
    ensures |Others(n, k)| == n && (0 <= j < n ==> Others(n, k)[j] == j)
  {
    if n > 0 { AllAt(n - 1, k, j); }
  }

  lemma OthersCount(n: nat, k: nat)
    requires k < n
    ensures |Others(n, k)| == n - 1
  {
    if n > 1 { OthersAt(n, k, 0); }
  }

  /** The rows that remain of a deletion. */
  lemma WithoutKeyShows(keys: seq<string>, info: Info, k: nat)
    requires k < |keys|
    ensures Rows(Pick(keys, Others(|keys|, k)), Carried(info, Others(|keys|, k), false)) == Drop(Rows(keys, info), k)
  {
    var at, rows := Others(|keys|, k), Rows(keys, info);
    var left := Rows(Pick(keys, at), Carried(info, at, false));
    CarriedRows(keys, info, at, false);
    OthersCount(|keys|, k);
    forall j | 0 <= j < |keys| - 1 ensures left[j] == Drop(rows, k)[j] { OthersAt(|keys|, k, j); }
  }

  lemma {:induction false} SurvivorsAt(keys: seq<string>, info: Info, n: nat)
    requires n <= |keys|
    ensures var at, rows := NotAuto(info, n), Rows(keys, info);
      && Survivors(rows[..n]) == seq(|at|, j requires 0 <= j < |at| => assert at[j] in at; Clean(rows[at[j]]))
      && |at| + CountStatus(rows[..n], AUTO_DISABLED) == n
  {
    var rows := Rows(keys, info);
    if n > 0 {
      SurvivorsAt(keys, info, n - 1);
      assert rows[..n][..n - 1] == rows[..n - 1];
    }
  }

  /** The rows that remain when the automatically disabled keys are deleted. */
  lemma WithoutAutoShows(keys: seq<string>, info: Info)
    ensures var at, rows := NotAuto(info, |keys|), Rows(keys, info);
      && Rows(Pick(keys, at), Carried(info, at, true)) == Survivors(rows)
      && |at| + CountStatus(rows, AUTO_DISABLED) == |keys|
  {
    var at, rows := NotAuto(info, |keys|), Rows(keys, info);
    assert rows[..|keys|] == rows;
    SurvivorsAt(keys, info, |keys|);
    CarriedRows(keys, info, at, true);
    var left := Rows(Pick(keys, at), Carried(info, at, true));
    forall j | 0 <= j < |at| ensures left[j] == Survivors(rows)[j] { assert at[j] in at; }
  }

  // ---------- one action ----------

  /** What is shown after these keys and records were stored, when the list had another length before. */
  lemma StoredShows(s: Stored, keys: seq<string>, info: Info, arrays: Arrays)
    requires keys != [] && |GetKeys(s.text, arrays)| != |keys|
    ensures Shown(Updated(s, InLines(keys), info, arrays), arrays) == Rows(keys, info) <==> ReadsBack(keys, arrays)
  {
    var next := Updated(s, InLines(keys), info, arrays);
    UpdatedShows(s, InLines(keys), info, arrays);
    KeysOfRows(keys, info);
    KeysOfRows(GetKeys(next.text, arrays), info);
  }

  /** All keys are automatically disabled, and some are there. */
  predicate AllAuto(rows: seq<Row>) { CountStatus(rows, AUTO_DISABLED) > 0 && Survivors(rows) == [] }

  /** The guard under which an action does what it means. */
  predicate Guard(s: Stored, action: Action, arrays: Arrays) {
    var rows := Shown(s, arrays);
    match action
    case DeleteKey(k) => 0 <= k < |rows| && |rows| > 1 ==> ReadsBack(KeysOf(Drop(rows, k)), arrays)
    case DeleteAutoDisabled => CountStatus(rows, AUTO_DISABLED) > 0
      ==> !AllAuto(rows) && ReadsBack(KeysOf(Survivors(rows)), arrays)
    case _ => true
  }

  lemma DeleteKeyIff(s: Stored, k: int, arrays: Arrays)
    requires ValidStored(s, arrays)
    ensures Shown(StoredStep(s, DeleteKey(k), arrays), arrays) == Apply(Shown(s, arrays), DeleteKey(k))
      <==> Guard(s, DeleteKey(k), arrays)
  {
    var keys, rows := GetKeys(s.text, arrays), Shown(s, arrays);
    KeyCounts(s.text, arrays);
    if 0 <= k < |keys| && |keys| > 1 {
      var at := Others(|keys|, k);
      OthersCount(|keys|, k);
      WithoutKeyShows(keys, s.info, k);
      KeysOfRows(Pick(keys, at), Carried(s.info, at, false));
      StoredShows(s, Pick(keys, at), Carried(s.info, at, false), arrays);
    } else if 0 <= k < |keys| {
      OthersCount(|keys|, k);
      assert Drop(rows, k) == [];
    } else if keys == [] {
      assert Others(0, k) == [];
    }
  }

  lemma NothingPicked(s: Stored, arrays: Arrays)
    requires AllAuto(Shown(s, arrays))
    ensures var n := |GetKeys(s.text, arrays)|; n > 0 && NotAuto(s.info, n) == []
  {
    var keys := GetKeys(s.text, arrays);
    var at := NotAuto(s.info, |keys|);
    WithoutAutoShows(keys, s.info);
    assert |Rows(Pick(keys, at), Carried(s.info, at, true))| == |at|;
  }

  /** Deleting when all keys are automatically disabled deletes none and enables all of them. */
  lemma SweepOfAllEnables(s: Stored, arrays: Arrays)
    requires AllAuto(Shown(s, arrays))
    ensures Shown(StoredStep(s, DeleteAutoDisabled, arrays), arrays) == EnableRows(Shown(s, arrays))
  {
    var none := Info(0, map[], map[], map[]);
    NothingPicked(s, arrays);
    assert StoredStep(s, DeleteAutoDisabled, arrays) == Updated(s, "", none, arrays);
    UpdatedShows(s, "", none, arrays);
    NoRecords(GetKeys(s.text, arrays), s.info, none);
  }

  lemma NoRecords(keys: seq<string>, info: Info, none: Info)
    requires none.status == map[] && none.time == map[] && none.reason == map[]
    ensures Rows(keys, none) == EnableRows(Rows(keys, info))
  {
    forall i | 0 <= i < |keys| ensures Rows(keys, none)[i] == EnableRows(Rows(keys, info))[i] {}
  }

  lemma DeleteAutoIff(s: Stored, arrays: Arrays)
    ensures Shown(StoredStep(s, DeleteAutoDisabled, arrays), arrays) == Apply(Shown(s, arrays), DeleteAutoDisabled)
      <==> Guard(s, DeleteAutoDisabled, arrays)
  {
    var keys, rows := GetKeys(s.text, arrays), Shown(s, arrays);
    var at := NotAuto(s.info, |keys|);
    WithoutAutoShows(keys, s.info);
    if AllAuto(rows) {
      SweepOfAllEnables(s, arrays);
    } else if CountStatus(rows, AUTO_DISABLED) > 0 {
      KeysOfRows(Pick(keys, at), Carried(s.info, at, true));
      StoredShows(s, Pick(keys, at), Carried(s.info, at, true), arrays);
    }
  }

  lemma {:induction false} NoneEnabled(keys: seq<string>, info: Info, n: nat)
    requires EnabledBelow(info, n) == 0 && |keys| <= n
    ensures DisableRows(Rows(keys, info)) == Rows(keys, info)
  {
    forall i | 0 <= i < |keys| ensures StatusAt(info, i) != ENABLED { EnabledAt(info, n, i); }
    forall i | 0 <= i < |keys| ensures DisableRows(Rows(keys, info))[i] == Rows(keys, info)[i] {}
  }

  lemma {:induction false} EnabledAt(info: Info, n: nat, i: nat)
    requires EnabledBelow(info, n) == 0 && i < n
    ensures StatusAt(info, i) != ENABLED
  {
    if i < n - 1 { EnabledAt(info, n - 1, i); }
  }

  lemma DisableShows(keys: seq<string>, info: Info, k: nat)
    ensures Rows(keys, info.(status := info.status[k := MANUALLY_DISABLED])) == Apply(Rows(keys, info), DisableKey(k))
  {
    var now := Rows(keys, info.(status := info.status[k := MANUALLY_DISABLED]));
    forall i | 0 <= i < |keys| ensures now[i] == Apply(Rows(keys, info), DisableKey(k))[i] {}
  }

  lemma EnableShows(keys: seq<string>, info: Info, k: nat)
    ensures Rows(keys, Enabled(info, k)) == Apply(Rows(keys, info), EnableKey(k))
  {
    forall i | 0 <= i < |keys| ensures Rows(keys, Enabled(info, k))[i] == Apply(Rows(keys, info), EnableKey(k))[i] {}
  }

  lemma DisableAllShows(keys: seq<string>, info: Info, n: nat)
    requires |keys| <= n
    ensures Rows(keys, info.(status := DisabledBelow(info, n))) == DisableRows(Rows(keys, info))
    ensures EnabledBelow(info, n) == 0 ==> DisableRows(Rows(keys, info)) == Rows(keys, info)
  {
    var now := Rows(keys, info.(status := DisabledBelow(info, n)));
    forall i | 0 <= i < |keys| ensures now[i] == DisableRows(Rows(keys, info))[i] { DisabledBelowAt(info, n, i); }
    if EnabledBelow(info, n) == 0 { NoneEnabled(keys, info, n); }
  }

  /** The actions that leave the text alone always do what they mean. */
  lemma StatusActions(s: Stored, action: Action, arrays: Arrays)
    requires ValidStored(s, arrays) && !action.DeleteKey? && !action.DeleteAutoDisabled?
    ensures var next := StoredStep(s, action, arrays);
      GetKeys(next.text, arrays) == GetKeys(s.text, arrays) && Shown(next, arrays) == Apply(Shown(s, arrays), action)
  {
    var keys, info := GetKeys(s.text, arrays), s.info;
    KeyCounts(s.text, arrays);
    match action
    case DisableKey(k) =>
      if 0 <= k < info.size {
        UpdatedShows(s, s.text, info.(status := info.status[k := MANUALLY_DISABLED]), arrays);
        DisableShows(keys, info, k);
      }
    case EnableKey(k) =>
      if 0 <= k < info.size {
        UpdatedShows(s, s.text, Enabled(info, k), arrays);
        EnableShows(keys, info, k);
      }
    case EnableAll =>
      UpdatedShows(s, s.text, Info(info.size, map[], map[], map[]), arrays);
      NoRecords(keys, info, Info(info.size, map[], map[], map[]));
    case DisableAll =>
      UpdatedShows(s, s.text, info.(status := DisabledBelow(info, info.size)), arrays);
      DisableAllShows(keys, info, info.size);
  }

  /** Exactly when the channel shows after an action what the action means. */
  lemma StepShowsIff(s: Stored, action: Action, arrays: Arrays)
    requires ValidStored(s, arrays)
    ensures Shown(StoredStep(s, action, arrays), arrays) == Apply(Shown(s, arrays), action)
      <==> Guard(s, action, arrays)
  {
    match action
    case DeleteKey(k) => DeleteKeyIff(s, k, arrays);
    case DeleteAutoDisabled => DeleteAutoIff(s, arrays);
    case _ => StatusActions(s, action, arrays);
  }

  // ---------- runs ----------

  ghost predicate IsRun(run: seq<Stored>, actions: seq<Action>, arrays: Arrays) {
    |run| == |actions| + 1 && forall i | 0 <= i < |actions| :: StepsTo(run, actions, arrays, i)
  }

  ghost predicate StepsTo(run: seq<Stored>, actions: seq<Action>, arrays: Arrays, i: nat)
    requires i < |actions| && i + 1 < |run|
  {
    run[i + 1] == StoredStep(run[i], actions[i], arrays)
  }

  /** The rows after these actions, if every action does what it means. */
  function ApplyAll(rows: seq<Row>, actions: seq<Action>): seq<Row> {
    if actions == [] then rows else Apply(ApplyAll(rows, actions[..|actions| - 1]), actions[|actions| - 1])
  }

  /** What can be checked of a stored channel beforehand. */
  predicate PlainStored(s: Stored, arrays: Arrays) { ValidStored(s, arrays) && Plain(GetKeys(s.text, arrays)) }

  lemma PlainPick(keys: seq<string>, at: seq<nat>)
    requires Plain(keys) && forall j | j in at :: j < |keys|
    ensures Plain(Pick(keys, at))
  {
    forall k | k in Pick(keys, at) ensures PlainKey(k) {
      var j :| 0 <= j < |at| && Pick(keys, at)[j] == k;
      assert at[j] in at && keys[at[j]] in keys;
    }
  }

  lemma StepKeepsPlain(s: Stored, action: Action, arrays: Arrays)
    requires PlainStored(s, arrays)
    ensures PlainStored(StoredStep(s, action, arrays), arrays)
  {
    var keys := GetKeys(s.text, arrays);
    match action
    case DeleteKey(k) =>
      var at := Others(|keys|, k);
      PlainPick(keys, at);
      PlainReadsBack(Pick(keys, at), arrays);
      UpdatedShows(s, InLines(Pick(keys, at)), Carried(s.info, at, false), arrays);
    case DeleteAutoDisabled =>
      var at := NotAuto(s.info, |keys|);
      PlainPick(keys, at);
      PlainReadsBack(Pick(keys, at), arrays);
      UpdatedShows(s, InLines(Pick(keys, at)), Carried(s.info, at, true), arrays);
    case _ =>
      StatusActions(s, action, arrays);
  }

  /** With plain keys only the deletion of all keys at once is not what is shown. */
  lemma PlainGuard(s: Stored, action: Action, arrays: Arrays)
    requires PlainStored(s, arrays)
    ensures Guard(s, action, arrays) <==> !(action.DeleteAutoDisabled? && AllAuto(Shown(s, arrays)))
  {
    var keys, rows := GetKeys(s.text, arrays), Shown(s, arrays);
    match action
    case DeleteKey(k) =>
      if 0 <= k < |keys| {
        var at := Others(|keys|, k);
        WithoutKeyShows(keys, s.info, k);
        KeysOfRows(Pick(keys, at), Carried(s.info, at, false));
        PlainPick(keys, at);
        PlainReadsBack(Pick(keys, at), arrays);
      }
    case DeleteAutoDisabled =>
      var at := NotAuto(s.info, |keys|);
      WithoutAutoShows(keys, s.info);
      KeysOfRows(Pick(keys, at), Carried(s.info, at, true));
      PlainPick(keys, at);
      PlainReadsBack(Pick(keys, at), arrays);
    case _ =>
  }

  lemma {:induction false} RunKeepsPlain(run: seq<Stored>, actions: seq<Action>, arrays: Arrays, n: nat)
    requires IsRun(run, actions, arrays) && PlainStored(run[0], arrays) && n < |run|
    ensures PlainStored(run[n], arrays)
  {
    if n > 0 {
      RunKeepsPlain(run, actions, arrays, n - 1);
      assert StepsTo(run, actions, arrays, n - 1);
      StepKeepsPlain(run[n - 1], actions[n - 1], arrays);
    }
  }

  /** From plain keys on, the channel shows after any run what the actions mean, as long as not all
      keys are to be deleted at once. */
  lemma {:induction false} RunShows(run: seq<Stored>, actions: seq<Action>, arrays: Arrays, n: nat)
    requires IsRun(run, actions, arrays) && PlainStored(run[0], arrays) && n < |run|
    requires forall i | 0 <= i < n :: !(actions[i].DeleteAutoDisabled? && AllAuto(Shown(run[i], arrays)))
    ensures Shown(run[n], arrays) == ApplyAll(Shown(run[0], arrays), actions[..n])
  {
    if n > 0 {
      RunShows(run, actions, arrays, n - 1);
      RunKeepsPlain(run, actions, arrays, n - 1);
      assert StepsTo(run, actions, arrays, n - 1);
      PlainGuard(run[n - 1], actions[n - 1], arrays);
      StepShowsIff(run[n - 1], actions[n - 1], arrays);
      assert actions[..n][..n - 1] == actions[..n - 1];
    }
  }

  // ---------- sizes and indices ----------

  /** The recorded number of keys is theirs, and no record is beyond them. */
  ghost predicate InRange(s: Stored, arrays: Arrays) {
    var n := |GetKeys(s.text, arrays)|;
    && s.info.size == n
    && (forall i | i in s.info.status :: 0 <= i < n)
    && (forall i | i in s.info.time :: 0 <= i < n)
    && (forall i | i in s.info.reason :: 0 <= i < n)
  }

  /** The counts of `Channel.Update` and of `GetKeys` differ for an empty array only. */
  lemma SameCountIff(text: string, arrays: Arrays)
    ensures CountKeys(text, arrays) == |GetKeys(text, arrays)| <==> !(IsArray(text, arrays) && arrays[Trim(text)] == [])
  {
  }

  /** The remaining positions of an accepted deletion, and whether time and reason are only carried for
      disabled keys. */
  function Remaining(s: Stored, action: Action, arrays: Arrays): (seq<nat>, bool)
    requires action.DeleteKey? || action.DeleteAutoDisabled?
  {
    var n := |GetKeys(s.text, arrays)|;
    if action.DeleteKey? then (Others(n, action.k), false) else (NotAuto(s.info, n), true)
  }

  predicate Accepted(s: Stored, action: Action, arrays: Arrays)
    requires action.DeleteKey? || action.DeleteAutoDisabled?
  {
    var at := Remaining(s, action, arrays).0;
    if action.DeleteKey? then 0 <= action.k < s.info.size && at != [] else |at| < |GetKeys(s.text, arrays)|
  }

  /** Some remaining key from the `n`-th on has a time or a reason that is carried over. */
  ghost predicate RecordedFrom(info: Info, at: seq<nat>, onlyDisabled: bool, n: nat) {
    exists j :: n <= j < |at| && Carries(info, at[j], onlyDisabled) && (at[j] in info.time || at[j] in info.reason)
  }

  lemma {:induction false} CarriedKeys(info: Info, at: seq<nat>, onlyDisabled: bool, j: int)
    ensures var next := Carried(info, at, onlyDisabled);
      var carries := 0 <= j < |at| && Carries(info, at[j], onlyDisabled);
      && (j in next.status <==> 0 <= j < |at| && StatusAt(info, at[j]) != ENABLED)
      && (j in next.time <==> carries && at[j] in info.time)
      && (j in next.reason <==> carries && at[j] in info.reason)
  {
    if at != [] {
      var before := at[..|at| - 1];
      CarriedKeys(info, before, onlyDisabled, j);
      CarriedAt(info, before, onlyDisabled, j);
    }
  }

  /** Exactly when all indices are in range after an accepted deletion: the keys that are read back are
      counted as they are, and none of the records lies behind them. */
  lemma DeletionInRangeIff(s: Stored, action: Action, arrays: Arrays)
    requires (action.DeleteKey? || action.DeleteAutoDisabled?) && Accepted(s, action, arrays)
    ensures var next := StoredStep(s, action, arrays);
      var n := |GetKeys(next.text, arrays)|;
      var at, onlyDisabled := Remaining(s, action, arrays).0, Remaining(s, action, arrays).1;
      InRange(next, arrays) <==> CountKeys(next.text, arrays) == n && !RecordedFrom(s.info, at, onlyDisabled, n)
  {
    var next := StoredStep(s, action, arrays);
    var n := |GetKeys(next.text, arrays)|;
    var (at, onlyDisabled) := Remaining(s, action, arrays);
    var carried := Carried(s.info, at, onlyDisabled);
    assert next.info == CleanedUp(carried, CountKeys(next.text, arrays));
    forall j ensures j in carried.status ==> 0 <= j < |at| { CarriedKeys(s.info, at, onlyDisabled, j); }
    forall j ensures j in carried.time
        <==> 0 <= j < |at| && Carries(s.info, at[j], onlyDisabled) && at[j] in s.info.time
    {
      CarriedKeys(s.info, at, onlyDisabled, j);
    }
    forall j ensures j in carried.reason
        <==> 0 <= j < |at| && Carries(s.info, at[j], onlyDisabled) && at[j] in s.info.reason
    {
      CarriedKeys(s.info, at, onlyDisabled, j);
    }
  }

  /** A deletion whose keys come back in the same number, but not none, leaves all indices in range. */
  lemma SameNumberInRange(s: Stored, action: Action, arrays: Arrays)
    requires (action.DeleteKey? || action.DeleteAutoDisabled?) && Accepted(s, action, arrays)
    requires var n := |GetKeys(StoredStep(s, action, arrays).text, arrays)|;
      n > 0 && n >= |Remaining(s, action, arrays).0|
    ensures InRange(StoredStep(s, action, arrays), arrays)
  {
    KeyCounts(StoredStep(s, action, arrays).text, arrays);
    DeletionInRangeIff(s, action, arrays);
  }

  lemma {:induction false} DisabledBelowKeys(info: Info, n: nat, i: int)
    requires i in DisabledBelow(info, n)
    ensures i in info.status || 0 <= i < n
  {
    if n > 0 && i != n - 1 { DisabledBelowKeys(info, n - 1, i); }
  }

  lemma StepKeepsInRange(s: Stored, action: Action, arrays: Arrays)
    requires PlainStored(s, arrays) && InRange(s, arrays)
    ensures InRange(StoredStep(s, action, arrays), arrays)
  {
    var keys, info := GetKeys(s.text, arrays), s.info;
    match action
    case DisableAll =>
      forall i | i in DisabledBelow(info, info.size) ensures 0 <= i < info.size {
        DisabledBelowKeys(info, info.size, i);
      }
    case DeleteKey(k) => if Accepted(s, action, arrays) { PlainDeletionInRange(s, action, arrays); }
    case DeleteAutoDisabled => if Accepted(s, action, arrays) { PlainDeletionInRange(s, action, arrays); }
    case _ =>
  }

  lemma PlainDeletionInRange(s: Stored, action: Action, arrays: Arrays)
    requires (action.DeleteKey? || action.DeleteAutoDisabled?) && Accepted(s, action, arrays)
    requires PlainStored(s, arrays) && InRange(s, arrays)
    ensures InRange(StoredStep(s, action, arrays), arrays)
  {
    var keys, at := GetKeys(s.text, arrays), Remaining(s, action, arrays).0;
    PlainPick(keys, at);
    PlainReadsBack(Pick(keys, at), arrays);
    SameNumberInRange(s, action, arrays);
  }

  lemma NextInRange(run: seq<Stored>, actions: seq<Action>, arrays: Arrays, i: nat)
    requires i < |actions| && i + 1 < |run| && StepsTo(run, actions, arrays, i)
    requires PlainStored(run[i], arrays) && InRange(run[i], arrays)
    ensures InRange(run[i + 1], arrays)
  {
    StepKeepsInRange(run[i], actions[i], arrays);
  }

  /** From plain keys on, the recorded number of keys is theirs and all indices are in range, after any run. */
  lemma {:induction false} RunKeepsInRange(run: seq<Stored>, actions: seq<Action>, arrays: Arrays, n: nat)
    requires IsRun(run, actions, arrays) && PlainStored(run[0], arrays) && InRange(run[0], arrays) && n < |run|
    ensures InRange(run[n], arrays)
  {
    if n > 0 {
      RunKeepsInRange(run, actions, arrays, n - 1);
      RunKeepsPlain(run, actions, arrays, n - 1);
      NextInRange(run, actions, arrays, n - 1);
    }
  }

  /** With a blank line among the keys this fails: one key is left, and the time of another index. */
  lemma BlankLineLeavesTime()
    ensures var s := Stored("a\n\nb", Info(3, map[], map[2 := 7], map[]));
      && ValidStored(s, imap[]) && InRange(s, imap[])
      && var next := StoredStep(s, DeleteKey(0), imap[]);
         next.info.size == |GetKeys(next.text, imap[])| == 1 && 1 in next.info.time && !InRange(next, imap[])
  {
    var s := Stored("a\n\nb", Info(3, map[], map[2 := 7], map[]));
    BlankLineTexts();
    BlankLineAccepted();
    assert Pick(["a", "", "b"], [1, 2]) == ["", "b"];
    var carried := Carried(s.info, [1, 2], false);
    assert StoredStep(s, DeleteKey(0), imap[]) == Updated(s, "\nb", carried, imap[]);
    CarriedKeys(s.info, [1, 2], false, 1);
  }

  /** Wherever this key is, it is manually disabled. */
  ghost predicate OnlyManual(rows: seq<Row>, key: string) {
    forall i | 0 <= i < |rows| :: rows[i].key == key ==> rows[i].status == MANUALLY_DISABLED
  }

  predicate Enables(rows: seq<Row>, action: Action, key: string) {
    action == EnableAll || (action.EnableKey? && 0 <= action.k < |rows| && rows[action.k].key == key)
  }

  lemma {:induction false} SurvivorsKeep(rows: seq<Row>, key: string)
    requires OnlyManual(rows, key)
    ensures OnlyManual(Survivors(rows), key)
    ensures Survivors(rows) == [] ==> forall i | 0 <= i < |rows| :: rows[i].key != key
  {
    if rows != [] { SurvivorsKeep(rows[..|rows| - 1], key); }
  }

  lemma ActionKeepsManual(rows: seq<Row>, action: Action, key: string)
    requires OnlyManual(rows, key) && !Enables(rows, action, key)
    ensures OnlyManual(Apply(rows, action), key)
  {
    SurvivorsKeep(rows, key);
  }

  lemma StoredKeepsManual(s: Stored, action: Action, arrays: Arrays, key: string)
    requires PlainStored(s, arrays) && OnlyManual(Shown(s, arrays), key) && !Enables(Shown(s, arrays), action, key)
    ensures OnlyManual(Shown(StoredStep(s, action, arrays), arrays), key)
  {
    var rows := Shown(s, arrays);
    PlainGuard(s, action, arrays);
    StepShowsIff(s, action, arrays);
    if Guard(s, action, arrays) {
      ActionKeepsManual(rows, action, key);
    } else {
      SweepOfAllEnables(s, arrays);
      SurvivorsKeep(rows, key);
    }
  }

  /** From plain keys on, over any run a manually disabled key stays so, or is deleted, until an
      action enables it. */
  lemma {:induction false} ManualUntilEnabled(run: seq<Stored>, actions: seq<Action>, arrays: Arrays, key: string,
                                              n: nat)
    requires IsRun(run, actions, arrays) && PlainStored(run[0], arrays) && n < |run|
    requires OnlyManual(Shown(run[0], arrays), key)
    requires forall i | 0 <= i < n :: !Enables(Shown(run[i], arrays), actions[i], key)
    ensures OnlyManual(Shown(run[n], arrays), key)
  {
    if n > 0 {
      ManualUntilEnabled(run, actions, arrays, key, n - 1);
      RunKeepsPlain(run, actions, arrays, n - 1);
      assert StepsTo(run, actions, arrays, n - 1);
      StoredKeepsManual(run[n - 1], actions[n - 1], arrays, key);
    }
  }

  const BLANK_LINE := Stored("a\n\nb", Info(3, map[2 := MANUALLY_DISABLED], map[], map[]))

  /** With a blank line among the keys this fails: deleting `a` enables `b`. */
  method BlankLineEnables() returns (before: seq<Row>, after: seq<Row>)
    ensures before == [Fresh("a"), Fresh(""), Row("b", MANUALLY_DISABLED, 0, "")]
    ensures after == [Fresh("b")]
  {
    var ch := new MultiKeyChannel(BLANK_LINE, imap[]);
    BlankLineBefore();
    before := Shown(ch.Now(), imap[]);
    BlankLineAccepted();
    var answer := ch.DeleteKey(Some(0), true);
    BlankLineAfter();
    after := Shown(ch.Now(), imap[]);
  }

  lemma BlankLineAccepted()
    ensures Others(3, 0) == [1, 2] && |GetKeys(BLANK_LINE.text, imap[])| == 3
  {
    BlankLineTexts();
    assert Others(0, 0) == Others(1, 0) == [] && Others(2, 0) == [1];
  }

  lemma BlankLineBefore()
    ensures Shown(BLANK_LINE, imap[]) == [Fresh("a"), Fresh(""), Row("b", MANUALLY_DISABLED, 0, "")]
  {
    BlankLineTexts();
  }

  /** What the deletion stores: the reindexed records, under a text that begins with a blank line. */
  lemma BlankLineStored()
    ensures StoredStep(BLANK_LINE, DeleteKey(0), imap[])
      == Updated(BLANK_LINE, "\nb", Carried(BLANK_LINE.info, [1, 2], false), imap[])
  {
    BlankLineTexts();
    BlankLineAccepted();
    assert Pick(["a", "", "b"], [1, 2]) == ["", "b"];
  }

  lemma BlankLineAfter()
    ensures Shown(StoredStep(BLANK_LINE, DeleteKey(0), imap[]), imap[]) == [Fresh("b")]
  {
    var next := Carried(BLANK_LINE.info, [1, 2], false);
    BlankLineStored();
    BlankLineTexts();
    UpdatedShows(BLANK_LINE, "\nb", next, imap[]);
    CarriedAt(BLANK_LINE.info, [1, 2], false, 0);
    assert Rows(["b"], next)[0] == Fresh("b");
  }

  lemma BlankLineTexts()
    ensures GetKeys("a\n\nb", imap[]) == ["a", "", "b"]
    ensures InLines(["", "b"]) == "\nb" && GetKeys("\nb", imap[]) == ["b"]
  {
    var keys := ["a", "", "b"];
    assert keys[1..] == ["", "b"] && ["", "b"][1..] == ["b"];
    assert InLines(["", "b"]) == "\nb" && InLines(keys) == "a\n\nb";
    StoredKeysReadBackIff(keys, imap[]);
    assert Strip("\nb", '\n') == Strip("b", '\n') == "b";
    SplitWhole("b", '\n');
  }

  // ---------- appending ----------

  lemma NewKeysPlain(existing: seq<string>, input: string)
    ensures NewLines(NewKeys(existing, input))
  {
    var lines := SplitBy(input, '\n');
    NormalizeIsNormalized(lines);
    WithoutMembers(Normalize(lines), Names(Normalize(existing)));
    forall k | k in NewKeys(existing, input) ensures k != "" && '\n' !in k {
      assert k in Normalize(lines);
      var line :| line in lines && Trim(line) == k;
      if '\n' in k { TrimChars(line, '\n'); }
    }
  }

  /** When appending keeps the existing keys: nothing is stored; or the new text is taken for an array
      that begins with them; or it only looked like an array, they were dropped, and the input repeats
      them; or there are none; or all keys fit lines. */
  predicate AppendKeeps(text: string, input: string, arrays: Arrays) {
    var keys, existing := GetKeys(text, arrays), Existing(text, arrays);
    var all := existing + NewKeys(existing, input);
    || InLines(all) == ""
    || (if IsArray(InLines(all), arrays) then keys <= arrays[Trim(InLines(all))]
        else if existing != keys then keys <= all
        else keys == [] || Storable(all))
  }

  /** Rows of a channel whose list of keys has changed. */
  lemma RowsPrefix(keys: seq<string>, now: seq<string>, info: Info)
    ensures Rows(keys, info) <= Rows(now, info) <==> keys <= now
  {
    if Rows(keys, info) <= Rows(now, info) {
      forall i | 0 <= i < |keys| ensures keys[i] == now[i] { assert Rows(keys, info)[i] == Rows(now, info)[i]; }
    }
  }

  ghost predicate NewLines(more: seq<string>) { forall k | k in more :: k != "" && '\n' !in k }

  lemma NewInLines(more: seq<string>, arrays: Arrays)
    requires NewLines(more) && !IsArray(InLines(more), arrays)
    ensures GetKeys(InLines(more), arrays) == more
  {
    if more != [] { assert more[0] in more && more[|more| - 1] in more; }
    StoredKeysReadBackIff(more, arrays);
  }

  lemma KeptInLines(keys: seq<string>, more: seq<string>, arrays: Arrays)
    requires keys != [] && NewLines(more) && InLines(keys + more) != "" && !IsArray(InLines(keys + more), arrays)
    ensures keys <= GetKeys(InLines(keys + more), arrays) <==> Storable(keys + more)
  {
    PrefixReadsBackIff(keys, more, '\n');
  }

  lemma AppendedKeys(text: string, input: string, arrays: Arrays)
    requires text != ""
    ensures var existing := Existing(text, arrays); var joined := InLines(existing + NewKeys(existing, input));
      GetKeys(text, arrays) <= GetKeys(if joined == "" then text else joined, arrays)
      <==> AppendKeeps(text, input, arrays)
  {
    var keys, existing := GetKeys(text, arrays), Existing(text, arrays);
    var more := NewKeys(existing, input);
    NewKeysPlain(existing, input);
    if InLines(existing + more) != "" && !IsArray(InLines(existing + more), arrays) {
      if existing != keys {
        assert existing == [] && existing + more == more;
        NewInLines(more, arrays);
      } else if keys != [] {
        KeptInLines(keys, more, arrays);
      }
    }
  }

  /** Exactly when the rows of the existing keys survive an append. */
  lemma AppendKeepsIff(s: Stored, input: string, arrays: Arrays)
    requires s.text != ""
    ensures Shown(s, arrays) <= Shown(AppendStep(s, input, arrays), arrays) <==> AppendKeeps(s.text, input, arrays)
  {
    var existing := Existing(s.text, arrays);
    var joined := InLines(existing + NewKeys(existing, input));
    UpdatedShows(s, joined, s.info, arrays);
    AppendedKeys(s.text, input, arrays);
    RowsPrefix(GetKeys(s.text, arrays), GetKeys(if joined == "" then s.text else joined, arrays), s.info);
  }

  const LOOK_ALIKE := Stored("[a", Info(1, map[], map[], map[]))

  /** A text that only looks like an array: appending one key drops the existing one. */
  method LookAlikeDrops() returns (before: seq<Row>, after: seq<Row>)
    ensures before == [Fresh("[a")] && after == [Fresh("b")]
  {
    var ch := new MultiKeyChannel(LOOK_ALIKE, imap[]);
    LookAlikeTexts();
    before := Shown(ch.Now(), imap[]);
    var done := ch.AppendKeys("b", true);
    LookAlikeAfter();
    after := Shown(ch.Now(), imap[]);
  }

  lemma LookAlikeAfter()
    ensures Shown(AppendStep(LOOK_ALIKE, "b", imap[]), imap[]) == [Fresh("b")]
  {
    LookAlikeTexts();
    NewKeyB();
    assert AppendStep(LOOK_ALIKE, "b", imap[]) == Updated(LOOK_ALIKE, "b", LOOK_ALIKE.info, imap[]);
    UpdatedShows(LOOK_ALIKE, "b", LOOK_ALIKE.info, imap[]);
  }

  lemma OneLine(text: string)
    requires text != "" && '\n' !in text
    ensures Lines(text) == [text]
  {
    assert text[0] in text && text[|text| - 1] in text;
    assert Strip(text, '\n') == text;
    SplitWhole(text, '\n');
  }

  lemma LookAlikeTexts()
    ensures GetKeys("[a", imap[]) == ["[a"] && LooksLikeArray("[a") && GetKeys("b", imap[]) == ["b"]
  {
    OneLine("[a");
    OneLine("b");
    TrimIsTrimmed("[a");
  }

  lemma NewKeyB()
    ensures [] + NewKeys([], "b") == ["b"]
  {
    var lines := SplitBy("b", '\n');
    SplitWhole("b", '\n');
    TrimIsTrimmed("b");
    NormalizeNormalized(["b"]);
    WithoutNone(["b"], Names(Normalize([])));
  }
}
