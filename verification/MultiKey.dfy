/**
The keys of a multi-key channel and the actions on them: what is stored is a text of keys and maps
from the position of a key to its status, disable time and disable reason. The deleting actions
rebuild text and maps; every action ends in `Channel.Update`.
*/
module MultiKey {
  import opened Basics
  import opened Separated
  import opened ModelNames
  import opened KeyText
  import opened KeyListing

  /** The stored channel. */
  datatype Stored = Stored(text: string, info: Info)

  datatype Action =
    | DisableKey(k: int) | EnableKey(k: int) | EnableAll | DisableAll | DeleteKey(k: int) | DeleteAutoDisabled

  datatype Answer = Done(count: nat) | NoIndex | OutOfRange | NothingToDo | LastKey | DbError

  // ---------- storing ----------

  /** The statuses below `size`. */
  function CleanedUp(info: Info, size: nat): Info {
    info.(size := size, status := map i | i in info.status && i < size :: info.status[i])
  }

  /** `Channel.Update`: an empty text leaves the stored one. */
  function Updated(s: Stored, text: string, info: Info, arrays: Arrays): Stored {
    var kept := if text == "" then s.text else text;
    Stored(kept, CleanedUp(info, CountKeys(kept, arrays)))
  }

  /** The number of keys is the one `Channel.Update` last counted. */
  predicate ValidStored(s: Stored, arrays: Arrays) { s.info.size == CountKeys(s.text, arrays) }

  // ---------- reindexing ----------

  /** The positions below `n` other than `k`. */
  function Others(n: nat, k: int): (at: seq<nat>)
    ensures forall j | j in at :: j < n
  {
    if n == 0 then [] else Others(n - 1, k) + if n - 1 == k then [] else [n - 1]
  }

  /** The positions below `n` that are not automatically disabled. */
  function NotAuto(info: Info, n: nat): (at: seq<nat>)
    ensures |at| <= n && forall j | j in at :: j < n
  {
    if n == 0 then [] else NotAuto(info, n - 1) + if StatusAt(info, n - 1) == AUTO_DISABLED then [] else [n - 1]
  }

  function Pick(keys: seq<string>, at: seq<nat>): seq<string>
    requires forall j | j in at :: j < |keys|
  {
    seq(|at|, j requires 0 <= j < |at| => assert at[j] in at; keys[at[j]])
  }

  /** Is the time and the reason at this position carried over? */
  predicate Carries(info: Info, i: int, onlyDisabled: bool) { onlyDisabled ==> StatusAt(info, i) != ENABLED }

  /** The records at `i`, added behind those carried over before. */
  function CarriedOn(was: Info, info: Info, i: int, onlyDisabled: bool): Info {
    var n, carries := was.size, Carries(info, i, onlyDisabled);
    Info(n + 1,
         if StatusAt(info, i) != ENABLED then was.status[n := StatusAt(info, i)] else was.status,
         if i in info.time && carries then was.time[n := info.time[i]] else was.time,
         if i in info.reason && carries then was.reason[n := info.reason[i]] else was.reason)
  }

  /** The records of the positions `at`, renumbered. */
  function Carried(info: Info, at: seq<nat>, onlyDisabled: bool): Info {
    if at == [] then Info(0, map[], map[], map[])
    else CarriedOn(Carried(info, at[..|at| - 1], onlyDisabled), info, at[|at| - 1], onlyDisabled)
  }

  lemma CarriedOneMore(info: Info, at: seq<nat>, i: nat, onlyDisabled: bool)
    ensures Carried(info, at + [i], onlyDisabled) == CarriedOn(Carried(info, at, onlyDisabled), info, i, onlyDisabled)
  {
    assert (at + [i])[..|at|] == at;
  }

  /** What is recorded after renumbering, and that nothing else is. */
  lemma {:induction false} CarriedAt(info: Info, at: seq<nat>, onlyDisabled: bool, j: int)
    ensures var next := Carried(info, at, onlyDisabled);
      && next.size == |at|
      && if 0 <= j < |at| then
           && StatusAt(next, j) == StatusAt(info, at[j])
           && TimeAt(next, j) == (if Carries(info, at[j], onlyDisabled) then TimeAt(info, at[j]) else 0)
           && ReasonAt(next, j) == (if Carries(info, at[j], onlyDisabled) then ReasonAt(info, at[j]) else "")
         else j !in next.status && j !in next.time && j !in next.reason
  {
    if at != [] {
      var before := at[..|at| - 1];
      CarriedAt(info, before, onlyDisabled, j);
      CarriedAt(info, before, onlyDisabled, |before|);
    }
  }

  method CarryOver(info: Info, i: nat, onlyDisabled: bool, was: Info) returns (next: Info)
    ensures next == CarriedOn(was, info, i, onlyDisabled)
  {
    var n := was.size;
    next := was.(size := n + 1);
    if i in info.status && info.status[i] != ENABLED {
      next := next.(status := next.status[n := info.status[i]]);
    }
    if Carries(info, i, onlyDisabled) {
      if i in info.time {
        next := next.(time := next.time[n := info.time[i]]);
      }
      if i in info.reason {
        next := next.(reason := next.reason[n := info.reason[i]]);
      }
    }
  }

  /** The loop of `delete_key`. */
  method WithoutKey(keys: seq<string>, info: Info, k: int) returns (remaining: seq<string>, next: Info)
    ensures remaining == Pick(keys, Others(|keys|, k)) && next == Carried(info, Others(|keys|, k), false)
  {
    remaining, next := [], Info(0, map[], map[], map[]);
    for i := 0 to |keys|
      invariant remaining == Pick(keys, Others(i, k)) && next == Carried(info, Others(i, k), false)
    {
      assert Others(i + 1, k) == if i == k then Others(i, k) else Others(i, k) + [i];
      if i == k {
        continue;
      }
      next := CarryOver(info, i, false, next);
      CarriedOneMore(info, Others(i, k), i, false);
      PickOneMore(keys, Others(i, k), i);
      remaining := remaining + [keys[i]];
    }
  }

  lemma PickOneMore(keys: seq<string>, at: seq<nat>, i: nat)
    requires i < |keys| && forall j | j in at :: j < |keys|
    ensures Pick(keys, at + [i]) == Pick(keys, at) + [keys[i]]
  {
  }

  /** The loop of `delete_disabled_keys`. */
  method WithoutAutoDisabled(keys: seq<string>, info: Info) returns (remaining: seq<string>, next: Info, deleted: nat)
    ensures remaining == Pick(keys, NotAuto(info, |keys|)) && next == Carried(info, NotAuto(info, |keys|), true)
    ensures deleted == |keys| - |NotAuto(info, |keys|)|
  {
    remaining, next, deleted := [], Info(0, map[], map[], map[]), 0;
    for i := 0 to |keys|
      invariant remaining == Pick(keys, NotAuto(info, i)) && next == Carried(info, NotAuto(info, i), true)
      invariant deleted == i - |NotAuto(info, i)|
    {
      assert NotAuto(info, i + 1) == if StatusAt(info, i) == AUTO_DISABLED then NotAuto(info, i)
        else NotAuto(info, i) + [i];
      var status := if i in info.status then info.status[i] else ENABLED;
      if status == AUTO_DISABLED {
        deleted := deleted + 1;
      } else {
        next := CarryOver(info, i, true, next);
        CarriedOneMore(info, NotAuto(info, i), i, true);
        PickOneMore(keys, NotAuto(info, i), i);
        remaining := remaining + [keys[i]];
      }
    }
  }

  // ---------- disabling all ----------

  /** How many positions below `n` are enabled. */
  function EnabledBelow(info: Info, n: nat): nat {
    if n == 0 then 0 else EnabledBelow(info, n - 1) + if StatusAt(info, n - 1) == ENABLED then 1 else 0
  }

  /** The statuses after the enabled positions below `n` were disabled. */
  function DisabledBelow(info: Info, n: nat): map<int, int> {
    if n == 0 then info.status
    else if StatusAt(info, n - 1) == ENABLED then DisabledBelow(info, n - 1)[n - 1 := MANUALLY_DISABLED]
    else DisabledBelow(info, n - 1)
  }

  lemma {:induction false} DisabledBelowAt(info: Info, n: nat, i: int)
    ensures StatusAt(info.(status := DisabledBelow(info, n)), i)
      == if 0 <= i < n && StatusAt(info, i) == ENABLED then MANUALLY_DISABLED else StatusAt(info, i)
  {
    if n > 0 { DisabledBelowAt(info, n - 1, i); }
  }

  /** The loop of `disable_all_keys`. */
  method DisableEnabled(info: Info) returns (status: map<int, int>, count: nat)
    ensures status == DisabledBelow(info, info.size) && count == EnabledBelow(info, info.size)
  {
    status, count := info.status, 0;
    for i := 0 to info.size
      invariant status == DisabledBelow(info, i) && count == EnabledBelow(info, i)
    {
      DisabledBelowAt(info, i, i);
      if (if i in status then status[i] else ENABLED) == ENABLED {
        status := status[i := MANUALLY_DISABLED];
        count := count + 1;
      }
    }
  }

  // ---------- the actions on what is stored ----------

  function Enabled(info: Info, k: int): Info {
    info.(status := info.status - {k}, time := info.time - {k}, reason := info.reason - {k})
  }

  /** What an accepted action stores; a refused one leaves everything as it is. */
  function StoredStep(s: Stored, action: Action, arrays: Arrays): Stored {
    var keys, info := GetKeys(s.text, arrays), s.info;
    match action
    case DisableKey(k) =>
      if 0 <= k < info.size then Updated(s, s.text, info.(status := info.status[k := MANUALLY_DISABLED]), arrays) else s
    case EnableKey(k) => if 0 <= k < info.size then Updated(s, s.text, Enabled(info, k), arrays) else s
    case EnableAll => Updated(s, s.text, Info(info.size, map[], map[], map[]), arrays)
    case DisableAll =>
      if EnabledBelow(info, info.size) == 0 then s
      else Updated(s, s.text, info.(status := DisabledBelow(info, info.size)), arrays)
    case DeleteKey(k) =>
      var at := Others(|keys|, k);
      if !(0 <= k < info.size) || at == [] then s
      else Updated(s, InLines(Pick(keys, at)), Carried(info, at, false), arrays)
    case DeleteAutoDisabled =>
      var at := NotAuto(info, |keys|);
      if |at| == |keys| then s else Updated(s, InLines(Pick(keys, at)), Carried(info, at, true), arrays)
  }

  /** What the loop of `delete_disabled_keys` has to store. */
  lemma SweepStored(s: Stored, remaining: seq<string>, next: Info, deleted: nat, arrays: Arrays)
    requires var keys := GetKeys(s.text, arrays); var at := NotAuto(s.info, |keys|);
      remaining == Pick(keys, at) && next == Carried(s.info, at, true) && deleted == |keys| - |at|
    ensures StoredStep(s, DeleteAutoDisabled, arrays) == if deleted == 0 then s
      else Updated(s, InLines(remaining), next, arrays)
  {
  }

  /** The trimmed keys of the input that are not there yet. */
  function NewKeys(existing: seq<string>, input: string): seq<string> {
    Without(Normalize(SplitBy(input, '\n')), Names(Normalize(existing)))
  }

  /** The existing keys as the append branch parses them: a text that only looks like an array has none. */
  function Existing(text: string, arrays: Arrays): seq<string> {
    if LooksLikeArray(text) then (if IsArray(text, arrays) then arrays[Trim(text)] else []) else Lines(text)
  }

  /** The append branch of `UpdateChannel` for keys given one to a line. */
  function AppendStep(s: Stored, input: string, arrays: Arrays): Stored {
    var existing := Existing(s.text, arrays);
    Updated(s, if s.text == "" then input else InLines(existing + NewKeys(existing, input)), s.info, arrays)
  }

  /** The loops with their set of seen keys. */
  method Appended(existing: seq<string>, input: seq<string>) returns (all: seq<string>)
    ensures all == existing + Without(Normalize(input), Names(Normalize(existing)))
  {
    var seen := SeenKeys(existing);
    var deduped := NotSeen(input, seen);
    all := existing + deduped;
  }

  method SeenKeys(existing: seq<string>) returns (seen: set<string>)
    ensures seen == Names(Normalize(existing))
  {
    seen := {};
    for i := 0 to |existing|
      invariant seen == Names(Normalize(existing[..i]))
    {
      NormalizeStep(existing, i);
      var normalized := Trim(existing[i]);
      if normalized == "" {
        continue;
      }
      seen := seen + {normalized};
    }
    assert existing[..|existing|] == existing;
  }

  method NotSeen(input: seq<string>, had: set<string>) returns (deduped: seq<string>)
    ensures deduped == Without(Normalize(input), had)
  {
    var seen := had;
    deduped := [];
    for i := 0 to |input|
      invariant seen == had + Names(Normalize(input[..i])) && deduped == Without(Normalize(input[..i]), had)
    {
      NotSeenStep(input, i, had);
      var normalized := Trim(input[i]);
      if normalized == "" || normalized in seen {
        continue;
      }
      seen := seen + {normalized};
      deduped := deduped + [normalized];
    }
    assert input[..|input|] == input;
  }

  lemma NotSeenStep(input: seq<string>, i: nat, had: set<string>)
    requires i < |input|
    ensures var before, after, name := Normalize(input[..i]), Normalize(input[..i + 1]), Trim(input[i]);
      && Names(after) == Names(before) + (if name == "" then {} else {name})
      && Without(after, had)
         == Without(before, had) + if name == "" || name in had || name in Names(before) then [] else [name]
  {
    NormalizeStep(input, i);
    WithoutStep(Normalize(input[..i]), Trim(input[i]), had);
  }

  lemma NormalizeStep(s: seq<string>, i: nat)
    requires i < |s|
    ensures var before, name := Normalize(s[..i]), Trim(s[i]);
      Normalize(s[..i + 1]) == if name == "" || name in before then before else before + [name]
    ensures Names(Normalize(s[..i + 1])) == Names(Normalize(s[..i])) + if Trim(s[i]) == "" then {} else {Trim(s[i])}
  {
    assert s[..i + 1][..i] == s[..i];
  }

  lemma WithoutStep(s: seq<string>, x: string, a: set<string>)
    ensures Without(s + [x], a) == Without(s, a) + if x in a then [] else [x]
  {
    assert (s + [x])[..|s|] == s;
  }

  /** The loop of `Channel.Update` over the statuses. */
  method CleanUp(all: map<int, int>, size: nat) returns (status: map<int, int>)
    ensures status == map i | i in all && i < size :: all[i]
  {
    status := all;
    var todo := all.Keys;
    while exists i :: i in todo
      invariant todo <= all.Keys && status.Keys <= all.Keys
      invariant forall i | i in all :: i in status <==> i < size || i in todo
      invariant forall i | i in status :: status[i] == all[i]
      decreases |todo|
    {
      var i :| i in todo;
      if i >= size {
        status := status - {i};
      }
      todo := todo - {i};
    }
    assert status.Keys == (map i | i in all && i < size :: all[i]).Keys;
  }

  // ---------- the channel ----------

  class MultiKeyChannel {
    var key: string
    var info: Info
    const arrays: Arrays

    constructor (s: Stored, arrays: Arrays)
      ensures Now() == s && this.arrays == arrays
    { key, info, this.arrays := s.text, s.info, arrays; }

    function Now(): Stored reads this { Stored(key, info) }

    method Update(newKey: string, newInfo: Info, ok: bool) returns (done: bool)
      modifies this
      ensures done == ok && Now() == if ok then Updated(old(Now()), newKey, newInfo, arrays) else old(Now())
    {
      var keyStr := if newKey == "" then key else newKey;
      var size := CountKeys(keyStr, arrays);
      var status := CleanUp(newInfo.status, size);
      if !ok {
        return false;
      }
      key, info := keyStr, newInfo.(size := size, status := status);
      return true;
    }

    /** Disables one key; its old time and reason, if any, stay recorded. */
    method DisableKey(index: Option<int>, ok: bool) returns (answer: Answer)
      modifies this
      ensures answer == if index.None? then NoIndex else if !(0 <= index.value < old(info.size)) then OutOfRange
                        else if ok then Done(1) else DbError
      ensures Now() == if answer.Done? then StoredStep(old(Now()), Action.DisableKey(index.value), arrays)
        else old(Now())
    {
      if index.None? {
        return NoIndex;
      }
      var k := index.value;
      if k < 0 || k >= info.size {
        return OutOfRange;
      }
      var done := Update(key, info.(status := info.status[k := MANUALLY_DISABLED]), ok);
      return if done then Done(1) else DbError;
    }

    method EnableKey(index: Option<int>, ok: bool) returns (answer: Answer)
      modifies this
      ensures answer == if index.None? then NoIndex else if !(0 <= index.value < old(info.size)) then OutOfRange
                        else if ok then Done(1) else DbError
      ensures Now() == if answer.Done? then StoredStep(old(Now()), Action.EnableKey(index.value), arrays)
        else old(Now())
    {
      if index.None? {
        return NoIndex;
      }
      var k := index.value;
      if k < 0 || k >= info.size {
        return OutOfRange;
      }
      var done := Update(key, Enabled(info, k), ok);
      return if done then Done(1) else DbError;
    }

    method EnableAllKeys(ok: bool) returns (answer: Answer)
      modifies this
      ensures answer == if ok then Done(|old(info.status)|) else DbError
      ensures Now() == if ok then StoredStep(old(Now()), EnableAll, arrays) else old(Now())
    {
      var count := |info.status|;
      var done := Update(key, Info(info.size, map[], map[], map[]), ok);
      return if done then Done(count) else DbError;
    }

    method DisableAllKeys(ok: bool) returns (answer: Answer)
      modifies this
      ensures var n := EnabledBelow(old(info), old(info.size));
        answer == if n == 0 then NothingToDo else if ok then Done(n) else DbError
      ensures Now() == if ok then StoredStep(old(Now()), DisableAll, arrays) else old(Now())
    {
      var status, count := DisableEnabled(info);
      if count == 0 {
        return NothingToDo;
      }
      var done := Update(key, info.(status := status), ok);
      return if done then Done(count) else DbError;
    }

    method DeleteKey(index: Option<int>, ok: bool) returns (answer: Answer)
      modifies this
      ensures var n := |GetKeys(old(key), arrays)|;
        answer == if index.None? then NoIndex else if !(0 <= index.value < old(info.size)) then OutOfRange
                  else if Others(n, index.value) == [] then LastKey else if ok then Done(1) else DbError
      ensures Now() == if answer.Done? then StoredStep(old(Now()), Action.DeleteKey(index.value), arrays)
        else old(Now())
    {
      if index.None? {
        return NoIndex;
      }
      var k := index.value;
      if k < 0 || k >= info.size {
        return OutOfRange;
      }
      ghost var before := Now();
      var remaining, next := WithoutKey(GetKeys(key, arrays), info, k);
      if |remaining| == 0 {
        return LastKey;
      }
      assert StoredStep(before, Action.DeleteKey(k), arrays) == Updated(before, InLines(remaining), next, arrays);
      var done := Update(InLines(remaining), next, ok);
      return if done then Done(1) else DbError;
    }

    method DeleteDisabledKeys(ok: bool) returns (answer: Answer)
      modifies this
      ensures var keys := GetKeys(old(key), arrays); var n := |keys| - |NotAuto(old(info), |keys|)|;
        answer == if n == 0 then NothingToDo else if ok then Done(n) else DbError
      ensures Now() == if ok then StoredStep(old(Now()), DeleteAutoDisabled, arrays) else old(Now())
    {
      var remaining, next, deleted := WithoutAutoDisabled(GetKeys(key, arrays), info);
      SweepStored(Now(), remaining, next, deleted, arrays);
      if deleted == 0 {
        return NothingToDo;
      }
      var done := Update(InLines(remaining), next, ok);
      return if done then Done(deleted) else DbError;
    }

    method AppendKeys(input: string, ok: bool) returns (done: bool)
      modifies this
      ensures done == ok && Now() == if ok then AppendStep(old(Now()), input, arrays) else old(Now())
    {
      if key == "" {
        done := Update(input, info, ok);
        return;
      }
      var all := Appended(Existing(key, arrays), SplitBy(input, '\n'));
      done := Update(InLines(all), info, ok);
    }

    /** `get_key_status`: one page of the keys with a given status, and how many keys have which status. */
    method GetKeyStatus(page: int, pageSize: int, filter: Option<int>)
      returns (list: seq<KeyStatus>, total: nat, shownPage: int, size: int, pages: int, counts: (nat, nat, nat))
      ensures size == (if pageSize <= 0 then 50 else pageSize) && pages == Pages(total, size) && 1 <= shownPage <= pages
      ensures shownPage == if page <= 0 then 1 else if page > pages then pages else page
      ensures var all := Matching(Statuses(Rows(GetKeys(key, arrays), info)), filter);
        total == |all| && list == PageOf(all, shownPage, size)
      ensures var rows := Rows(GetKeys(key, arrays), info);
        counts == (CountStatus(rows, ENABLED), CountStatus(rows, MANUALLY_DISABLED), CountStatus(rows, AUTO_DISABLED))
    {
      var all;
      all, counts := CollectStatuses(GetKeys(key, arrays), info);
      list, total, shownPage, size, pages := PageThrough(all, page, pageSize, filter);
    }
  }
}
