/**
What a multi-key channel records about its keys, and the paged listing of their statuses.
*/
module KeyListing {
  import opened Basics

  const ENABLED := 1
  const MANUALLY_DISABLED := 2
  const AUTO_DISABLED := 3

  datatype Info = Info(size: nat, status: map<int, int>, time: map<int, int>, reason: map<int, string>)

  /** A key with what is recorded about it; a missing time or reason reads as zero or empty. */
  datatype Row = Row(key: string, status: int, time: int, reason: string)

  function StatusAt(info: Info, i: int): int { if i in info.status then info.status[i] else ENABLED }
  function TimeAt(info: Info, i: int): int { if i in info.time then info.time[i] else 0 }
  function ReasonAt(info: Info, i: int): string { if i in info.reason then info.reason[i] else "" }

  function RowAt(key: string, info: Info, i: int): Row {
    Row(key, StatusAt(info, i), TimeAt(info, i), ReasonAt(info, i))
  }

  function Rows(keys: seq<string>, info: Info): seq<Row> {
    seq(|keys|, i requires 0 <= i < |keys| => RowAt(keys[i], info, i))
  }

  /** A row shows the key at its position and what is recorded there; nothing recorded means enabled. */
  lemma RowIs(keys: seq<string>, info: Info, i: nat)
    requires i < |keys|
    ensures var row := Rows(keys, info)[i];
      && row.key == keys[i]
      && row.status == (if i in info.status then info.status[i] else 1)
      && row.time == (if i in info.time then info.time[i] else 0)
      && row.reason == (if i in info.reason then info.reason[i] else "")
  {
  }

  function Fresh(key: string): Row { Row(key, ENABLED, 0, "") }

  function CountStatus(rows: seq<Row>, status: int): nat {
    if rows == [] then 0
    else CountStatus(rows[..|rows| - 1], status) + if rows[|rows| - 1].status == status then 1 else 0
  }

  datatype KeyStatus = KeyStatus(index: nat, status: int, time: int, reason: string)

  /** What is listed of a row: time and reason only of a disabled key. */
  function StatusOf(index: nat, row: Row): KeyStatus {
    if row.status == ENABLED then KeyStatus(index, ENABLED, 0, "")
    else KeyStatus(index, row.status, row.time, row.reason)
  }

  function Statuses(rows: seq<Row>): seq<KeyStatus> {
    seq(|rows|, i requires 0 <= i < |rows| => StatusOf(i, rows[i]))
  }

  function Matching(all: seq<KeyStatus>, filter: Option<int>): seq<KeyStatus> {
    if all == [] || filter.None? then all
    else
      var last := all[|all| - 1];
      Matching(all[..|all| - 1], filter) + if last.status == filter.value then [last] else []
  }

  /** Where the entries of a status are. */
  function Positions(all: seq<KeyStatus>, status: int): set<nat> {
    set j: nat | j < |all| && all[j].status == status
  }

  lemma OneMorePosition(all: seq<KeyStatus>, last: KeyStatus, status: int)
    ensures Positions(all + [last], status) == Positions(all, status) + if last.status == status then {|all|} else {}
  {
  }

  lemma {:induction false} MatchingMembers(all: seq<KeyStatus>, filter: Option<int>)
    requires filter.Some?
    ensures forall m | m in Matching(all, filter) :: m.status == filter.value && m in all
    ensures |Matching(all, filter)| == |Positions(all, filter.value)|
  {
    if all != [] {
      var init, last := all[..|all| - 1], all[|all| - 1];
      MatchingMembers(init, filter);
      OneMorePosition(init, last, filter.value);
      assert all == init + [last];
    }
  }

  lemma {:induction false} MatchingAt(all: seq<KeyStatus>, filter: Option<int>, i: nat)
    requires filter.Some? && i < |all|
    ensures all[i].status == filter.value ==>
      && |Matching(all[..i], filter)| < |Matching(all, filter)|
      && Matching(all, filter)[|Matching(all[..i], filter)|] == all[i]
  {
    var init := all[..|all| - 1];
    if i < |init| {
      MatchingAt(init, filter, i);
      assert init[..i] == all[..i];
    }
  }

  /** The entries listed under a filter: exactly those of this status, each behind those of this status
      that are before it; without a filter, all. */
  lemma MatchingIs(all: seq<KeyStatus>, filter: Option<int>, i: nat)
    requires i < |all|
    ensures filter.None? ==> Matching(all, filter) == all
    ensures filter.Some? ==>
      && |Matching(all, filter)| == |Positions(all, filter.value)|
      && (forall m | m in Matching(all, filter) :: m.status == filter.value && m in all)
      && (all[i].status == filter.value ==>
            && |Positions(all[..i], filter.value)| < |Matching(all, filter)|
            && Matching(all, filter)[|Positions(all[..i], filter.value)|] == all[i])
  {
    if filter.Some? {
      MatchingMembers(all, filter);
      MatchingMembers(all[..i], filter);
      MatchingAt(all, filter, i);
    }
  }

  /** What is listed of a row: its status, and time and reason unless it is enabled. */
  lemma StatusIs(index: nat, row: Row)
    ensures var k := StatusOf(index, row);
      && k.index == index && k.status == row.status
      && (row.status != 1 ==> k.time == row.time && k.reason == row.reason)
      && (row.status == 1 ==> k.time == 0 && k.reason == "")
  {
  }

  function RowsWith(rows: seq<Row>, status: int): set<nat> { set j: nat | j < |rows| && rows[j].status == status }

  lemma OneMoreRow(rows: seq<Row>, last: Row, status: int)
    ensures RowsWith(rows + [last], status) == RowsWith(rows, status) + if last.status == status then {|rows|} else {}
  {
  }

  lemma {:induction false} CountIsSize(rows: seq<Row>, status: int)
    ensures CountStatus(rows, status) == |RowsWith(rows, status)|
  {
    if rows != [] {
      var init, last := rows[..|rows| - 1], rows[|rows| - 1];
      CountIsSize(init, status);
      OneMoreRow(init, last, status);
      assert rows == init + [last];
    }
  }

  function Pages(total: nat, size: int): (pages: int)
    requires size > 0
    ensures pages >= 1
  {
    var pages := (total + size - 1) / size; if pages == 0 then 1 else pages
  }

  function Bound(s: seq<KeyStatus>, n: int): nat {
    if n < 0 then 0 else if n > |s| then |s| else n
  }

  function PageOf(s: seq<KeyStatus>, page: int, size: int): seq<KeyStatus>
    requires size > 0 && page >= 1
  {
    assert (page - 1) * size <= page * size;
    s[Bound(s, (page - 1) * size)..Bound(s, page * size)]
  }

  function CountsOf(rows: seq<Row>): (nat, nat, nat) {
    (CountStatus(rows, ENABLED), CountStatus(rows, MANUALLY_DISABLED), CountStatus(rows, AUTO_DISABLED))
  }

  lemma OneMoreCounted(rows: seq<Row>, i: nat)
    requires i < |rows|
    ensures var was, now, status := CountsOf(rows[..i]), CountsOf(rows[..i + 1]), rows[i].status;
      && now.0 == was.0 + (if status == ENABLED then 1 else 0)
      && now.1 == was.1 + (if status == MANUALLY_DISABLED then 1 else 0)
      && now.2 == was.2 + (if status == AUTO_DISABLED then 1 else 0)
  {
    assert rows[..i + 1][..i] == rows[..i];
  }

  method Incremented(was: (nat, nat, nat), status: int) returns (counts: (nat, nat, nat))
    ensures counts.0 == was.0 + (if status == ENABLED then 1 else 0)
    ensures counts.1 == was.1 + (if status == MANUALLY_DISABLED then 1 else 0)
    ensures counts.2 == was.2 + (if status == AUTO_DISABLED then 1 else 0)
  {
    var (enabled, manual, auto) := was;
    match status {
      case 1 => enabled := enabled + 1;
      case 2 => manual := manual + 1;
      case 3 => auto := auto + 1;
      case _ =>
    }
    counts := (enabled, manual, auto);
  }

  method CollectStatuses(keys: seq<string>, info: Info) returns (all: seq<KeyStatus>, counts: (nat, nat, nat))
    ensures all == Statuses(Rows(keys, info))
    ensures var rows := Rows(keys, info);
      counts == (CountStatus(rows, ENABLED), CountStatus(rows, MANUALLY_DISABLED), CountStatus(rows, AUTO_DISABLED))
  {
    ghost var rows := Rows(keys, info);
    counts := (0, 0, 0);
    all := [];
    for i := 0 to |keys|
      invariant |all| == i && forall j | 0 <= j < i :: all[j] == StatusOf(j, rows[j])
      invariant counts == CountsOf(rows[..i])
    {
      OneMoreCounted(rows, i);
      var status, time, reason := ENABLED, 0, "";
      if i in info.status {
        status := info.status[i];
      }
      counts := Incremented(counts, status);
      if status != ENABLED {
        time, reason := TimeAt(info, i), ReasonAt(info, i);
      }
      all := all + [KeyStatus(i, status, time, reason)];
    }
    assert rows[..|keys|] == rows;
  }

  method PageCount(total: nat, size: int) returns (pages: int)
    requires size > 0
    ensures pages == Pages(total, size)
  {
    pages := (total + size - 1) / size;
    if pages == 0 {
      pages := 1;
    }
  }

  /** The entries of a page as they are cut out. */
  lemma PageSlice(s: seq<KeyStatus>, page: int, size: int)
    requires size > 0 && page >= 1
    ensures var start := (page - 1) * size; var end := if start + size > |s| then |s| else start + size;
      && 0 <= start
      && PageOf(s, page, size) == if start < |s| then s[start..end] else []
  {
    PageBounds(page, size);
  }

  method PageThrough(all: seq<KeyStatus>, page: int, pageSize: int, filter: Option<int>)
    returns (list: seq<KeyStatus>, total: nat, shownPage: int, size: int, pages: int)
    ensures size == (if pageSize <= 0 then 50 else pageSize) && pages == Pages(total, size) && 1 <= shownPage <= pages
    ensures shownPage == if page <= 0 then 1 else if page > pages then pages else page
    ensures total == |Matching(all, filter)| && list == PageOf(Matching(all, filter), shownPage, size)
  {
    shownPage, size := if page <= 0 then 1 else page, if pageSize <= 0 then 50 else pageSize;
    var filtered := Filtered(all, filter);
    total := |filtered|;
    pages := PageCount(total, size);
    if shownPage > pages {
      shownPage := pages;
    }
    var start := (shownPage - 1) * size;
    var end := start + size;
    PageSlice(filtered, shownPage, size);
    if end > total {
      end := total;
    }
    list := if start < total then filtered[start..end] else [];
  }

  method Filtered(all: seq<KeyStatus>, filter: Option<int>) returns (filtered: seq<KeyStatus>)
    ensures filtered == Matching(all, filter)
  {
    if filter.None? {
      return all;
    }
    filtered := [];
    for i := 0 to |all|
      invariant filtered == Matching(all[..i], filter)
    {
      assert all[..i + 1][..i] == all[..i];
      if all[i].status == filter.value {
        filtered := filtered + [all[i]];
      }
    }
    assert all[..|all|] == all;
  }

  lemma PageBounds(page: int, size: int)
    requires page >= 1 && size > 0
    ensures 0 <= (page - 1) * size && (page - 1) * size + size == page * size
  {
  }

  function AllPages(s: seq<KeyStatus>, size: int, n: nat): seq<KeyStatus>
    requires size > 0
  {
    if n == 0 then [] else AllPages(s, size, n - 1) + PageOf(s, n, size)
  }

  lemma {:induction false} FirstPages(s: seq<KeyStatus>, size: int, n: nat)
    requires size > 0
    ensures AllPages(s, size, n) == s[..Bound(s, n * size)]
  {
    if n > 0 {
      FirstPages(s, size, n - 1);
      PageBounds(n, size);
    }
  }

  /** Every page but the last is full, and the last is not empty, unless there is nothing to show. */
  lemma PageSizes(s: seq<KeyStatus>, size: int, page: int)
    requires size > 0 && 1 <= page <= Pages(|s|, size)
    ensures page < Pages(|s|, size) ==> |PageOf(s, page, size)| == size
    ensures page == Pages(|s|, size) && s != [] ==> 0 < |PageOf(s, page, size)| <= size
    ensures forall i | 0 <= i < |PageOf(s, page, size)| :: PageOf(s, page, size)[i] == s[(page - 1) * size + i]
  {
    var q := (|s| + size - 1) / size;
    assert |s| + size - 1 == q * size + (|s| + size - 1) % size;
    PageBounds(page, size);
    PageFits(page, q, size);
  }

  lemma PageFits(page: int, q: int, size: int)
    requires size > 0
    ensures page < q ==> page * size <= q * size - size
  {
    if page < q { TimesMonotone(page, q - 1, size); }
  }

  /** Going through all pages shows every matching key once, in order. */
  lemma PagesPartition(s: seq<KeyStatus>, size: int)
    requires size > 0
    ensures AllPages(s, size, Pages(|s|, size)) == s
  {
    var q := (|s| + size - 1) / size;
    assert q * size >= |s| by { assert |s| + size - 1 == q * size + (|s| + size - 1) % size; }
    FirstPages(s, size, Pages(|s|, size));
    assert Pages(|s|, size) * size >= |s|;
  }
}
