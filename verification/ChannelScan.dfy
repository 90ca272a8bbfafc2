/**
The background scan over the enabled channels: pages of channels in ascending order of their id,
each page starting after the last id of the one before. The table may change between two queries:
`tables(p)` is the table the `p`-th query sees.
*/
module ChannelScan {

  /** What checking a channel comes to. */
  datatype Check = Failed | Checked(changed: bool, autoAdded: nat, detected: nat, removed: nat)

  datatype Row = Row(id: int, enabled: bool, checkEnabled: bool, check: Check)

  /** What the scan has counted so far. */
  datatype Report = Report(checked: nat, failedIds: seq<int>, changedChannels: nat, detectedAdd: nat,
                           detectedRemove: nat, autoAdded: nat, refreshNeeded: bool)

  const NOTHING := Report(0, [], 0, 0, 0, 0, false)

  /** Rows in primary-key order. */
  ghost predicate Table(rows: seq<Row>) {
    && (forall i | 0 <= i < |rows| :: rows[i].id > 0)
    && forall i, j | 0 <= i < j < |rows| :: rows[i].id < rows[j].id
  }

  /** There is an enabled channel `id`. */
  ghost predicate Has(rows: seq<Row>, id: int) {
    exists r :: r in rows && r.enabled && r.id == id
  }

  ghost predicate HasInAll(tables: nat -> seq<Row>, pages: nat, id: int) {
    forall p: nat | p < pages :: Has(tables(p), id)
  }

  ghost predicate EnabledInSome(tables: nat -> seq<Row>, pages: nat, r: Row) {
    r.enabled && exists p: nat :: p < pages && r in tables(p)
  }

  function Selected(rows: seq<Row>, lastId: int): seq<Row> {
    if rows == [] then []
    else (if rows[0].enabled
      && (lastId > 0 ==> rows[0].id > lastId) then [rows[0]] else []) + Selected(rows[1..], lastId)
  }

  /** The query of one page. */
  function Page(rows: seq<Row>, lastId: int, limit: nat): seq<Row> {
    var s := Selected(rows, lastId);
    if |s| <= limit then s else s[..limit]
  }

  function Counted(r: Report, row: Row): Report {
    if !row.checkEnabled then r
    else
      var c := r.(checked := r.checked + 1);
      match row.check
      case Failed => c.(failedIds := c.failedIds + [row.id])
      case Checked(changed, autoAdded, detected, removed) =>
        c.(detectedAdd := c.detectedAdd + detected + autoAdded, detectedRemove := c.detectedRemove + removed,
           autoAdded := c.autoAdded + autoAdded, refreshNeeded := c.refreshNeeded || changed,
           changedChannels := c.changedChannels + if detected + autoAdded > 0 || removed > 0 then 1 else 0)
  }

  /** Counting every row once, in order. */
  function Tally(rows: seq<Row>): Report {
    if rows == [] then NOTHING else Counted(Tally(rows[..|rows| - 1]), rows[|rows| - 1])
  }

  lemma {:induction false} SelectedMembers(rows: seq<Row>, lastId: int)
    ensures forall r :: r in Selected(rows, lastId) <==> r in rows && r.enabled && (lastId > 0 ==> r.id > lastId)
  {
    if rows != [] { SelectedMembers(rows[1..], lastId); }
  }

  lemma {:induction false} SelectedOrder(rows: seq<Row>, lastId: int)
    requires Table(rows)
    ensures Table(Selected(rows, lastId))
  {
    if rows != [] {
      SelectedOrder(rows[1..], lastId);
      SelectedMembers(rows[1..], lastId);
      var rest := Selected(rows[1..], lastId);
      forall i | 0 <= i < |rest| ensures rest[i].id > rows[0].id { assert rest[i] in rows[1..]; }
    }
  }

  /** A page lists channels behind `lastId` in order, and skips none up to its last one. */
  lemma PageIs(rows: seq<Row>, lastId: int, limit: nat, page: seq<Row>)
    requires Table(rows) && lastId >= 0 && limit > 0 && page == Page(rows, lastId, limit)
    ensures Table(page) && |page| <= limit
    ensures forall r | r in page :: r in rows && r.enabled && r.id > lastId
    ensures forall id | Has(rows, id) && id > lastId && (|page| == limit ==> id <= page[limit - 1].id) :: Has(page, id)
  {
    SelectedMembers(rows, lastId);
    SelectedOrder(rows, lastId);
    var s := Selected(rows, lastId);
    forall id | Has(rows, id) && id > lastId && (|page| == limit ==> id <= page[limit - 1].id) ensures Has(page, id) {
      var r :| r in rows && r.enabled && r.id == id;
      var k :| 0 <= k < |s| && s[k] == r;
      assert page[k] == r;
    }
  }

  /** Visiting one page. */
  method VisitPage(channels: seq<Row>, before: seq<Row>, reportBefore: Report)
    returns (visited: seq<Row>, report: Report)
    requires reportBefore == Tally(before)
    ensures visited == before + channels && report == Tally(visited)
  {
    visited, report := before, reportBefore;
    for i := 0 to |channels|
      invariant visited == before + channels[..i] && report == Tally(visited)
    {
      ghost var was := visited;
      report := Counted(report, channels[i]);
      visited := visited + [channels[i]];
      assert visited[..|visited| - 1] == was;
      assert channels[..i + 1] == channels[..i] + [channels[i]];
    }
    assert channels[..|channels|] == channels;
  }

  /** What holds after `pages` answered queries, of which the last ended with channel `lastId`. */
  ghost predicate Scanned(tables: nat -> seq<Row>, pages: nat, visited: seq<Row>, lastId: int) {
    && Table(visited) && lastId == (if visited == [] then 0 else visited[|visited| - 1].id)
    && (forall r | r in visited :: EnabledInSome(tables, pages, r))
    && forall id | HasInAll(tables, pages, id) && 0 < id <= lastId :: Has(visited, id)
  }

  lemma Appends(visited: seq<Row>, lastId: int, page: seq<Row>)
    requires Table(visited) && Table(page) && (forall r | r in page :: r.id > lastId)
    requires visited == [] || visited[|visited| - 1].id == lastId
    ensures Table(visited + page)
  {
    var now := visited + page;
    forall i, j | 0 <= i < j < |now| ensures now[i].id < now[j].id {
      assert j >= |visited| ==> page[j - |visited|] in page;
    }
  }

  lemma PageKeepsScanned(tables: nat -> seq<Row>, pages: nat, visited: seq<Row>, lastId: int, page: seq<Row>)
    requires Scanned(tables, pages, visited, lastId) && Table(page) && page != []
    requires forall r | r in page :: r in tables(pages) && r.enabled && r.id > lastId
    requires forall id | Has(tables(pages), id) && lastId < id <= page[|page| - 1].id :: Has(page, id)
    ensures Scanned(tables, pages + 1, visited + page, page[|page| - 1].id)
  {
    var now := visited + page;
    Appends(visited, lastId, page);
    forall r | r in now ensures EnabledInSome(tables, pages + 1, r) { assert r in visited || r in page; }
    forall id | HasInAll(tables, pages + 1, id) && 0 < id <= page[|page| - 1].id ensures Has(now, id) {
      assert Has(tables(pages), id);
      if id <= lastId {
        assert HasInAll(tables, pages, id);
        var r :| r in visited && r.enabled && r.id == id;
        assert r in now;
      } else {
        var r :| r in page && r.enabled && r.id == id;
        assert r in now;
      }
    }
  }

  ghost predicate TablesOk(tables: nat -> seq<Row>, maxId: nat) {
    forall p :: Table(tables(p)) && forall r | r in tables(p) :: r.id <= maxId
  }

  /** Every channel that was enabled whenever the table was read has been visited. */
  ghost predicate Complete(tables: nat -> seq<Row>, pages: nat, visited: seq<Row>) {
    forall id | HasInAll(tables, pages, id) :: Has(visited, id)
  }

  /** No channel is visited twice, whatever happens to the table meanwhile; one that is enabled
      whenever the table is read is visited, unless a query fails (`fails(p)`: the `p`-th one does);
      and the counters are those of one pass over the channels visited. Ids never exceed `maxId`. */
  method Scan(tables: nat -> seq<Row>, batchSize: nat, fails: nat -> bool, ghost maxId: nat)
    returns (visited: seq<Row>, report: Report, pages: nat)
    requires batchSize > 0 && TablesOk(tables, maxId)
    ensures Table(visited) && forall r | r in visited :: EnabledInSome(tables, pages, r)
    ensures fails(pages) || (pages > 0 && Complete(tables, pages, visited))
    ensures report == Tally(visited)
  {
    visited, report, pages := [], NOTHING, 0;
    var lastId := 0;
    while true
      invariant 0 <= lastId <= maxId
      invariant Scanned(tables, pages, visited, lastId) && report == Tally(visited)
      decreases maxId - lastId
    {
      if fails(pages) {
        break;
      }
      var channels := Page(tables(pages), lastId, batchSize);
      PageStep(tables, pages, visited, lastId, batchSize, channels, maxId);
      pages := pages + 1;
      if |channels| == 0 {
        break;
      }
      lastId := channels[|channels| - 1].id;
      visited, report := VisitPage(channels, visited, report);
      if |channels| < batchSize {
        break;
      }
    }
  }

  /** What one page does for the scan; a page that is not full is the last. */
  lemma PageStep(tables: nat -> seq<Row>, pages: nat, visited: seq<Row>, lastId: int, limit: nat, page: seq<Row>,
                 maxId: nat)
    requires Scanned(tables, pages, visited, lastId) && TablesOk(tables, maxId) && lastId >= 0 && limit > 0
    requires page == Page(tables(pages), lastId, limit)
    ensures page == [] ==> Scanned(tables, pages + 1, visited, lastId) && Complete(tables, pages + 1, visited)
    ensures page != [] ==> lastId < page[|page| - 1].id <= maxId
    ensures page != [] ==> Scanned(tables, pages + 1, visited + page, page[|page| - 1].id)
    ensures |page| < limit ==> Complete(tables, pages + 1, visited + page)
  {
    PageIs(tables(pages), lastId, limit, page);
    if page != [] {
      PageKeepsScanned(tables, pages, visited, lastId, page);
      assert page[|page| - 1] in page;
    }
    assert page == [] ==> visited + page == visited;
    forall id | |page| < limit && HasInAll(tables, pages + 1, id) ensures Has(visited + page, id) {
      ShortPageCompletes(tables, pages, visited, lastId, page, id);
    }
  }

  lemma ShortPageCompletes(tables: nat -> seq<Row>, pages: nat, visited: seq<Row>, lastId: int, page: seq<Row>, id: int)
    requires Scanned(tables, pages, visited, lastId) && Table(tables(pages)) && HasInAll(tables, pages + 1, id)
    requires forall id | Has(tables(pages), id) && id > lastId :: Has(page, id)
    ensures Has(visited + page, id)
  {
    assert Has(tables(pages), id);
    assert HasInAll(tables, pages, id);
    if id <= lastId {
      var r :| r in visited && r.enabled && r.id == id;
      assert r in visited + page;
    } else {
      var r :| r in page && r.enabled && r.id == id;
      assert r in visited + page;
    }
  }

  lemma {:induction false} AscendingUnique(a: seq<Row>, b: seq<Row>)
    requires Table(a) && Table(b) && forall r :: r in a <==> r in b
    ensures a == b
  {
    assert a != [] ==> a[0] in b;
    assert b != [] ==> b[0] in a;
    if a != [] && b != [] {
      var m, n := |a| - 1, |b| - 1;
      assert a[m] in b && b[n] in a;
      assert a[m] == b[n];
      forall r ensures r in a[..m] <==> r in b[..n] {
        assert r in a[..m] <==> r in a && r != a[m];
        assert r in b[..n] <==> r in b && r != b[n];
      }
      AscendingUnique(a[..m], b[..n]);
      assert a == a[..m] + [a[m]] && b == b[..n] + [b[n]];
    }
  }

  /** A scan of a table that does not change visits exactly its enabled channels, each once, in
      order of id, when no query fails. */
  method ScanFixedTable(rows: seq<Row>, batchSize: nat, ghost maxId: nat) returns (visited: seq<Row>, report: Report)
    requires batchSize > 0 && Table(rows) && forall r | r in rows :: r.id <= maxId
    ensures visited == Selected(rows, 0) && report == Tally(Selected(rows, 0))
  {
    var pages;
    visited, report, pages := Scan(_ => rows, batchSize, _ => false, maxId);
    SelectedMembers(rows, 0);
    SelectedOrder(rows, 0);
    forall r | r in Selected(rows, 0) ensures r in visited {
      assert Has(rows, r.id);
      assert HasInAll(_ => rows, pages, r.id);
      var v :| v in visited && v.enabled && v.id == r.id;
      assert v in rows;
    }
    AscendingUnique(visited, Selected(rows, 0));
  }
}
