/**
The two stores a request body is kept in, in memory and in a temporary file, and the store they
both stand for: bytes, a cursor, and whether it was closed. File operations succeed, and a file
read returns as many bytes as there are.
*/
module BodyStorage {
  import opened Basics
  import opened DiskCache

  datatype IoError = EOF | StorageClosed | BadSeek

  /** The three cases of the seek interface. */
  datatype Whence = SeekStart | SeekCurrent | SeekEnd

  datatype Op = Read(n: nat) | Seek(offset: int, whence: Whence) | ReadAll | Size | Close

  /** What a caller sees of one operation. */
  datatype Seen =
    | Data(data: Bytes, error: Option<IoError>)
    | Position(at: int, error: Option<IoError>)
    | Content(content: Bytes, error: Option<IoError>)
    | Length(n: nat)
    | Done

  datatype Store = Store(content: Bytes, cursor: nat, closed: bool)

  function Min(a: int, b: int): int { if a < b then a else b }

  /** The bytes from the cursor on, at most `n` of them. */
  function Chunk(st: Store, n: nat): Bytes {
    if st.cursor >= |st.content| then [] else st.content[st.cursor..Min(st.cursor + n, |st.content|)]
  }

  /** Where a seek leads; to a negative position it leads nowhere. */
  function Target(st: Store, offset: int, whence: Whence): int {
    match whence
    case SeekStart => offset
    case SeekCurrent => st.cursor + offset
    case SeekEnd => |st.content| + offset
  }

  /** The abstract store. */
  function Step(st: Store, op: Op): (Store, Seen) {
    match op
    case Size => (st, Length(|st.content|))
    case Close => (st.(closed := true), Done)
    case Read(n) =>
      if st.closed then (st, Data([], Some(StorageClosed)))
      else if st.cursor >= |st.content| then (st, Data([], Some(EOF)))
      else (st.(cursor := st.cursor + |Chunk(st, n)|), Data(Chunk(st, n), None))
    case Seek(offset, whence) =>
      if st.closed then (st, Position(0, Some(StorageClosed)))
      else if Target(st, offset, whence) < 0 then (st, Position(0, Some(BadSeek)))
      else (st.(cursor := Target(st, offset, whence)), Position(Target(st, offset, whence), None))
    case ReadAll => (st, if st.closed then Content([], Some(StorageClosed)) else Content(st.content, None))
  }

  /** An empty read at the end: a memory reader reports the end, a file reports nothing. */
  predicate EmptyReadAtEnd(st: Store, op: Op) {
    op == Read(0) && !st.closed && st.cursor >= |st.content|
  }

  /** The store in a file. */
  function DiskStep(st: Store, op: Op): (Store, Seen) {
    if EmptyReadAtEnd(st, op) then (st, Data([], None)) else Step(st, op)
  }

  // ---------- in memory ----------

  class MemoryStorage {
    const data: Bytes
    const size: nat
    var position: nat  // of the byte reader
    var closed: bool
    const stats: DiskCacheStats

    ghost predicate Valid() { size == |data| }

    ghost function Abs(): Store
      reads this
    {
      Store(data, position, closed)
    }

    constructor (data: Bytes, stats: DiskCacheStats)
      modifies stats`activeMemoryBuffers, stats`currentMemoryUsageBytes
      ensures Valid() && Abs() == Store(data, 0, false) && this.stats == stats
      ensures stats.activeMemoryBuffers == old(stats.activeMemoryBuffers) + 1
      ensures stats.currentMemoryUsageBytes == old(stats.currentMemoryUsageBytes) + |data|
    {
      this.data, this.size, this.stats := data, |data|, stats;
      position, closed := 0, false;
      new;
      stats.IncrementMemoryBuffers(|data|);
    }

    method Read(n: nat) returns (seen: Seen)
      requires Valid()
      modifies this`position
      ensures (Abs(), seen) == Step(old(Abs()), Op.Read(n))
    {
      if closed {
        return Data([], Some(StorageClosed));
      }
      if position >= |data| {
        return Data([], Some(EOF));
      }
      var upTo := Min(position + n, |data|);
      seen := Data(data[position..upTo], None);
      position := upTo;
    }

    method Seek(offset: int, whence: Whence) returns (seen: Seen)
      requires Valid()
      modifies this`position
      ensures (Abs(), seen) == Step(old(Abs()), Op.Seek(offset, whence))
    {
      if closed {
        return Position(0, Some(StorageClosed));
      }
      var abs: int;
      match whence {
        case SeekStart => abs := offset;
        case SeekCurrent => abs := position + offset;
        case SeekEnd => abs := |data| + offset;
      }
      if abs < 0 {
        return Position(0, Some(BadSeek));
      }
      position := abs;
      return Position(abs, None);
    }

    method ReadAll() returns (seen: Seen)
      requires Valid()
      ensures (Abs(), seen) == Step(Abs(), Op.ReadAll)
    {
      if closed {
        return Content([], Some(StorageClosed));
      }
      return Content(data, None);
    }

    method GetSize() returns (seen: Seen)
      requires Valid()
      ensures (Abs(), seen) == Step(Abs(), Op.Size)
    {
      return Length(size);
    }

    /** Takes the body off the counters the first time only. */
    method Close() returns (seen: Seen)
      requires Valid()
      modifies this`closed, stats`activeMemoryBuffers, stats`currentMemoryUsageBytes
      ensures (Abs(), seen) == Step(old(Abs()), Op.Close)
      ensures var once := if old(closed) then 0 else 1;
        && stats.activeMemoryBuffers == old(stats.activeMemoryBuffers) - once
        && stats.currentMemoryUsageBytes == old(stats.currentMemoryUsageBytes) - once * |data|
    {
      if !closed {
        closed := true;
        stats.DecrementMemoryBuffers(size);
      }
      return Done;
    }
  }

  // ---------- in a file ----------

  class TempFile {
    var content: Bytes
    var offset: nat
    var open: bool
    var onDisk: bool

    constructor ()
      ensures content == [] && offset == 0 && open && onDisk
    {
      content, offset, open, onDisk := [], 0, true, true;
    }

    method Write(data: Bytes)
      requires open && offset == |content|
      modifies this
      ensures content == old(content) + data && offset == |content| && open && onDisk == old(onDisk)
    {
      content := content + data;
      offset := |content|;
    }

    method SeekTo(target: int) returns (ok: bool)
      requires open
      modifies this`offset
      ensures ok <==> target >= 0
      ensures offset == if target >= 0 then target else old(offset)
    {
      ok := target >= 0;
      if ok { offset := target; }
    }

    method Read(n: nat) returns (data: Bytes, atEnd: bool)
      requires open
      modifies this`offset
      ensures data == Chunk(Store(content, old(offset), false), n)
      ensures offset == old(offset) + |data|
      ensures atEnd <==> n > 0 && old(offset) >= |content|
    {
      if offset >= |content| {
        return [], n > 0;
      }
      data := content[offset..Min(offset + n, |content|)];
      atEnd := false;
      offset := offset + |data|;
    }

    method CloseAndRemove()
      modifies this`open, this`onDisk
      ensures !open && !onDisk
    {
      open, onDisk := false, false;
    }
  }

  class DiskStorage {
    const file: TempFile
    const size: nat
    var closed: bool
    const stats: DiskCacheStats

    ghost predicate Valid()
      reads this, file
    {
      && size == |file.content|
      && (closed <==> !file.open) && (closed <==> !file.onDisk)
    }

    ghost function Abs(): Store
      reads this, file
    {
      Store(file.content, file.offset, closed)
    }

    /** Write, rewind, count. */
    constructor (data: Bytes, stats: DiskCacheStats)
      modifies stats`activeDiskFiles, stats`currentDiskUsageBytes
      ensures Valid() && fresh(file) && Abs() == Store(data, 0, false) && this.stats == stats
      ensures stats.activeDiskFiles == old(stats.activeDiskFiles) + 1
      ensures stats.currentDiskUsageBytes == old(stats.currentDiskUsageBytes) + |data|
    {
      var f := new TempFile();
      f.Write(data);
      assert f.content == data;
      var ok := f.SeekTo(0);
      file, size, closed := f, |data|, false;
      this.stats := stats;
      new;
      stats.IncrementDiskFiles(|data|);
    }

    method Read(n: nat) returns (seen: Seen)
      requires Valid()
      modifies file`offset
      ensures Valid() && (Abs(), seen) == DiskStep(old(Abs()), Op.Read(n))
    {
      if closed {
        return Data([], Some(StorageClosed));
      }
      var data, atEnd := file.Read(n);
      return Data(data, if atEnd then Some(EOF) else None);
    }

    method Seek(offset: int, whence: Whence) returns (seen: Seen)
      requires Valid()
      modifies file`offset
      ensures Valid() && (Abs(), seen) == DiskStep(old(Abs()), Op.Seek(offset, whence))
    {
      if closed {
        return Position(0, Some(StorageClosed));
      }
      var target := Target(Store(file.content, file.offset, false), offset, whence);
      var ok := file.SeekTo(target);
      return if ok then Position(target, None) else Position(0, Some(BadSeek));
    }

    /** Rewinds the file, reads it whole and goes back: the cursor ends where it was. */
    method ReadAll() returns (seen: Seen)
      requires Valid()
      modifies file`offset
      ensures Valid() && (Abs(), seen) == DiskStep(old(Abs()), Op.ReadAll)
    {
      if closed {
        return Content([], Some(StorageClosed));
      }
      var currentPos := file.offset;
      var ok := file.SeekTo(0);
      var data, _ := file.Read(size);
      assert data == file.content;
      ok := file.SeekTo(currentPos);
      return Content(data, None);
    }

    method GetSize() returns (seen: Seen)
      requires Valid()
      ensures (Abs(), seen) == DiskStep(Abs(), Op.Size)
    {
      return Length(size);
    }

    /** Removes the file and takes it off the counters the first time only. */
    method Close() returns (seen: Seen)
      requires Valid()
      requires !closed ==> stats.activeDiskFiles >= 1 && stats.currentDiskUsageBytes >= size  // it was counted
      modifies this`closed, file`open, file`onDisk, stats`activeDiskFiles, stats`currentDiskUsageBytes
      ensures Valid() && !file.onDisk && (Abs(), seen) == DiskStep(old(Abs()), Op.Close)
      ensures var once := if old(closed) then 0 else 1;
        && stats.activeDiskFiles == old(stats.activeDiskFiles) - once
        && stats.currentDiskUsageBytes == old(stats.currentDiskUsageBytes) - once * size
    {
      if !closed {
        closed := true;
        file.CloseAndRemove();
        stats.DecrementDiskFiles(size);
      }
      return Done;
    }
  }

  // ---------- any sequence of operations ----------

  function Run(st: Store, ops: seq<Op>): (seen: seq<Seen>)
    ensures |seen| == |ops|
    decreases |ops|
  {
    if ops == [] then [] else [Step(st, ops[0]).1] + Run(Step(st, ops[0]).0, ops[1..])
  }

  function DiskRun(st: Store, ops: seq<Op>): (seen: seq<Seen>)
    ensures |seen| == |ops|
    decreases |ops|
  {
    if ops == [] then [] else [DiskStep(st, ops[0]).1] + DiskRun(DiskStep(st, ops[0]).0, ops[1..])
  }

  /** The store after some operations. */
  function After(st: Store, ops: seq<Op>): Store
    decreases |ops|
  {
    if ops == [] then st else After(Step(st, ops[0]).0, ops[1..])
  }

  /** Some operation reads nothing at or past the end of the open store. */
  ghost predicate ReadsNothingAtEnd(st: Store, ops: seq<Op>)
    decreases |ops|
  {
    ops != [] && (EmptyReadAtEnd(st, ops[0]) || ReadsNothingAtEnd(Step(st, ops[0]).0, ops[1..]))
  }

  /** A caller can tell the two stores apart exactly by an empty read at the end. */
  lemma {:induction false} StoresAgreeIff(st: Store, ops: seq<Op>)
    ensures Run(st, ops) == DiskRun(st, ops) <==> !ReadsNothingAtEnd(st, ops)
    decreases |ops|
  {
    if ops != [] {
      var next := Step(st, ops[0]).0;
      assert DiskStep(st, ops[0]).0 == next;
      StoresAgreeIff(next, ops[1..]);
      assert Run(st, ops)[0] == Step(st, ops[0]).1 && DiskRun(st, ops)[0] == DiskStep(st, ops[0]).1;
      assert Run(st, ops)[1..] == Run(next, ops[1..]) && DiskRun(st, ops)[1..] == DiskRun(next, ops[1..]);
    }
  }

  function AllData(seen: seq<Seen>): Bytes {
    if seen == [] then [] else (if seen[0].Data? then seen[0].data else []) + AllData(seen[1..])
  }

  ghost predicate OnlyReads(ops: seq<Op>) {
    forall i | 0 <= i < |ops| :: ops[i].Read?
  }

  /** One read delivers the bytes from the cursor to where it ends up. */
  lemma OneRead(st: Store, op: Op)
    requires op.Read? && !st.closed && st.cursor <= |st.content|
    ensures var (next, seen) := Step(st, op);
      && st.cursor <= next.cursor <= |st.content| && next.content == st.content && !next.closed
      && seen.Data? && seen.data == st.content[st.cursor..next.cursor]
      && (seen.error == Some(EOF) ==> next.cursor == |st.content|)
  {
  }

  lemma DataAfter(first: Seen, others: seq<Seen>)
    requires first.Data?
    ensures AllData([first] + others) == first.data + AllData(others)
  {
    assert ([first] + others)[1..] == others;
  }

  lemma Adjacent(s: Bytes, i: nat, j: nat, k: nat)
    requires i <= j <= k <= |s|
    ensures s[i..k] == s[i..j] + s[j..k]
  {
  }

  lemma {:induction false} ReadsDeliver(st: Store, ops: seq<Op>)
    requires OnlyReads(ops) && !st.closed && st.cursor <= |st.content|
    ensures var end := After(st, ops);
      && st.cursor <= end.cursor <= |st.content| && end.content == st.content && !end.closed
      && AllData(Run(st, ops)) == st.content[st.cursor..end.cursor]
    decreases |ops|
  {
    if ops != [] {
      var (next, seen) := Step(st, ops[0]);
      OneRead(st, ops[0]);
      ReadsDeliver(next, ops[1..]);
      DataAfter(seen, Run(next, ops[1..]));
      Adjacent(st.content, st.cursor, next.cursor, After(next, ops[1..]).cursor);
    }
  }

  lemma {:induction false} EndIsFinal(st: Store, ops: seq<Op>, i: nat)
    requires OnlyReads(ops) && !st.closed && st.cursor <= |st.content|
    requires i < |ops| && Run(st, ops)[i] == Data([], Some(EOF))
    ensures After(st, ops).cursor == |st.content|
    decreases |ops|
  {
    var next := Step(st, ops[0]).0;
    OneRead(st, ops[0]);
    ReadsDeliver(next, ops[1..]);
    if i > 0 {
      assert Run(st, ops)[i] == Run(next, ops[1..])[i - 1];
      EndIsFinal(next, ops[1..], i - 1);
    }
  }

  /** Reading on and on delivers the bytes from the cursor to where the cursor ends up, each once
      and in order; a reader that has seen the end has seen everything. */
  lemma {:induction false} ReadsDeliverInOrder(st: Store, ops: seq<Op>)
    requires OnlyReads(ops) && !st.closed && st.cursor <= |st.content|
    ensures var end := After(st, ops);
      && st.cursor <= end.cursor <= |st.content| && end.content == st.content && !end.closed
      && AllData(Run(st, ops)) == st.content[st.cursor..end.cursor]
      && ((exists i :: 0 <= i < |ops| && Run(st, ops)[i] == Data([], Some(EOF))) ==> end.cursor == |st.content|)
  {
    ReadsDeliver(st, ops);
    if i :| 0 <= i < |ops| && Run(st, ops)[i] == Data([], Some(EOF)) {
      EndIsFinal(st, ops, i);
    }
  }

  // ---------- where a seek leads ----------

  /** A read has reported the end. */
  ghost predicate EndSeen(seen: seq<Seen>) { exists i :: 0 <= i < |seen| && seen[i] == Data([], Some(EOF)) }

  /** The content from a position on. */
  function ContentFrom(content: Bytes, at: nat): Bytes { if at <= |content| then content[at..] else [] }

  /** Behind the end there is nothing to read. */
  lemma {:induction false} NothingBehindEnd(st: Store, rest: seq<Op>)
    requires OnlyReads(rest) && !st.closed && st.cursor > |st.content|
    ensures AllData(Run(st, rest)) == []
    decreases |rest|
  {
    if rest != [] {
      NothingBehindEnd(st, rest[1..]);
      DataAfter(Step(st, rest[0]).1, Run(st, rest[1..]));
    }
  }

  /** Reading until the end is reported delivers all that is behind the cursor. */
  lemma ReadToEnd(st: Store, rest: seq<Op>)
    requires OnlyReads(rest) && !st.closed
    ensures EndSeen(Run(st, rest)) ==> AllData(Run(st, rest)) == ContentFrom(st.content, st.cursor)
  {
    if st.cursor <= |st.content| {
      ReadsDeliverInOrder(st, rest);
    } else {
      NothingBehindEnd(st, rest);
    }
  }

  /** The two stores deliver the same bytes, and what the file reports as the end is the end. */
  lemma {:induction false} SameData(st: Store, ops: seq<Op>)
    ensures AllData(DiskRun(st, ops)) == AllData(Run(st, ops)) && (EndSeen(DiskRun(st, ops)) ==> EndSeen(Run(st, ops)))
    decreases |ops|
  {
    if ops != [] {
      var next, others := Step(st, ops[0]).0, ops[1..];
      SameData(next, others);
      if i :| 0 <= i < |ops| && DiskRun(st, ops)[i] == Data([], Some(EOF)) { EndAgrees(st, ops, i); }
    }
  }

  lemma EndAgrees(st: Store, ops: seq<Op>, i: nat)
    requires i < |ops| && DiskRun(st, ops)[i] == Data([], Some(EOF))
    requires EndSeen(DiskRun(Step(st, ops[0]).0, ops[1..])) ==> EndSeen(Run(Step(st, ops[0]).0, ops[1..]))
    ensures EndSeen(Run(st, ops))
  {
    var next, others := Step(st, ops[0]).0, ops[1..];
    if i == 0 {
      assert Run(st, ops)[0] == Data([], Some(EOF));
    } else {
      assert DiskRun(next, others)[i - 1] == Data([], Some(EOF));
      var j :| 0 <= j < |others| && Run(next, others)[j] == Data([], Some(EOF));
      assert Run(st, ops)[j + 1] == Data([], Some(EOF));
    }
  }

  /** What is read after a seek until the end is reported: the content from `at` on. */
  ghost predicate SeekLeadsTo(st: Store, offset: int, whence: Whence, at: nat) {
    forall rest | OnlyReads(rest) ::
      var ops := [Seek(offset, whence)] + rest;
      && (EndSeen(Run(st, ops)) ==> AllData(Run(st, ops)) == ContentFrom(st.content, at))
      && (EndSeen(DiskRun(st, ops)) ==> AllData(DiskRun(st, ops)) == ContentFrom(st.content, at))
  }

  lemma SeekThenRead(st: Store, offset: int, whence: Whence, rest: seq<Op>)
    requires OnlyReads(rest) && !st.closed
    ensures var at := Step(st, Seek(offset, whence)).0.cursor; var ops := [Seek(offset, whence)] + rest;
      && (EndSeen(Run(st, ops)) ==> AllData(Run(st, ops)) == ContentFrom(st.content, at))
      && (EndSeen(DiskRun(st, ops)) ==> AllData(DiskRun(st, ops)) == ContentFrom(st.content, at))
  {
    var ops, next := [Seek(offset, whence)] + rest, Step(st, Seek(offset, whence)).0;
    assert ops[1..] == rest;
    SameData(st, ops);
    ReadToEnd(next, rest);
    if i :| 0 <= i < |ops| && Run(st, ops)[i] == Data([], Some(EOF)) {
      assert Run(next, rest)[i - 1] == Data([], Some(EOF));
    }
  }

  lemma Leads(st: Store, offset: int, whence: Whence)
    requires !st.closed
    ensures SeekLeadsTo(st, offset, whence, Step(st, Seek(offset, whence)).0.cursor)
  {
    forall rest | OnlyReads(rest)
      ensures var ops := [Seek(offset, whence)] + rest; var at := Step(st, Seek(offset, whence)).0.cursor;
        && (EndSeen(Run(st, ops)) ==> AllData(Run(st, ops)) == ContentFrom(st.content, at))
        && (EndSeen(DiskRun(st, ops)) ==> AllData(DiskRun(st, ops)) == ContentFrom(st.content, at))
    {
      SeekThenRead(st, offset, whence, rest);
    }
  }

  /** From the start, what follows is the content from there on: after seeking to 0, all of it. From
      the current position, it is what would have been read next, moved by the offset; from the end,
      exactly the last bytes. A seek to a negative position changes nothing. */
  lemma SeeksLead(st: Store, offset: int)
    requires !st.closed
    ensures SeekLeadsTo(st, offset, SeekStart, if offset >= 0 then offset else st.cursor)
    ensures SeekLeadsTo(st, offset, SeekCurrent, if st.cursor + offset >= 0 then st.cursor + offset else st.cursor)
    ensures SeekLeadsTo(st, offset, SeekEnd,
                        if |st.content| + offset >= 0 then |st.content| + offset else st.cursor)
  {
    Leads(st, offset, SeekStart);
    Leads(st, offset, SeekCurrent);
    Leads(st, offset, SeekEnd);
  }

  /** Without a close the store stays open and holds what it held. */
  lemma {:induction false} StaysOpen(st: Store, ops: seq<Op>)
    requires !st.closed && Close !in ops
    ensures !After(st, ops).closed && After(st, ops).content == st.content
    decreases |ops|
  {
    if ops != [] { StaysOpen(Step(st, ops[0]).0, ops[1..]); }
  }

  /** Rewinding gives back the whole content, whatever was done before. */
  lemma RewindDeliversAll(st: Store, ops: seq<Op>, rest: seq<Op>)
    requires !st.closed && Close !in ops && OnlyReads(rest)
    ensures var now, again := After(st, ops), [Seek(0, SeekStart)] + rest;
      && (EndSeen(Run(now, again)) ==> AllData(Run(now, again)) == st.content)
      && (EndSeen(DiskRun(now, again)) ==> AllData(DiskRun(now, again)) == st.content)
  {
    StaysOpen(st, ops);
    SeekThenRead(After(st, ops), 0, SeekStart, rest);
  }

  /** What single operations show: a read as many bytes as there are, up to those asked for, and the
      end only when there are none; `Bytes` the whole content, `Size` its length at any time. A closed
      store refuses everything else, and both stores stay as they were. */
  lemma WhatIsSeen(st: Store, n: nat, offset: int, whence: Whence)
    ensures !st.closed ==>
      var left := if st.cursor < |st.content| then |st.content| - st.cursor else 0;
      && |Step(st, Read(n)).1.data| == |DiskStep(st, Read(n)).1.data| == (if n < left then n else left)
      && (Step(st, Read(n)).1.error == Some(EOF) <==> left == 0)
      && (DiskStep(st, Read(n)).1.error == Some(EOF) <==> left == 0 && n > 0)
      && Step(st, ReadAll) == DiskStep(st, ReadAll) == (st, Content(st.content, None))
    ensures Step(st, Size) == DiskStep(st, Size) == (st, Length(|st.content|))
    ensures st.closed ==>
      && Step(st, Read(n)) == DiskStep(st, Read(n)) == (st, Data([], Some(StorageClosed)))
      && Step(st, Seek(offset, whence)) == DiskStep(st, Seek(offset, whence)) == (st, Position(0, Some(StorageClosed)))
      && Step(st, ReadAll) == DiskStep(st, ReadAll) == (st, Content([], Some(StorageClosed)))
      && Step(st, Close) == DiskStep(st, Close) == (st, Done)
  {
  }

  /** `Bytes` hands out the whole content wherever the cursor is and leaves the store as it was;
      after a close nothing but the size can be had. */
  lemma ReadAllIsTransparent(st: Store, before: seq<Op>, after: seq<Op>)
    ensures Run(st, before + [ReadAll] + after)
         == Run(st, before) + [Step(After(st, before), ReadAll).1] + Run(After(st, before), after)
    decreases |before|
  {
    if before == [] {
      assert before + [ReadAll] + after == [ReadAll] + after;
      assert ([ReadAll] + after)[1..] == after;
    } else {
      assert (before + [ReadAll] + after)[1..] == before[1..] + [ReadAll] + after;
      ReadAllIsTransparent(Step(st, before[0]).0, before[1..], after);
    }
  }
}
