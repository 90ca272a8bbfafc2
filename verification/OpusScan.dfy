/**
The duration of an Opus file: its Ogg pages are found by their capture pattern and skipped by their
segment tables, and the largest granule position counts. Page layout: section 6 of RFC 3533; granule
positions count samples at 48 kHz: section 4 of RFC 7845.
*/
module OpusScan {
  import opened Basics

  const CAPTURE: Bytes := [79, 103, 103, 83]   // "OggS"
  const HEADER := 27
  const TWO64 := 0x1_0000_0000_0000_0000
  const TWO63 := 0x8000_0000_0000_0000

  // ---------- little-endian numbers ----------

  function Pow256(k: nat): (p: nat) ensures p > 0 { if k == 0 then 1 else 256 * Pow256(k - 1) }

  function FromLittleEndian(b: Bytes): nat {
    if b == [] then 0 else b[0] + 256 * FromLittleEndian(b[1..])
  }

  function ToLittleEndian(n: nat, k: nat): (b: Bytes)
    ensures |b| == k
  {
    if k == 0 then [] else [n % 256] + ToLittleEndian(n / 256, k - 1)
  }

  lemma {:induction false} LittleEndianRoundTrip(n: nat, k: nat)
    requires n < Pow256(k)
    ensures FromLittleEndian(ToLittleEndian(n, k)) == n
  {
    if k > 0 {
      LittleEndianRoundTrip(n / 256, k - 1);
      assert ToLittleEndian(n, k)[1..] == ToLittleEndian(n / 256, k - 1);
    }
  }

  lemma {:induction false} LittleEndianBound(b: Bytes)
    ensures FromLittleEndian(b) < Pow256(|b|)
  {
    if b != [] { LittleEndianBound(b[1..]); }
  }

  lemma Pow256At8()
    ensures Pow256(8) == TWO64
  {
    assert Pow256(4) == 0x1_0000_0000 by { assert Pow256(2) == 0x1_0000; }
    assert Pow256(6) == 0x1_0000_0000_0000;
  }

  /** Reading eight bytes as a signed number. */
  function Granule(b: Bytes): (v: int)
    requires |b| == 8
  {
    var n := FromLittleEndian(b); if n < TWO63 then n else n - TWO64
  }

  function GranuleBytes(v: int64): Bytes {
    ToLittleEndian(if v >= 0 then v else v + TWO64, 8)
  }

  lemma GranuleRoundTrip(v: int64)
    ensures Granule(GranuleBytes(v)) == v
  {
    Pow256At8();
    LittleEndianRoundTrip(if v >= 0 then v else v + TWO64, 8);
  }

  // ---------- the scan ----------

  function Sum(table: Bytes): nat {
    if table == [] then 0 else Sum(table[..|table| - 1]) + table[|table| - 1]
  }

  /** The size of a body is the sum of the lacing values, one for each segment. */
  lemma SumGrows(table: Bytes, segment: byte)
    ensures Sum([]) == 0 && Sum(table + [segment]) == Sum(table) + segment
  {
    assert (table + [segment])[..|table|] == table;
  }

  function Max(a: int, b: int): int { if a > b then a else b }

  /** The largest granule position found in the rest of a file, or zero. */
  function Largest(data: Bytes): nat {
    if |data| < HEADER then 0
    else if data[..4] != CAPTURE then Largest(data[1..])
    else
      var granule, table := Granule(data[6..14]), HEADER + data[26];
      Max(granule,
          if |data| < table then 0
          else
            var next := table + Sum(data[HEADER..table]);
            if next > |data| then 0 else Largest(data[next..]))
  }

  /** What is found from a cursor on. */
  function LargestFrom(data: Bytes, cursor: nat): nat {
    if cursor > |data| then 0 else Largest(data[cursor..])
  }

  lemma NoPageAt(data: Bytes, c: nat)
    requires c + HEADER <= |data| && data[c..c + HEADER][..4] != CAPTURE
    ensures LargestFrom(data, c) == LargestFrom(data, c + 1)
  {
    assert data[c..][..4] == data[c..c + HEADER][..4] && data[c..][1..] == data[c + 1..];
  }

  lemma PageCutOff(data: Bytes, c: nat)
    requires c + HEADER <= |data| && data[c..c + HEADER][..4] == CAPTURE
    requires |data| < c + HEADER + data[c..c + HEADER][26]
    ensures LargestFrom(data, c) == Max(Granule(data[c..c + HEADER][6..14]), 0)
  {
    var rest, buf := data[c..], data[c..c + HEADER];
    assert buf == rest[..HEADER];
    assert rest[..4] == buf[..4] && rest[6..14] == buf[6..14] && rest[26] == buf[26];
  }

  lemma PageAt(data: Bytes, c: nat)
    requires c + HEADER <= |data| && data[c..c + HEADER][..4] == CAPTURE
    requires |data| >= c + HEADER + data[c..c + HEADER][26]
    ensures var buf := data[c..c + HEADER]; var table := c + HEADER + buf[26];
      LargestFrom(data, c) == Max(Granule(buf[6..14]), LargestFrom(data, table + Sum(data[c + HEADER..table])))
  {
    var rest, buf := data[c..], data[c..c + HEADER];
    assert buf == rest[..HEADER];
    assert rest[..4] == buf[..4] && rest[6..14] == buf[6..14] && rest[26] == buf[26];
    var size := HEADER + buf[26];
    assert rest[HEADER..size] == data[c + HEADER..c + size];
    var next := size + Sum(data[c + HEADER..c + size]);
    if next <= |rest| { assert rest[next..] == data[c + next..]; }
  }

  /** Less than a header holds no page. */
  lemma NothingBehind(data: Bytes, c: nat)
    ensures c + HEADER > |data| ==> LargestFrom(data, c) == 0
  {
  }

  /** `getOpusDuration` on a file whose reads are complete: every pass moves the cursor forward, also
      the one that steps back over all but one byte of what it read. */
  method GetOpusDuration(data: Bytes) returns (duration: real)
    ensures duration == Largest(data) as real / 48000.0
  {
    var totalGranulePos, cursor := 0, 0;
    assert data[0..] == data;
    ghost var ahead, largest := LargestFrom(data, 0), Largest(data);
    while cursor < |data|
      invariant 0 <= cursor && totalGranulePos >= 0
      invariant ahead == LargestFrom(data, cursor) && Max(totalGranulePos, ahead) == largest
      decreases |data| - cursor
    {
      if |data| - cursor < HEADER {
        break;
      }
      ghost var start := cursor;
      var buf := data[cursor..cursor + HEADER];
      cursor := cursor + HEADER;
      if buf[..4] != CAPTURE {
        NoPageAt(data, start);
        cursor := cursor - 26;
        continue;
      }
      var granulePos := Granule(buf[6..14]);
      if granulePos > totalGranulePos {
        totalGranulePos := granulePos;
      }
      var numSegments := buf[26];
      if |data| - cursor < numSegments {
        PageCutOff(data, start);
        break;
      }
      PageAt(data, start);
      var segmentTable := data[cursor..cursor + numSegments];
      cursor := cursor + numSegments;
      var pageSize := PageSize(segmentTable);
      cursor := cursor + pageSize;
      ahead := LargestFrom(data, cursor);
    }
    NothingBehind(data, cursor);
    duration := totalGranulePos as real / 48000.0;
  }

  method PageSize(segmentTable: Bytes) returns (pageSize: nat)
    ensures pageSize == Sum(segmentTable)
  {
    pageSize := 0;
    for i := 0 to |segmentTable|
      invariant pageSize == Sum(segmentTable[..i])
    {
      assert segmentTable[..i + 1][..i] == segmentTable[..i];
      pageSize := pageSize + segmentTable[i];
    }
    assert segmentTable[..|segmentTable|] == segmentTable;
  }

  // ---------- Ogg streams ----------

  /** A page: version and type, granule position, serial number to checksum, segment table, body. */
  datatype Page = Page(head: Bytes, granule: int64, middle: Bytes, table: Bytes, body: Bytes)

  predicate PageOk(p: Page) {
    |p.head| == 2 && |p.middle| == 12 && |p.table| < 256 && |p.body| == Sum(p.table)
  }

  function Encode(p: Page): (b: Bytes)
    requires PageOk(p)
    ensures |b| == HEADER + |p.table| + |p.body|
  {
    CAPTURE + p.head + GranuleBytes(p.granule) + p.middle + [|p.table|] + p.table + p.body
  }

  /** What a file consists of: pages, and bytes between them. */
  datatype Item = Junk(bytes: Bytes) | Ogg(page: Page)

  function BytesOf(item: Item): Bytes
    requires item.Ogg? ==> PageOk(item.page)
  {
    match item
    case Junk(bytes) => bytes
    case Ogg(page) => Encode(page)
  }

  predicate PagesOk(items: seq<Item>) { forall i | 0 <= i < |items| :: items[i].Ogg? ==> PageOk(items[i].page) }

  function Flat(items: seq<Item>): Bytes
    requires PagesOk(items)
  {
    if items == [] then [] else BytesOf(items[0]) + Flat(items[1..])
  }

  predicate CaptureAt(data: Bytes, i: nat) { i + 4 <= |data| && data[i..i + 4] == CAPTURE }

  /** The capture pattern does not begin in the bytes between the pages. */
  ghost predicate Clean(items: seq<Item>)
    requires PagesOk(items)
  {
    items != [] ==>
      && Clean(items[1..])
      && (items[0].Junk? ==> forall i | 0 <= i < |items[0].bytes| :: !CaptureAt(Flat(items), i))
  }

  function Cut(n: nat, k: nat): nat { if n < k then 0 else n - k }

  /** The largest granule position of the pages whose headers are complete in the first `n` bytes, or zero. */
  function LargestIn(items: seq<Item>, n: nat): nat
    requires PagesOk(items)
  {
    if items == [] then 0
    else
      var rest := LargestIn(items[1..], Cut(n, |BytesOf(items[0])|));
      if items[0].Ogg? && n >= HEADER then Max(items[0].page.granule, rest) else rest
  }

  /** Where an item of the file begins. */
  function StartOf(items: seq<Item>, i: nat): nat
    requires PagesOk(items) && i <= |items|
  {
    |Flat(items[..i])|
  }

  lemma StartOfRest(items: seq<Item>, i: nat)
    requires PagesOk(items) && i < |items|
    ensures StartOf(items, i + 1) == |BytesOf(items[0])| + StartOf(items[1..], i)
  {
    assert items[..i + 1][0] == items[0] && items[..i + 1][1..] == items[1..][..i];
  }

  /** A page counts when its header ends within the first `n` bytes. */
  predicate HeaderWithin(items: seq<Item>, i: nat, n: nat)
    requires PagesOk(items) && i < |items|
  {
    items[i].Ogg? && StartOf(items, i) + 27 <= n
  }

  /** It is the maximum of zero and the granule positions of exactly these pages. */
  lemma {:induction false} LargestInIs(items: seq<Item>, n: nat)
    requires PagesOk(items)
    ensures var m := LargestIn(items, n);
      && (forall i: nat | i < |items| && HeaderWithin(items, i, n) :: items[i].page.granule <= m)
      && (m == 0 || exists i: nat :: i < |items| && HeaderWithin(items, i, n) && items[i].page.granule == m)
  {
    if items != [] {
      var rest, k := items[1..], |BytesOf(items[0])|;
      var m := LargestIn(rest, Cut(n, k));
      LargestInIs(rest, Cut(n, k));
      assert StartOf(items, 0) == 0;
      forall i: nat | i < |items| && HeaderWithin(items, i, n) ensures items[i].page.granule <= LargestIn(items, n) {
        if i > 0 {
          StartOfRest(items, i - 1);
          assert HeaderWithin(rest, i - 1, Cut(n, k));
        }
      }
      if m != 0 {
        var i: nat :| i < |rest| && HeaderWithin(rest, i, Cut(n, k)) && rest[i].page.granule == m;
        StartOfRest(items, i);
        assert HeaderWithin(items, i + 1, n);
      }
      if HeaderWithin(items, 0, n) { assert items[0].Ogg?; }
    }
  }

  lemma {:induction false} NothingInNothing(items: seq<Item>, n: nat)
    requires PagesOk(items) && n < HEADER
    ensures LargestIn(items, n) == 0
  {
    if items != [] { NothingInNothing(items[1..], Cut(n, |BytesOf(items[0])|)); }
  }

  lemma {:induction false} SkipJunk(junk: Bytes, rest: Bytes, n: nat)
    requires n <= |junk + rest| && forall i | 0 <= i < |junk| :: !CaptureAt(junk + rest, i)
    ensures Largest((junk + rest)[..n]) == Largest(rest[..Cut(n, |junk|)])
  {
    if junk == [] {
      assert junk + rest == rest;
    } else if n >= HEADER {
      var data := junk + rest;
      assert data[0..4] == data[..n][..4];
      assert !CaptureAt(data, 0);
      assert data[1..] == junk[1..] + rest && data[..n][1..] == data[1..][..n - 1];
      forall i | 0 <= i < |junk[1..]| ensures !CaptureAt(data[1..], i) {
        assert !CaptureAt(data, i + 1);
        assert i + 4 <= |data[1..]| ==> data[1..][i..i + 4] == data[i + 1..i + 5];
      }
      SkipJunk(junk[1..], rest, n - 1);
    }
  }

  lemma ReadPage(p: Page, rest: Bytes, n: nat)
    requires PageOk(p) && HEADER <= n <= |Encode(p) + rest|
    ensures var data := (Encode(p) + rest)[..n];
      && data[..4] == CAPTURE && Granule(data[6..14]) == p.granule && data[26] == |p.table|
      && (n >= HEADER + |p.table| ==> data[HEADER..HEADER + |p.table|] == p.table)
  {
    var data := (Encode(p) + rest)[..n];
    assert data[..4] == CAPTURE;
    assert data[6..14] == GranuleBytes(p.granule);
    GranuleRoundTrip(p.granule);
  }

  lemma SkipPage(p: Page, rest: Bytes, n: nat)
    requires PageOk(p) && HEADER <= n <= |Encode(p) + rest|
    ensures Largest((Encode(p) + rest)[..n]) == Max(p.granule, Largest(rest[..Cut(n, |Encode(p)|)]))
  {
    ReadPage(p, rest, n);
    var data, size := (Encode(p) + rest)[..n], |Encode(p)|;
    if n >= size {
      assert data[size..] == rest[..n - size];
    }
  }

  /** On any file made of pages and other bytes, cut off anywhere, the scan finds exactly the pages
      whose headers are complete. */
  lemma {:induction false} ScanFindsPages(items: seq<Item>, n: nat)
    requires PagesOk(items) && Clean(items) && n <= |Flat(items)|
    ensures Largest(Flat(items)[..n]) == LargestIn(items, n)
  {
    if n < HEADER {
      NothingInNothing(items, n);
    } else if items != [] {
      var rest := items[1..];
      var m := Cut(n, |BytesOf(items[0])|);
      ScanFindsPages(rest, m);
      match items[0]
      case Junk(bytes) => SkipJunk(bytes, Flat(rest), n);
      case Ogg(page) => SkipPage(page, Flat(rest), n);
    }
  }

  /** The duration of a complete stream of pages is that of its largest granule position. */
  method DurationOfPages(pages: seq<Page>) returns (duration: real)
    requires forall i | 0 <= i < |pages| :: PageOk(pages[i])
    ensures exists samples: nat :: IsLargest(pages, samples) && duration == samples as real / 48000.0
  {
    var items := seq(|pages|, i requires 0 <= i < |pages| => Ogg(pages[i]));
    var data := Flat(items);
    PagesAreClean(items);
    ScanFindsPages(items, |data|);
    assert data[..|data|] == data;
    LargestIsMaximum(items);
    duration := GetOpusDuration(data);
    ghost var samples := Largest(data);
    forall i | 0 <= i < |pages| ensures pages[i].granule <= samples { assert items[i] == Ogg(pages[i]); }
    if samples != 0 {
      var i :| 0 <= i < |items| && items[i].page.granule == samples;
      assert pages[i].granule == samples;
    }
    assert IsLargest(pages, samples);
  }

  /** The maximum of zero and all granule positions. */
  ghost predicate IsLargest(pages: seq<Page>, samples: nat) {
    && (forall i | 0 <= i < |pages| :: pages[i].granule <= samples)
    && (samples == 0 || exists i :: 0 <= i < |pages| && pages[i].granule == samples)
  }

  lemma {:induction false} PagesAreClean(items: seq<Item>)
    requires PagesOk(items) && forall i | 0 <= i < |items| :: items[i].Ogg?
    ensures Clean(items)
  {
    if items != [] { PagesAreClean(items[1..]); }
  }

  lemma {:induction false} LargestIsMaximum(items: seq<Item>)
    requires PagesOk(items) && forall i | 0 <= i < |items| :: items[i].Ogg?
    ensures var m := LargestIn(items, |Flat(items)|);
      && (forall i | 0 <= i < |items| :: items[i].page.granule <= m)
      && (m == 0 || exists i :: 0 <= i < |items| && items[i].page.granule == m)
  {
    if items != [] {
      var rest := items[1..];
      LargestIsMaximum(rest);
      var m := LargestIn(rest, |Flat(rest)|);
      assert Cut(|Flat(items)|, |BytesOf(items[0])|) == |Flat(rest)|;
      assert forall i | 1 <= i < |items| :: items[i] == rest[i - 1];
      if m != 0 {
        var i :| 0 <= i < |rest| && rest[i].page.granule == m;
        assert items[i + 1].page.granule == m;
      }
    }
  }
}
