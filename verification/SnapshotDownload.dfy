/**
The resumable downloader. Data is collected in `<name>.part` and moved to `<name>` once it has the
expected size; the server may fail, cut a transfer short or ignore the requested range, and the
process may die between any two changes of the disk.
*/
module SnapshotDownload {
  import opened Basics

  type Files = map<string, Bytes>

  datatype Item = Item(path: string, size: nat)

  function Part(path: string): string { path + ".part" }

  /** How a transfer ends: regularly, by an error that is retried, or by one that is not. Opening the
      connection may fail in both ways, too. */
  datatype End = Eof | Broken | Escapes
  datatype Reply = NoReply(retried: bool) | Reply(status: nat, blocks: seq<Bytes>, end: End)

  /** What becomes of one attempt. */
  datatype Fate = Moved | Reset | Done | Failed | Escaped
  datatype Try = Try(offset: nat, fate: Fate)

  datatype Error = FileNotFound | TransferFailed | OtherError | Unreachable
  datatype Outcome = Existing | Downloaded | Raised(error: Error)

  /** `server(k, offset)`: the reply to attempt `k` (counted from zero) asking for the bytes from `offset`. */
  type Server = (nat, nat) -> Reply

  function Flat(blocks: seq<Bytes>): Bytes {
    if blocks == [] then [] else blocks[0] + Flat(blocks[1..])
  }

  /** A body is its blocks one after the other. */
  lemma {:induction false} FlatGrows(blocks: seq<Bytes>, block: Bytes)
    ensures Flat([]) == [] && Flat(blocks + [block]) == Flat(blocks) + block
  {
    if blocks == [] {
      assert [] + [block] == [block] && block + [] == block;
    } else {
      FlatGrows(blocks[1..], block);
      assert (blocks + [block])[1..] == blocks[1..] + [block];
    }
  }

  /** A range was asked for and not granted. */
  predicate Refused(reply: Reply, offset: nat) { reply.Reply? && offset > 0 && reply.status != 206 }

  /** A body holds bytes of the remote file, from the offset on when a range was granted. */
  ghost predicate ReplyOk(reply: Reply, offset: nat, remote: Bytes) {
    reply.Reply? && !Refused(reply, offset) ==> offset <= |remote| && Flat(reply.blocks) <= remote[offset..]
  }

  ghost predicate ServerOk(server: Server, remote: Bytes) {
    forall k, offset: nat | offset <= |remote| :: ReplyOk(server(k, offset), offset, remote)
  }

  /** What is on disk of an item is remote content: a prefix in the `.part` file, and a destination of
      the expected size is the whole. */
  ghost predicate Sound(f: Files, item: Item, remote: Bytes) {
    && (Part(item.path) in f ==> f[Part(item.path)] <= remote)
    && (item.path in f && |f[item.path]| == item.size ==> f[item.path] <= remote)
  }

  /** One change of the disk on behalf of an item. A block written reaches the disk byte by byte. */
  ghost predicate Step(item: Item, remote: Bytes, f: Files, g: Files) {
    var part := Part(item.path);
    || g == f - {item.path}
    || g == f - {part}
    || g == f[part := []]
    || (part in f && |f[part]| < |remote| && g == f[part := f[part] + [remote[|f[part]|]]])
    || (part in f && |f[part]| == item.size && g == f[item.path := f[part]] - {part})
  }

  lemma StepKeepsSound(item: Item, remote: Bytes, f: Files, g: Files)
    requires Step(item, remote, f, g) && Sound(f, item, remote)
    ensures Sound(g, item, remote)
  {
    var part := Part(item.path);
    assert |part| == |item.path| + 5;
    if part in f && |f[part]| < |remote| && g == f[part := f[part] + [remote[|f[part]|]]] {
      assert g[part] == remote[..|f[part]| + 1];
    }
  }

  function Offset(f: Files, path: string): nat { if Part(path) in f then |f[Part(path)]| else 0 }

  function FateOf(offset: nat, reply: Reply, size: nat): Fate {
    if offset == size then Moved
    else if reply.NoReply? then (if reply.retried then Failed else Escaped)
    else if Refused(reply, offset) then Reset
    else match reply.end
      case Escapes => Escaped
      case Broken => Failed
      case Eof => if offset + |Flat(reply.blocks)| == size then Done else Failed
  }

  /** Where the attempt after this one resumes. */
  function Resume(offset: nat, reply: Reply): nat {
    if reply.NoReply? then offset else if Refused(reply, offset) then 0 else offset + |Flat(reply.blocks)|
  }

  /** Where the next attempt resumes. */
  function Next(tries: seq<Try>, server: Server, start: nat): nat {
    if tries == [] then start
    else var k := |tries| - 1; Resume(tries[k].offset, server(k, tries[k].offset))
  }

  /** The call goes on after these attempts. */
  predicate GoesOn(tries: seq<Try>) {
    tries != [] ==> tries[|tries| - 1].fate == Reset || tries[|tries| - 1].fate == Failed
  }

  /** The attempts of a call: each resumes where the one before left off. */
  ghost predicate TriesOk(tries: seq<Try>, server: Server, size: nat, start: nat) {
    tries != [] ==>
      var before, k := tries[..|tries| - 1], |tries| - 1;
      (&& TriesOk(before, server, size, start) && GoesOn(before)
       && tries[k].offset == Next(before, server, start)
       && tries[k].fate == FateOf(tries[k].offset, server(k, tries[k].offset), size))
  }

  /** What an attempt leaves of the call; `found`: there was a `.part` file to move. */
  function After(fate: Fate, found: bool): Outcome {
    match fate
    case Moved => if found then Downloaded else Raised(FileNotFound)
    case Done => Downloaded
    case Escaped => Raised(OtherError)
    case Failed => Raised(TransferFailed)
    case Reset => Raised(Unreachable)
  }

  /** How a call that has to download ends. */
  function OutcomeOf(tries: seq<Try>, size: nat, partExists: bool): Outcome {
    if tries == [] then Raised(Unreachable) else After(tries[|tries| - 1].fate, size > 0 || partExists)
  }

  /** The call ended with its last attempt, or gave up after all of them. */
  predicate Ended(tries: seq<Try>, retries: int) {
    |tries| <= (if retries > 0 then retries else 0) && (|tries| < retries ==> !GoesOn(tries))
  }

  // ---------- what a caller can tell from the replies ----------

  /** A transfer took place: everything was asked for, or the range was granted. */
  predicate Transfers(reply: Reply, have: nat) { reply.Reply? && (have == 0 || reply.status == 206) }

  /** How many bytes the `.part` file has when attempt `k` is made. Those received stay when a transfer
      breaks off; when the server ignores the range, they are thrown away. */
  function Received(server: Server, start: nat, k: nat): nat {
    if k == 0 then start
    else
      var have := Received(server, start, k - 1);
      var reply := server(k - 1, have);
      if reply.NoReply? then have else if Transfers(reply, have) then have + |Flat(reply.blocks)| else 0
  }

  /** An attempt that is to be followed by another: a retried error, a transfer that broke off, a body of
      another length than expected, or a range that was ignored. */
  predicate Interrupted(reply: Reply, have: nat, size: nat) {
    have != size
    && match reply
       case NoReply(retried) => retried
       case Reply(status, blocks, end) =>
         || (have > 0 && status != 206)
         || end == Broken
         || (end == Eof && have + |Flat(blocks)| != size)
  }

  /** After `k` interrupted attempts all bytes are there, or the next reply brings all that are missing. */
  ghost predicate CompletesAt(server: Server, start: nat, size: nat, k: nat) {
    && (forall j: nat | j < k :: Interrupted(server(j, Received(server, start, j)), Received(server, start, j), size))
    && var have := Received(server, start, k);
       var reply := server(k, have);
       || (k > 0 && have == size)
       || (have != size && Transfers(reply, have) && reply.end == Eof && have + |Flat(reply.blocks)| == size)
  }

  lemma {:induction false} TriesReceive(tries: seq<Try>, server: Server, size: nat, start: nat, j: nat)
    requires TriesOk(tries, server, size, start) && j < |tries|
    ensures tries[j].offset == Received(server, start, j)
  {
    TryAt(tries, server, size, start, j);
    if j > 0 { TriesReceive(tries, server, size, start, j - 1); }
  }

  lemma SomethingExpected(server: Server, start: nat, size: nat, k: nat)
    requires start <= size && k > 0 && CompletesAt(server, start, size, k)
    ensures size > 0
  {
    assert Interrupted(server(0, Received(server, start, 0)), Received(server, start, 0), size);
  }

  /** Interrupted attempts are resumed where they left off, until the file is complete. */
  lemma CompletesInTime(tries: seq<Try>, server: Server, size: nat, start: nat, found: bool, retries: int, k: nat)
    requires TriesOk(tries, server, size, start) && Ended(tries, retries) && start <= size
    requires CompletesAt(server, start, size, k) && k < retries
    ensures OutcomeOf(tries, size, found) == Downloaded && |tries| == k + 1
    ensures forall j | 0 <= j <= k :: tries[j].offset == Received(server, start, j)
  {
    if 0 < |tries| <= k { TriesOn(tries, server, size, start, k, |tries| - 1); }
    if k > 0 { SomethingExpected(server, start, size, k); }
    TryAt(tries, server, size, start, k);
    forall j | 0 <= j < |tries| ensures tries[j].offset == Received(server, start, j) {
      TriesReceive(tries, server, size, start, j);
    }
  }

  /** A `.part` file that is complete already is moved at the first attempt. */
  lemma CompleteAlready(tries: seq<Try>, server: Server, size: nat, start: nat, found: bool, retries: int)
    requires TriesOk(tries, server, size, start) && Ended(tries, retries)
    ensures start == size && found && retries > 0 ==> OutcomeOf(tries, size, found) == Downloaded && |tries| == 1
  {
    if tries != [] { TryAt(tries, server, size, start, 0); }
  }

  lemma TriesOn(tries: seq<Try>, server: Server, size: nat, start: nat, k: nat, j: nat)
    requires TriesOk(tries, server, size, start) && CompletesAt(server, start, size, k) && j < |tries| && j < k
    ensures tries[j].fate == Reset || tries[j].fate == Failed
  {
    TryAt(tries, server, size, start, j);
    TriesReceive(tries, server, size, start, j);
    assert Interrupted(server(j, Received(server, start, j)), Received(server, start, j), size);
  }

  /** What an error says about the last attempt: a failed transfer was the last that was allowed; and an
      error that ends the call before is not one of those that are retried. */
  lemma ErrorsMean(tries: seq<Try>, server: Server, size: nat, start: nat, found: bool, retries: int)
    requires TriesOk(tries, server, size, start) && Ended(tries, retries) && tries != []
    ensures var have := tries[|tries| - 1].offset; var reply := server(|tries| - 1, have);
      var outcome := OutcomeOf(tries, size, found);
      && (outcome == Raised(TransferFailed) ==>
            |tries| == retries && Interrupted(reply, have, size) && (reply.NoReply? || Transfers(reply, have)))
      && (outcome == Raised(OtherError) ==>
            have != size && (reply == NoReply(false) || (Transfers(reply, have) && reply.end == Escapes)))
      && (outcome.Raised? && outcome.error != FileNotFound && |tries| < retries ==> outcome.error == OtherError)
      && (outcome == Downloaded ==>
            || (have == size && (size > 0 || found))
            || (Transfers(reply, have) && reply.end == Eof && have + |Flat(reply.blocks)| == size))
  {
    TryAt(tries, server, size, start, |tries| - 1);
  }

  predicate Exists(f: Files, item: Item) { item.path in f && |f[item.path]| == item.size }

  /** Where the first attempt starts: a `.part` file that is too long is thrown away. */
  function Start(f: Files, item: Item): nat { if Offset(f, item.path) <= item.size then Offset(f, item.path) else 0 }

  /** A `.part` file survives the preparation. */
  predicate Kept(f: Files, item: Item) { Part(item.path) in f && |f[Part(item.path)]| <= item.size }

  /** A run of changes on behalf of one item. */
  ghost predicate Linked(item: Item, remote: Bytes, trace: seq<Files>) {
    |trace| >= 1 && (|trace| > 1
      ==> Step(item, remote, trace[|trace| - 2], trace[|trace| - 1]) && Linked(item, remote, trace[..|trace| - 1]))
  }

  /** One call that downloads an item, and the disk it works on. */
  class Download {
    const item: Item
    const part: string
    ghost const remote: Bytes
    /** The disk when the call began. */
    ghost const initial: Files
    var files: Files
    /** Every state the disk has been in since the call began: what a crash may leave behind. */
    ghost var trace: seq<Files>

    ghost predicate Valid() reads this {
      && Linked(item, remote, trace) && trace[0] == initial && trace[|trace| - 1] == files
      && Sound(files, item, remote) && part == Part(item.path) && part != item.path
    }

    constructor (item: Item, ghost remote: Bytes, files: Files)
      requires Sound(files, item, remote)
      ensures Valid() && this.item == item && this.remote == remote && this.files == initial == files
    {
      this.item, this.remote, this.files, initial, trace, part := item, remote, files, files, [files], Part(item.path);
      assert |Part(item.path)| == |item.path| + 5;
    }

    method Change(g: Files)
      requires Valid() && Step(item, remote, files, g)
      modifies this
      ensures Valid() && files == g
    {
      StepKeepsSound(item, remote, files, g);
      assert (trace + [g])[..|trace|] == trace;
      files, trace := g, trace + [g];
    }

    /** Appends a block to the `.part` file, one byte after the other. */
    method Write(block: Bytes)
      requires Valid() && part in files && files[part] + block <= remote
      modifies this
      ensures Valid() && files == old(files)[part := old(files)[part] + block]
    {
      ghost var before := files[part];
      for i := 0 to |block|
        invariant Valid() && part in files && files == old(files)[part := files[part]]
        invariant files[part] == before + block[..i]
      {
        assert before + block[..i] + [block[i]] == before + block[..i + 1];
        assert (before + block)[|before| + i] == block[i];
        Change(files[part := files[part] + [block[i]]]);
      }
      assert block[..|block|] == block;
    }

    /** Copies a body to the `.part` file, block by block. */
    method Receive(blocks: seq<Bytes>)
      requires Valid() && part in files && files[part] + Flat(blocks) <= remote
      modifies this
      ensures Valid() && files == old(files)[part := old(files)[part] + Flat(blocks)]
    {
      ghost var whole, rest := files[part] + Flat(blocks), blocks;
      for i := 0 to |blocks|
        invariant Valid() && rest == blocks[i..] && part in files && files == old(files)[part := files[part]]
        invariant files[part] + Flat(rest) == whole
      {
        assert rest[0] == blocks[i];
        assert files[part] + Flat(rest) == (files[part] + blocks[i]) + Flat(rest[1..]);
        Write(blocks[i]);
        rest := rest[1..];
      }
      assert rest == [] && files[part] + Flat(rest) == files[part];
    }

    function Current(): nat reads this { if part in files then |files[part]| else 0 }

    /** Moves a finished `.part` file to its destination. */
    method Finish()
      requires Valid() && part in files && |files[part]| == item.size
      modifies this
      ensures Valid() && Fetched()
    {
      Change(files[item.path := files[part]] - {part});
    }

    /** Clears away a destination of the wrong size and a `.part` file that is too long. */
    method Prepare()
      requires Valid()
      modifies this
      ensures Valid()
      ensures Current() == Start(old(files), item) && (part in files <==> Kept(old(files), item))
    {
      if item.path in files {
        Change(files - {item.path});
      }
      if part in files && |files[part]| > item.size {
        Change(files - {part});
      }
    }

    /** One attempt at an offset that is not yet the expected size. */
    method Attempt(reply: Reply) returns (fate: Fate)
      requires Valid() && Current() != item.size && ReplyOk(reply, Current(), remote)
      modifies this
      ensures Valid() && fate == FateOf(old(Current()), reply, item.size)
      ensures fate == Failed || fate == Reset ==> Current() == Resume(old(Current()), reply)
      ensures fate == Done ==> Fetched()
    {
      if reply.NoReply? {
        return if reply.retried then Failed else Escaped;
      }
      var current := Current();
      if current > 0 && reply.status != 206 {
        Change(files - {part});
        return Reset;
      }
      if current == 0 {
        Change(files[part := []]);
      }
      Resumes(files[part], Flat(reply.blocks), remote);
      Receive(reply.blocks);
      if reply.end == Escapes {
        return Escaped;
      } else if reply.end == Broken || |files[part]| != item.size {
        return Failed;
      }
      Finish();
      return Done;
    }

    /** One pass of the retry loop: a complete `.part` file is moved, an incomplete one continued. */
    method Pass(server: Server, k: nat) returns (t: Try)
      requires Valid() && ServerOk(server, remote)
      modifies this
      ensures Valid()
      ensures t.offset == old(Current()) && t.fate == FateOf(t.offset, server(k, t.offset), item.size)
      ensures t.fate == Failed || t.fate == Reset ==> Current() == Resume(t.offset, server(k, t.offset))
      ensures t.fate == Done || (t.fate == Moved && old(part in files)) ==> Fetched()
    {
      var current := Current();
      if current != item.size {
        assert current <= |remote|;
        var fate := Attempt(server(k, current));
        return Try(current, fate);
      }
      if part in files {
        Finish();
      }
      return Try(current, Moved);
    }

    ghost predicate Fetched() reads this {
      Exists(files, item) && files[item.path] <= remote && part !in files
    }

    /** The retry loop is to go on after these attempts; it began at `first`, with a `.part` file or not. */
    ghost predicate AtHead(server: Server, tries: seq<Try>, first: nat, found: bool)
      reads this
    {
      && Valid() && ServerOk(server, remote)
      && TriesOk(tries, server, item.size, first) && GoesOn(tries) && Current() == Next(tries, server, first)
      && if tries == [] then (part in files <==> found) && first <= item.size else item.size > 0
    }

    /** One pass of the retry loop, and whether it is the last. */
    method Turn(server: Server, retries: int, tries: seq<Try>, ghost first: nat, ghost found: bool)
      returns (longer: seq<Try>, over: bool, outcome: Outcome)
      requires AtHead(server, tries, first, found) && |tries| < retries
      modifies this
      ensures Valid() && |longer| == |tries| + 1 && TriesOk(longer, server, item.size, first)
      ensures if over then outcome == OutcomeOf(longer, item.size, found) && Ended(longer, retries)
              else AtHead(server, longer, first, found) && (|longer| == retries ==> longer[|tries|].fate == Reset)
      ensures over && outcome == Downloaded ==> Fetched()
    {
      var hasPart := part in files;
      var t := Pass(server, |tries|);
      AddTry(tries, t, server, item.size, first);
      longer := tries + [t];
      over := !(t.fate == Reset || (t.fate == Failed && |longer| < retries));
      outcome := After(t.fate, hasPart);
    }

    /** The retry loop. */
    method Retry(server: Server, retries: int) returns (outcome: Outcome, tries: seq<Try>)
      requires Valid() && ServerOk(server, remote) && Current() <= item.size
      modifies this
      ensures Valid() && TriesOk(tries, server, item.size, old(Current())) && Ended(tries, retries)
      ensures outcome == OutcomeOf(tries, item.size, old(part in files))
      ensures outcome == Downloaded ==> Fetched()
    {
      ghost var first, found := Current(), part in files;
      tries := [];
      while |tries| < retries
        invariant AtHead(server, tries, first, found) && (tries != [] ==> |tries| <= retries)
        invariant |tries| >= retries && tries != [] ==> tries[|tries| - 1].fate == Reset
        decreases retries - |tries|
      {
        var over;
        tries, over, outcome := Turn(server, retries, tries, first, found);
        if over {
          return;
        }
      }
      outcome := Raised(Unreachable);
    }

    /** Downloads the file with at most `retries` attempts. */
    method DownloadOne(server: Server, retries: int) returns (outcome: Outcome, tries: seq<Try>)
      requires Valid() && ServerOk(server, remote)
      modifies this
      ensures Valid() && (Exists(old(files), item) <==> outcome == Existing)
      ensures outcome == Existing ==> files == old(files) && files[item.path] <= remote
      ensures outcome != Existing ==>
        && TriesOk(tries, server, item.size, Start(old(files), item)) && Ended(tries, retries)
        && outcome == OutcomeOf(tries, item.size, Kept(old(files), item))
      ensures outcome == Downloaded ==> Fetched()
      ensures |tries| <= if retries > 0 then retries else 0
      ensures part in old(files) && |old(files)[part]| == item.size && outcome != Existing && retries > 0 ==>
        outcome == Downloaded && |tries| == 1
      ensures var have := if part in old(files) && |old(files)[part]| <= item.size then |old(files)[part]| else 0;
        forall k: nat | outcome != Existing && k < retries && CompletesAt(server, have, item.size, k) ::
          outcome == Downloaded && |tries| == k + 1
          && forall j: nat | j <= k :: tries[j].offset == Received(server, have, j)
    {
      if item.path in files && |files[item.path]| == item.size {
        return Existing, [];
      }
      Prepare();
      ghost var have, found := Current(), part in files;
      outcome, tries := Retry(server, retries);
      CompleteAlready(tries, server, item.size, have, found, retries);
      forall k: nat | k < retries && CompletesAt(server, have, item.size, k)
        ensures outcome == Downloaded && |tries| == k + 1
        ensures forall j: nat | j <= k :: tries[j].offset == Received(server, have, j)
      {
        CompletesInTime(tries, server, item.size, have, found, retries, k);
      }
    }
  }

  lemma AddTry(tries: seq<Try>, t: Try, server: Server, size: nat, start: nat)
    requires TriesOk(tries, server, size, start) && GoesOn(tries)
    requires t.offset == Next(tries, server, start) && t.fate == FateOf(t.offset, server(|tries|, t.offset), size)
    ensures TriesOk(tries + [t], server, size, start)
    ensures Next(tries + [t], server, start) == Resume(t.offset, server(|tries|, t.offset))
  {
    assert (tries + [t])[..|tries|] == tries;
  }

  lemma Resumes(have: Bytes, more: Bytes, remote: Bytes)
    requires have <= remote && more <= remote[|have|..]
    ensures have + more <= remote
  {
    assert remote == have + remote[|have|..];
  }

  // ----- What the attempts of a call come to -----

  /** The attempts up to any one of them obey the same rules. */
  lemma {:induction false} TriesUpTo(tries: seq<Try>, server: Server, size: nat, start: nat, n: nat)
    requires TriesOk(tries, server, size, start) && n <= |tries|
    ensures TriesOk(tries[..n], server, size, start) && (n < |tries| ==> GoesOn(tries[..n]))
  {
    if n < |tries| {
      assert tries[..|tries| - 1][..n] == tries[..n];
      TriesUpTo(tries[..|tries| - 1], server, size, start, n);
    } else {
      assert tries[..n] == tries;
    }
  }

  /** Each attempt by itself. */
  lemma TryAt(tries: seq<Try>, server: Server, size: nat, start: nat, k: nat)
    requires TriesOk(tries, server, size, start) && k < |tries|
    ensures tries[k].fate == FateOf(tries[k].offset, server(k, tries[k].offset), size)
    ensures tries[k].offset == if k == 0 then start else Resume(tries[k - 1].offset, server(k - 1, tries[k - 1].offset))
    ensures k < |tries| - 1 ==> tries[k].fate == Reset || tries[k].fate == Failed
  {
    TriesUpTo(tries, server, size, start, k + 1);
    var now := tries[..k + 1];
    assert now[k] == tries[k] && now[..k] == tries[..k];
    assert k > 0 ==> now[..k][k - 1] == tries[k - 1];
  }

  /** A missing file is renamed exactly when nothing is expected and no empty `.part` file is there. */
  lemma FileNotFoundIff(tries: seq<Try>, server: Server, f: Files, item: Item, retries: int)
    requires TriesOk(tries, server, item.size, Start(f, item)) && Ended(tries, retries)
    ensures OutcomeOf(tries, item.size, Kept(f, item)) == Raised(FileNotFound)
      <==> item.size == 0 && !Kept(f, item) && retries > 0
  {
    if retries > 0 && item.size == 0 {
      TryAt(tries, server, 0, Start(f, item), 0);
    }
  }

  /** The reply hands over all that is missing, or refuses the range. */
  ghost predicate Serves(reply: Reply, offset: nat, remote: Bytes) {
    reply.Reply? && reply.end == Eof
      && (Refused(reply, offset) || (offset <= |remote| && Flat(reply.blocks) == remote[offset..]))
  }

  /** A complete reply ends the call successfully. */
  lemma CompleteReplySucceeds(tries: seq<Try>, server: Server, remote: Bytes, start: nat, k: nat)
    requires TriesOk(tries, server, |remote|, start) && k < |tries|
    requires var reply := server(k, tries[k].offset);
      Serves(reply, tries[k].offset, remote) && !Refused(reply, tries[k].offset)
    ensures k == |tries| - 1 && (tries[k].fate == Done || tries[k].fate == Moved)
  {
    TryAt(tries, server, |remote|, start, k);
  }

  /** Once the server is up, two more attempts are enough, even if it knows no ranges. */
  lemma TwoAttemptsSuffice(tries: seq<Try>, server: Server, remote: Bytes, start: nat, retries: int, k: nat)
    requires TriesOk(tries, server, |remote|, start) && Ended(tries, retries) && k < |tries| && k + 2 <= retries
    requires forall j, offset: nat | j >= k :: Serves(server(j, offset), offset, remote)
    ensures |tries| <= k + 2 && (tries[|tries| - 1].fate == Done || tries[|tries| - 1].fate == Moved)
  {
    TryAt(tries, server, |remote|, start, k);
    if !Refused(server(k, tries[k].offset), tries[k].offset) {
      CompleteReplySucceeds(tries, server, remote, start, k);
    } else if tries[k].fate == Reset {
      assert |tries| == k + 1 ==> GoesOn(tries);
      TryAt(tries, server, |remote|, start, k + 1);
      CompleteReplySucceeds(tries, server, remote, start, k + 1);
    }
  }

  /** The "unreachable" error is raised exactly when no attempt is allowed or the last one was a reset. */
  lemma UnreachableIff(tries: seq<Try>, server: Server, f: Files, item: Item, retries: int)
    requires TriesOk(tries, server, item.size, Start(f, item)) && Ended(tries, retries)
    ensures OutcomeOf(tries, item.size, Kept(f, item)) == Raised(Unreachable)
      <==> retries <= 0 || (&& |tries| == retries
                            && Refused(server(retries - 1, tries[retries - 1].offset), tries[retries - 1].offset)
                            && tries[retries - 1].offset != item.size)
  {
  }
}
