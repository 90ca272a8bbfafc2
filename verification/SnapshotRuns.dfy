/**
What the files of a snapshot hold in the end, after downloads at the same time, crashes and restarts,
and exactly which listings make downloads disturb each other.
*/
module SnapshotRuns {
  import opened Basics
  import opened SnapshotDownload
  import opened SnapshotCalls

  // ---------- what safe names guarantee ----------

  lemma NoClashIsSafe(items: seq<Item>)
    requires forall a: nat, b: nat :: !Clash(items, a, b)
    ensures SafeNames(items)
  {
    forall b: nat, m: nat, t: nat | t > 0 && b < |items| ensures !Chain(items, b, t, m) {}
  }

  /** If no file is named like the `.part` file of another, every `.part` file is at all times a prefix
      of its remote content, and every file of the right size has the right content. */
  lemma RunKeepsSound(w: World, run: seq<State>, n: nat, j: nat)
    requires Distinct(w.items) && Run(w, run) && AtStart(w, run[0]) && n < |run| && j < |w.items|
    requires forall a: nat, b: nat :: !Clash(w.items, a, b)
    ensures j < |w.remotes| && SoundAt(w, run[n], j)
  {
    NoClashIsSafe(w.items);
    RunKeeps(w, run, n);
    assert CallOk(w, run[n], j);
  }

  /** The disk as a sequential call sees it. */
  function FilesOf(s: State): Files { map n | n in s.names && s.names[n] < |s.nodes| :: s.nodes[s.names[n]] }

  lemma UnlinkedFiles(s: State, name: string, j: nat, pc: Pc)
    requires j < |s.calls|
    ensures FilesOf(Goto(Unlink(s, name), j, pc)) == FilesOf(s) - {name}
  {
  }

  lemma RenamedFiles(s: State, from: string, to: string, j: nat, pc: Pc)
    requires j < |s.calls| && from in s.names && s.names[from] < |s.nodes| && from != to
    ensures FilesOf(Goto(Rename(s, from, to), j, pc)) == FilesOf(s)[to := FilesOf(s)[from]] - {from}
  {
  }

  /** The content of a file under one name changes. */
  lemma ChangedFiles(w: World, s: State, t: State, name: string)
    requires NodesOk(w, s) && name in s.names && t.names == s.names && |t.nodes| == |s.nodes|
    requires forall i | 0 <= i < |s.nodes| && i != s.names[name] :: t.nodes[i] == s.nodes[i]
    ensures FilesOf(t) == FilesOf(s)[name := t.nodes[s.names[name]]]
  {
  }

  lemma OpenedFiles(w: World, s: State, name: string, truncate: bool)
    requires NodesOk(w, s) && (truncate || Holds(s, name).Some?)
    ensures FilesOf(Open(s, name, truncate)) == if truncate then FilesOf(s)[name := []] else FilesOf(s)
  {
    if truncate && Holds(s, name).Some? { ChangedFiles(w, s, Open(s, name, true), name); }
  }

  /** A running call whose `.part` file is its own changes the disk as the sequential call does. */
  lemma CallTakesSteps(w: World, s: State, j: nat, act: Act)
    requires NodesOk(w, s) && j < |w.items| && FreeCall(w, s, j) && Can(w, s, j, act)
    ensures var f, g := FilesOf(s), FilesOf(Do(w, s, j, act)); g == f || Step(w.items[j], w.remotes[j], f, g)
  {
    var path, part := w.items[j].path, Part(w.items[j].path);
    PartInjective(path, path);
    if act == Go {
      match s.calls[j]
      case AtUnlinkDestination => UnlinkedFiles(s, path, j, AtPart);
      case AtUnlinkPart => UnlinkedFiles(s, part, j, AtLoop);
      case AtReset => UnlinkedFiles(s, part, j, AtLoop);
      case AtMove => RenamedFiles(s, part, path, j, Idle);
      case AtReplace => RenamedFiles(s, part, path, j, Idle);
      case AtOpen(current) => OpenedFiles(w, s, part, current == 0);
      case Writing(node, offset) => ChangedFiles(w, s, Do(w, s, j, act), part);
      case _ =>
    }
  }

  /** The listing gives the size of every content. */
  ghost predicate Lists(w: World) {
    |w.remotes| == |w.items| && forall j: nat | j < |w.items| :: |w.remotes[j]| == w.items[j].size
  }

  /** The final check looks at sizes only, yet with safe names it means that the files are the remote ones. */
  lemma SizesMeanContents(w: World, run: seq<State>)
    requires Distinct(w.items) && SafeNames(w.items) && Lists(w) && Run(w, run) && AtStart(w, run[0])
    ensures var files := FilesOf(run[|run| - 1]);
      forall j: nat | j < |w.items| && Exists(files, w.items[j]) :: files[w.items[j].path] == w.remotes[j]
  {
    var s := run[|run| - 1];
    RunKeeps(w, run, |run| - 1);
    forall j: nat | j < |w.items| && Exists(FilesOf(s), w.items[j])
      ensures FilesOf(s)[w.items[j].path] == w.remotes[j]
    {
      assert FileRight(w, s, j);
    }
  }

  /** The check of all sizes after the downloads: the first file that fails it, if any. */
  method FinalVerification(items: seq<Item>, files: Files) returns (failed: int)
    ensures -1 <= failed < |items|
    ensures failed >= 0 ==> !Exists(files, items[failed])
    ensures forall i | 0 <= i < (if failed == -1 then |items| else failed) :: Exists(files, items[i])
  {
    for i := 0 to |items|
      invariant forall j | 0 <= j < i :: Exists(files, items[j])
    {
      var actual := if items[i].path in files then |files[items[i].path]| else -1;
      if actual != items[i].size {
        return i;
      }
    }
    return -1;
  }

  // ---------- runs that do harm ----------

  /** A run from an empty disk so far, and where it has come to. */
  ghost predicate Reaches(w: World, run: seq<State>, s: State) {
    && Run(w, run) && StateOk(w, s) && run[|run| - 1] == s
    && run[0] == State(map[], [], seq(|w.items|, i => Idle))
  }

  lemma Goes(w: World, run: seq<State>, s: State, j: nat, act: Act) returns (longer: seq<State>)
    requires Reaches(w, run, s) && j < |w.items| && Can(w, s, j, act) && StateOk(w, Do(w, s, j, act))
    ensures Reaches(w, longer, Do(w, s, j, act))
  {
    longer := run + [Do(w, s, j, act)];
    forall i | 0 < i < |longer| ensures SystemCall(w, longer[i - 1], longer[i]) {
      assert i < |run| ==> SystemCall(w, run[i - 1], run[i]);
    }
  }

  /** A call begins, finds no destination and no `.part` file that is too long, and comes to its loop. */
  lemma Arrives(w: World, run: seq<State>, s: State, j: nat) returns (longer: seq<State>)
    requires Reaches(w, run, s) && j < |w.items| && s.calls[j].Idle?
    requires Holds(s, w.items[j].path).None? && SizeOf(s, Part(w.items[j].path)) <= w.items[j].size
    ensures Reaches(w, longer, Goto(s, j, AtLoop))
  {
    longer := Goes(w, run, s, j, Go);
    longer := Goes(w, longer, Goto(s, j, AtCheck), j, Go);
    longer := Goes(w, longer, Goto(s, j, AtDestination), j, Go);
    longer := Goes(w, longer, Goto(s, j, AtPart), j, Go);
    assert Goto(Goto(s, j, AtPart), j, AtLoop) == Goto(s, j, AtLoop);
  }

  /** From the loop to the open file: the rest of the content is asked for, and granted. */
  lemma Asks(w: World, run: seq<State>, s: State, j: nat) returns (longer: seq<State>, current: nat)
    requires Reaches(w, run, s) && j < |w.items| && s.calls[j].AtLoop?
    requires SizeOf(s, Part(w.items[j].path)) != w.items[j].size
    ensures current == SizeOf(s, Part(w.items[j].path)) && Reaches(w, longer, Goto(s, j, AtOpen(current)))
  {
    current := SizeOf(s, Part(w.items[j].path));
    longer := Goes(w, run, s, j, Go);
    longer := Goes(w, longer, Goto(s, j, AtRequest(current)), j, Go);
    assert Goto(Goto(s, j, AtRequest(current)), j, AtOpen(current)) == Goto(s, j, AtOpen(current));
  }

  function Written(s: State, j: nat, node: nat, data: Bytes, offset: nat): State
    requires j < |s.calls| && node < |s.nodes|
  {
    s.(nodes := s.nodes[node := s.nodes[node] + data], calls := s.calls[j := Writing(node, offset)])
  }

  /** An open file takes in the bytes up to `to`. */
  lemma {:induction false} Writes(w: World, run: seq<State>, s: State, j: nat, node: nat, offset: nat, to: nat)
    returns (longer: seq<State>)
    requires Reaches(w, run, s) && j < |w.items|
    requires s.calls[j] == Writing(node, offset) && offset <= to <= |w.remotes[j]|
    ensures node < |s.nodes| && Reaches(w, longer, Written(s, j, node, w.remotes[j][offset..to], to))
    decreases if to >= offset then to - offset else 0
  {
    if offset == to {
      longer := run;
      assert s.nodes[node] + [] == s.nodes[node];
      assert Written(s, j, node, [], to) == s;
    } else {
      var remote := w.remotes[j];
      var t := Do(w, s, j, Go);
      longer := Goes(w, run, s, j, Go);
      longer := Writes(w, longer, t, j, node, offset + 1, to);
      assert s.nodes[node] + [remote[offset]] + remote[offset + 1..to] == s.nodes[node] + remote[offset..to];
      assert Written(t, j, node, remote[offset + 1..to], to) == Written(s, j, node, remote[offset..to], to);
    }
  }

  /** A transfer ends, and what has the expected size is moved. */
  lemma Moves(w: World, run: seq<State>, s: State, j: nat) returns (longer: seq<State>)
    requires Reaches(w, run, s) && NodesOk(w, s) && j < |w.items| && s.calls[j].Writing?
    requires HasSize(s, Part(w.items[j].path), w.items[j].size)
    ensures Reaches(w, longer, Goto(Rename(s, Part(w.items[j].path), w.items[j].path), j, Idle))
  {
    longer := Goes(w, run, s, j, Finish);
    longer := Goes(w, longer, Goto(s, j, AtStat), j, Go);
    assert Goto(Goto(s, j, AtStat), j, AtReplace) == Goto(s, j, AtReplace);
    longer := Goes(w, longer, Goto(s, j, AtReplace), j, Go);
    var path, part := w.items[j].path, Part(w.items[j].path);
    assert Goto(Rename(Goto(s, j, AtReplace), part, path), j, Idle) == Goto(Rename(s, part, path), j, Idle);
  }

  function Quiet(w: World): seq<Pc> { seq(|w.items|, i => Idle) }

  lemma Empty(w: World) returns (run: seq<State>)
    requires |w.remotes| == |w.items|
    ensures Reaches(w, run, State(map[], [], Quiet(w))) && AtStart(w, run[0])
  {
    run := [State(map[], [], Quiet(w))];
  }

  /** The process dies. */
  lemma Dies(w: World, run: seq<State>, s: State) returns (longer: seq<State>)
    requires Reaches(w, run, s)
    ensures Reaches(w, longer, s.(calls := Quiet(w)))
  {
    longer := run;
    var u := s;
    for j := 0 to |w.items|
      invariant Reaches(w, longer, u) && u == s.(calls := u.calls)
      invariant forall i | 0 <= i < j :: u.calls[i] == Idle
    {
      if !u.calls[j].Idle? {
        longer := Goes(w, longer, u, j, Quit);
        u := Goto(u, j, Idle);
      }
    }
    assert u.calls == Quiet(w);
  }

  /** The `.part` file of `b` holds the first byte of its content; the call for `a`, the file of that
      name, began when there was none. */
  function FirstByte(w: World, a: nat, b: nat, pc: Pc): State
    requires a < |w.items| && b < |w.items| == |w.remotes| && |w.remotes[b]| >= 1
  {
    State(map[Part(w.items[b].path) := 0], [w.remotes[b][..1]], Quiet(w)[a := AtDestination][b := pc])
  }

  lemma BeginsCollecting(w: World, a: nat, b: nat) returns (run: seq<State>)
    requires b < |w.items| == |w.remotes| && w.items[b].size == |w.remotes[b]| >= 1 && Clash(w.items, a, b)
    ensures a != b && Reaches(w, run, FirstByte(w, a, b, Writing(0, 1)))
  {
    PartInjective(w.items[b].path, w.items[b].path);
    var start := State(map[], [], Quiet(w));
    var s := Goto(start, a, AtDestination);
    run := Empty(w);
    run := Goes(w, run, start, a, Go);
    run := Goes(w, run, Goto(start, a, AtCheck), a, Go);
    assert Goto(Goto(start, a, AtCheck), a, AtDestination) == s;
    run := Arrives(w, run, s, b);
    var current;
    run, current := Asks(w, run, Goto(s, b, AtLoop), b);
    var begun := State(map[Part(w.items[b].path) := 0], [[]], Quiet(w)[a := AtDestination][b := Writing(0, 0)]);
    assert Do(w, Goto(s, b, AtOpen(0)), b, Go) == begun;
    assert Goto(Goto(s, b, AtLoop), b, AtOpen(0)) == Goto(s, b, AtOpen(0));
    run := Goes(w, run, Goto(s, b, AtOpen(0)), b, Go);
    run := Writes(w, run, begun, b, 0, 0, 1);
    assert [] + w.remotes[b][0..1] == w.remotes[b][..1];
    assert Written(begun, b, 0, w.remotes[b][0..1], 1) == FirstByte(w, a, b, Writing(0, 1));
  }

  /** The transfer breaks off, and the next attempt asks for what comes after the first byte. */
  lemma AsksForMore(w: World, a: nat, b: nat) returns (run: seq<State>)
    requires b < |w.items| == |w.remotes| && w.items[b].size == |w.remotes[b]| >= 2 && Clash(w.items, a, b)
    ensures a != b && Reaches(w, run, FirstByte(w, a, b, AtOpen(1)))
  {
    run := BeginsCollecting(w, a, b);
    var s := FirstByte(w, a, b, AtLoop);
    run := Goes(w, run, FirstByte(w, a, b, Writing(0, 1)), b, Retry);
    assert Goto(FirstByte(w, a, b, Writing(0, 1)), b, AtLoop) == s;
    var current;
    run, current := Asks(w, run, s, b);
    assert Goto(s, b, AtOpen(1)) == FirstByte(w, a, b, AtOpen(1));
  }

  /** The call for `a` takes the file for an old version of its own, and removes it. */
  lemma IsRemoved(w: World, a: nat, b: nat) returns (run: seq<State>)
    requires b < |w.items| == |w.remotes| && w.items[b].size == |w.remotes[b]| >= 2 && Clash(w.items, a, b)
    ensures a != b && Reaches(w, run, State(map[], [w.remotes[b][..1]], Quiet(w)[a := AtPart][b := AtOpen(1)]))
  {
    var s := FirstByte(w, a, b, AtOpen(1));
    run := AsksForMore(w, a, b);
    run := Goes(w, run, s, a, Go);
    run := Goes(w, run, Goto(s, a, AtUnlinkDestination), a, Go);
    assert Do(w, Goto(s, a, AtUnlinkDestination), a, Go)
        == State(map[], s.nodes, Quiet(w)[a := AtPart][b := AtOpen(1)]);
  }

  /** What was asked for is written to a new file, in which the first byte is missing. */
  lemma ShiftedPart(w: World, a: nat, b: nat) returns (run: seq<State>)
    requires b < |w.items| == |w.remotes| && w.items[b].size == |w.remotes[b]| >= 2 && Clash(w.items, a, b)
    ensures a != b && Reaches(w, run, Shifted(w, a, b, w.remotes[b][1..], AtLoop))
  {
    var n, part := |w.remotes[b]|, Part(w.items[b].path);
    run := IsRemoved(w, a, b);
    var s := State(map[], [w.remotes[b][..1]], Quiet(w)[a := AtPart][b := AtOpen(1)]);
    var begun := Shifted(w, a, b, [], Writing(1, 1));
    assert Do(w, s, b, Go) == begun;
    run := Goes(w, run, s, b, Go);
    run := Writes(w, run, begun, b, 1, 1, n);
    var full := Shifted(w, a, b, w.remotes[b][1..], Writing(1, n));
    assert w.remotes[b][1..n] == w.remotes[b][1..] && [] + w.remotes[b][1..] == w.remotes[b][1..];
    assert Written(begun, b, 1, w.remotes[b][1..n], n) == full;
    run := Goes(w, run, full, b, Finish);
    run := Goes(w, run, Goto(full, b, AtStat), b, Go);
    assert Goto(Goto(full, b, AtStat), b, AtLoop) == Shifted(w, a, b, w.remotes[b][1..], AtLoop);
  }

  function Shifted(w: World, a: nat, b: nat, data: Bytes, pc: Pc): State
    requires a < |w.items| && b < |w.items| == |w.remotes| && |w.remotes[b]| >= 1
  {
    State(map[Part(w.items[b].path) := 1], [w.remotes[b][..1], data], Quiet(w)[a := AtPart][b := pc])
  }

  /** The next pass appends the last byte once more. */
  lemma AppendsLast(w: World, a: nat, b: nat) returns (run: seq<State>)
    requires b < |w.items| == |w.remotes| && w.items[b].size == |w.remotes[b]| >= 2 && Clash(w.items, a, b)
    ensures var r, n := w.remotes[b], |w.remotes[b]|;
      a != b && Reaches(w, run, Shifted(w, a, b, r[1..] + [r[n - 1]], Writing(1, n)))
  {
    var r, n := w.remotes[b], |w.remotes[b]|;
    run := ShiftedPart(w, a, b);
    var current;
    run, current := Asks(w, run, Shifted(w, a, b, r[1..], AtLoop), b);
    var opening := Shifted(w, a, b, r[1..], AtOpen(n - 1));
    assert Goto(Shifted(w, a, b, r[1..], AtLoop), b, AtOpen(n - 1)) == opening;
    run := Goes(w, run, opening, b, Go);
    var begun := Shifted(w, a, b, r[1..], Writing(1, n - 1));
    assert Do(w, opening, b, Go) == begun;
    run := Writes(w, run, begun, b, 1, n - 1, n);
    assert r[n - 1..n] == [r[n - 1]];
    assert Written(begun, b, 1, r[n - 1..n], n) == Shifted(w, a, b, r[1..] + [r[n - 1]], Writing(1, n));
  }

  /** What then has the right size is moved. */
  lemma OffsetRace(w: World, a: nat, b: nat) returns (run: seq<State>, s: State)
    requires b < |w.items| == |w.remotes| && w.items[b].size == |w.remotes[b]| >= 2 && Clash(w.items, a, b)
    ensures Reaches(w, run, s)
    ensures var r := w.remotes[b]; Holds(s, w.items[b].path) == Some(r[1..] + [r[|r| - 1]])
  {
    var r, n, part := w.remotes[b], |w.remotes[b]|, Part(w.items[b].path);
    PartInjective(w.items[b].path, w.items[b].path);
    run := AppendsLast(w, a, b);
    var full := Shifted(w, a, b, r[1..] + [r[n - 1]], Writing(1, n));
    run := Moves(w, run, full, b);
    s := Goto(Rename(full, part, w.items[b].path), b, Idle);
  }

  // ---------- chains of names ----------

  /** From `a` up to `m`, and every file between the two is empty. */
  ghost predicate EmptyBetween(items: seq<Item>, a: nat, t: nat, m: nat)
    decreases t
  {
    t > 0 && if t == 1 then Clash(items, m, a)
             else exists z: nat :: Clash(items, z, a) && items[z].size == 0 && EmptyBetween(items, z, t - 1, m)
  }

  /** Two files of one byte in a chain: then there are two with only empty files between. */
  lemma {:induction false} NearestOne(items: seq<Item>, b: nat, t: nat, m: nat) returns (t': nat, m': nat)
    requires t > 0 && Chain(items, b, t, m) && m < |items| && items[m].size == 1
    requires forall x: nat, y: nat | Clash(items, x, y) :: items[y].size <= 1
    ensures EmptyBetween(items, b, t', m') && m' < |items| && items[m'].size == 1
    decreases t
  {
    var a: nat :| Clash(items, a, b) && Chain(items, a, t - 1, m);
    if items[a].size == 1 {
      t', m' := 1, a;
    } else {
      assert t - 1 > 0;
      var x: nat :| Clash(items, x, a) && Chain(items, x, t - 2, m);
      assert items[a].size == 0;
      t', m' := NearestOne(items, a, t - 1, m);
      t' := t' + 1;
    }
  }

  /** The calls for the empty files between `a` and `m` have found nothing to download, and are about
      to move what is not there yet. */
  ghost predicate Waiting(w: World, s: State, a: nat, t: nat, m: nat)
    requires |s.calls| == |w.items|
    decreases t
  {
    t > 0 && if t == 1 then Clash(w.items, m, a)
             else exists z: nat :: Clash(w.items, z, a) && s.calls[z] == AtMove && Waiting(w, s, z, t - 1, m)
  }

  ghost predicate LongerIdle(w: World, s: State, a: nat)
    requires |s.calls| == |w.items| && a < |w.items|
  {
    forall x: nat | x < |w.items| && |w.items[x].path| > |w.items[a].path| :: s.calls[x].Idle?
  }

  /** Calls for files whose names are no longer than that of `a` are as they were. */
  ghost predicate ShorterSame(w: World, s: State, t: State, a: nat)
    requires |s.calls| == |w.items| == |t.calls| && a < |w.items|
  {
    forall x: nat | x < |w.items| && |w.items[x].path| <= |w.items[a].path| :: t.calls[x] == s.calls[x]
  }

  lemma StillWaiting(w: World, s: State, u: State, a: nat, t: nat, m: nat)
    requires |s.calls| == |w.items| == |u.calls| && a < |w.items| && Waiting(w, s, a, t, m)
    requires forall x: nat | x < |w.items| && |w.items[x].path| > |w.items[a].path| && s.calls[x] == AtMove ::
      u.calls[x] == AtMove
    ensures Waiting(w, u, a, t, m)
    decreases t
  {
    if t > 1 {
      var z: nat :| Clash(w.items, z, a) && s.calls[z] == AtMove && Waiting(w, s, z, t - 1, m);
      PartInjective(w.items[a].path, w.items[a].path);
      StillWaiting(w, s, u, z, t - 1, m);
    }
  }

  lemma {:induction false} Prepares(w: World, run: seq<State>, s: State, a: nat, t: nat, m: nat)
    returns (longer: seq<State>, u: State)
    requires Reaches(w, run, s) && s.names == map[] && a < |w.items| && m < |w.items| && EmptyBetween(w.items, a, t, m)
    requires LongerIdle(w, s, a)
    ensures Reaches(w, longer, u) && u.names == map[] && u.nodes == s.nodes && ShorterSame(w, s, u, a)
    ensures Waiting(w, u, a, t, m) && u.calls[m].Idle?
    decreases t
  {
    PartInjective(w.items[a].path, w.items[a].path);
    if t == 1 {
      longer, u := run, s;
    } else {
      var z: nat :| Clash(w.items, z, a) && w.items[z].size == 0 && EmptyBetween(w.items, z, t - 1, m);
      longer := Arrives(w, run, s, z);
      longer := Goes(w, longer, Goto(s, z, AtLoop), z, Go);
      assert Goto(Goto(s, z, AtLoop), z, AtMove) == Goto(s, z, AtMove);
      longer, u := Prepares(w, longer, Goto(s, z, AtMove), z, t - 1, m);
    }
  }

  /** The only file on disk. */
  ghost predicate Only(s: State, name: string, data: Bytes) {
    s.names.Keys == {name} && s.names[name] < |s.nodes| && s.nodes[s.names[name]] == data
  }

  lemma Downloads(w: World, run: seq<State>, s: State, m: nat) returns (longer: seq<State>, u: State)
    requires Reaches(w, run, s) && s.names == map[] && m < |w.items| && s.calls[m].Idle?
    requires NodesOk(w, s) && w.items[m].size == |w.remotes[m]| == 1
    ensures Reaches(w, longer, u) && Only(u, w.items[m].path, w.remotes[m])
    ensures u.calls == s.calls
  {
    var part, node := Part(w.items[m].path), |s.nodes|;
    longer := Arrives(w, run, s, m);
    var current;
    longer, current := Asks(w, longer, Goto(s, m, AtLoop), m);
    assert Goto(Goto(s, m, AtLoop), m, AtOpen(0)) == Goto(s, m, AtOpen(0));
    var begun := State(map[part := node], s.nodes + [[]], s.calls[m := Writing(node, 0)]);
    assert Do(w, Goto(s, m, AtOpen(0)), m, Go) == begun;
    longer := Goes(w, longer, Goto(s, m, AtOpen(0)), m, Go);
    longer := Writes(w, longer, begun, m, node, 0, 1);
    var full := Written(begun, m, node, w.remotes[m][0..1], 1);
    assert [] + w.remotes[m][0..1] == w.remotes[m];
    longer := Moves(w, longer, full, m);
    u := Goto(Rename(full, part, w.items[m].path), m, Idle);
    assert u.calls == s.calls;
  }

  /** What lies at the top of the chain falls down through the waiting calls. */
  lemma {:induction false} Falls(w: World, run: seq<State>, s: State, a: nat, t: nat, m: nat, data: Bytes)
    returns (longer: seq<State>, u: State)
    requires Reaches(w, run, s) && a < |w.items| && m < |w.items|
    requires Waiting(w, s, a, t, m) && Only(s, w.items[m].path, data)
    ensures Reaches(w, longer, u) && Only(u, Part(w.items[a].path), data) && ShorterSame(w, s, u, a)
    decreases t
  {
    PartInjective(w.items[a].path, w.items[a].path);
    if t == 1 {
      longer, u := run, s;
    } else {
      var z: nat :| Clash(w.items, z, a) && s.calls[z] == AtMove && Waiting(w, s, z, t - 1, m);
      var v;
      longer, v := Falls(w, run, s, z, t - 1, m, data);
      PartInjective(w.items[z].path, w.items[z].path);
      longer := Goes(w, longer, v, z, Go);
      u := Do(w, v, z, Go);
    }
  }

  /** Two files of one byte with only empty ones between: the content of one ends up as the other. */
  lemma ChainRace(w: World, b: nat, t: nat, m: nat) returns (run: seq<State>, s: State)
    requires |w.remotes| == |w.items| && b < |w.items| && m < |w.items| && EmptyBetween(w.items, b, t, m)
    requires w.items[b].size == 1 && w.items[m].size == |w.remotes[m]| == 1
    ensures Reaches(w, run, s) && Holds(s, w.items[b].path) == Some(w.remotes[m])
  {
    PartInjective(w.items[b].path, w.items[b].path);
    run, s := ComesDown(w, b, t, m);
    run := Arrives(w, run, s, b);
    run := Goes(w, run, Goto(s, b, AtLoop), b, Go);
    assert Goto(Goto(s, b, AtLoop), b, AtMove) == Goto(s, b, AtMove);
    run := Goes(w, run, Goto(s, b, AtMove), b, Go);
    s := Do(w, Goto(s, b, AtMove), b, Go);
  }

  lemma ComesDown(w: World, b: nat, t: nat, m: nat) returns (run: seq<State>, s: State)
    requires |w.remotes| == |w.items| && b < |w.items| && m < |w.items| && EmptyBetween(w.items, b, t, m)
    requires w.items[m].size == |w.remotes[m]| == 1
    ensures Reaches(w, run, s) && Only(s, Part(w.items[b].path), w.remotes[m]) && s.calls[b].Idle?
  {
    var start := State(map[], [], Quiet(w));
    var ready, up;
    run := Empty(w);
    run, ready := Prepares(w, run, start, b, t, m);
    run, up := Downloads(w, run, ready, m);
    StillWaiting(w, ready, up, b, t, m);
    run, s := Falls(w, run, up, b, t, m, w.remotes[m]);
  }

  // ---------- exactly which listings are safe ----------

  /** A run from a sound disk after which file `j` has the right size and the wrong content. At the next
      start such a file counts as downloaded. */
  ghost predicate Harms(w: World, run: seq<State>, j: nat) {
    Lists(w) && Run(w, run) && AtStart(w, run[0]) && j < |w.items| && !FileRight(w, run[|run| - 1], j)
  }

  /** From an empty disk on, and with all calls over in the end. */
  ghost predicate FromNothingToRest(w: World, run: seq<State>) {
    run != [] && run[0] == State(map[], [], Quiet(w)) && run[|run| - 1].calls == Quiet(w)
  }

  lemma ReachesHarm(w: World, run: seq<State>, s: State, j: nat) returns (longer: seq<State>)
    requires Lists(w) && Reaches(w, run, s) && j < |w.items| && !FileRight(w, s, j)
    ensures Harms(w, longer, j) && FromNothingToRest(w, longer) && longer[|longer| - 1] == s.(calls := Quiet(w))
  {
    longer := Dies(w, run, s);
  }

  function Fill(size: nat, v: byte): Bytes { seq(size, i => v) }

  /** Contents of the listed sizes, one of which is told apart from the others by its first byte. */
  function Contents(items: seq<Item>, b: nat): World {
    World(items, seq(|items|, i requires 0 <= i < |items| =>
      if i != b then Fill(items[i].size, 2)
      else if items[i].size == 0 then []
      else [0] + Fill(items[i].size - 1, 1)))
  }

  lemma LongPart(items: seq<Item>, a: nat, b: nat) returns (run: seq<State>)
    requires Clash(items, a, b) && items[b].size >= 2
    ensures Harms(Contents(items, b), run, b) && FromNothingToRest(Contents(items, b), run)
  {
    var w := Contents(items, b);
    var s;
    run, s := OffsetRace(w, a, b);
    assert Holds(s, items[b].path).value[0] == 1 && w.remotes[b][0] == 0;
    run := ReachesHarm(w, run, s, b);
  }

  lemma {:induction false} AboveIsLonger(items: seq<Item>, b: nat, t: nat, m: nat)
    requires b < |items| && m < |items| && EmptyBetween(items, b, t, m)
    ensures |items[m].path| > |items[b].path|
    decreases t
  {
    PartInjective(items[b].path, items[b].path);
    if t > 1 {
      var z: nat :| Clash(items, z, b) && items[z].size == 0 && EmptyBetween(items, z, t - 1, m);
      AboveIsLonger(items, z, t - 1, m);
    }
  }

  lemma TwoOnes(items: seq<Item>, b: nat, m: nat) returns (run: seq<State>)
    requires b < |items| && m < |items| && Higher(items, b, m) && items[b].size == items[m].size == 1
    requires forall x: nat, y: nat | Clash(items, x, y) :: items[y].size <= 1
    ensures Harms(Contents(items, b), run, b) && FromNothingToRest(Contents(items, b), run)
  {
    var w := Contents(items, b);
    var t: nat :| t > 0 && Chain(items, b, t, m);
    var t', m' := NearestOne(items, b, t, m);
    AboveIsLonger(items, b, t', m');
    var s;
    run, s := ChainRace(w, b, t', m');
    assert w.remotes[m'][0] == 2 && w.remotes[b][0] == 0;
    run := ReachesHarm(w, run, s, b);
  }

  /** Exactly which listings are safe, whatever the contents of the listed sizes: then no downloads, in
      whatever order their system calls come, with whatever crashes and restarts, ever leave a file
      that has the right size and the wrong content. Otherwise an empty disk is enough to begin with,
      and the wrong file is there when all calls are over. */
  lemma ContentsRightIff(items: seq<Item>)
    requires Distinct(items)
    ensures (forall w: World, run, j: nat | w.items == items :: !Harms(w, run, j)) <==> SafeNames(items)
    ensures SafeNames(items)
      || exists w: World, run, j: nat :: w.items == items && Harms(w, run, j) && FromNothingToRest(w, run)
  {
    if SafeNames(items) {
      forall w: World, run, j: nat | w.items == items ensures !Harms(w, run, j) {
        if Lists(w) && Run(w, run) && AtStart(w, run[0]) && j < |items| { RunKeeps(w, run, |run| - 1); }
      }
    } else if a: nat, b: nat :| Clash(items, a, b) && items[b].size >= 2 {
      var run := LongPart(items, a, b);
      assert Contents(items, b).items == items;
    } else {
      var b: nat, m: nat :| b < |items| && m < |items| && Higher(items, b, m) && items[b].size == items[m].size == 1;
      var run := TwoOnes(items, b, m);
      assert Contents(items, b).items == items;
    }
  }

  /** A name is not harmless because its file is longer: with `m` of two bytes and `m.part` of three, a
      server that behaves well, and one transfer that breaks off, `m` ends up with its last byte twice. */
  lemma LongerNameRaces() returns (run: seq<State>)
    ensures var w := World([Item("m", 2), Item("m.part", 3)], [[1, 2], [0, 0, 0]]);
      && Harms(w, run, 0) && FromNothingToRest(w, run)
      && Holds(run[|run| - 1], "m") == Some([2, 2])
  {
    var w := World([Item("m", 2), Item("m.part", 3)], [[1, 2], [0, 0, 0]]);
    assert Part("m") == "m.part" && Clash(w.items, 1, 0);
    var s;
    run, s := OffsetRace(w, 1, 0);
    assert w.remotes[0][1..] + [2] == [2, 2];
    assert Holds(s, "m").value[0] == 2 && w.remotes[0][0] == 1;
    run := ReachesHarm(w, run, s, 0);
    assert Holds(run[|run| - 1], "m") == Holds(s, "m");
  }

  /** Nor is it enough to look at pairs of names: an empty file between two of one byte passes the
      content of one on to the other. */
  lemma EmptyFileBetween()
    ensures !SafeNames([Item("m", 1), Item("m.part", 0), Item("m.part.part", 1)])
    ensures SafeNames([Item("m", 1), Item("m.part", 0)]) && SafeNames([Item("m.part", 0), Item("m.part.part", 1)])
  {
    var items := [Item("m", 1), Item("m.part", 0), Item("m.part.part", 1)];
    assert Part("m") == "m.part" && Part("m.part") == "m.part.part";
    assert Clash(items, 1, 0) && Clash(items, 2, 1);
    assert Chain(items, 2, 0, 2) && Chain(items, 1, 1, 2) && Chain(items, 0, 2, 2);
    assert Higher(items, 0, 2);
    OneOne([Item("m", 1), Item("m.part", 0)]);
    OneOne([Item("m.part", 0), Item("m.part.part", 1)]);
  }

  /** Two files of at most one byte in all. */
  lemma OneOne(items: seq<Item>)
    requires |items| == 2 && items[0].size + items[1].size <= 1
    ensures SafeNames(items)
  {
    forall b: nat, m: nat | b < 2 && m < 2 && Higher(items, b, m) ensures !(items[b].size == items[m].size == 1) {
      var t: nat :| t > 0 && Chain(items, b, t, m);
      ChainIsLonger(items, b, t, m);
    }
  }

  lemma {:induction false} ChainIsLonger(items: seq<Item>, b: nat, t: nat, m: nat)
    requires b < |items| && Chain(items, b, t, m)
    ensures m < |items| && |items[m].path| == |items[b].path| + 5 * t
    decreases t
  {
    if t > 0 {
      var a: nat :| Clash(items, a, b) && Chain(items, a, t - 1, m);
      PartInjective(items[b].path, items[b].path);
      ChainIsLonger(items, a, t - 1, m);
    }
  }
}
