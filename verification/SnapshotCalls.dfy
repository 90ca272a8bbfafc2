/**
Many downloads at the same time. Every call is a sequence of system calls, between which the other
calls run: the size of the `.part` file is read before the request is sent, the file is opened by
name after the reply has come, and moved by name after its size was checked. A file that was opened
stays open when its name is removed or given to another file.
*/
module SnapshotCalls {
  import opened Basics
  import opened SnapshotDownload

  /** The files of a listing, and their remote contents. */
  datatype World = World(items: seq<Item>, remotes: seq<Bytes>)

  /** What a call is about to do. `AtMove` moves a `.part` file that was complete at the start of a
      pass, `AtReplace` one that is complete after a transfer; `offset` is the next byte to be sent. */
  datatype Pc =
    | Idle
    | AtCheck
    | AtDestination
    | AtUnlinkDestination
    | AtPart
    | AtUnlinkPart
    | AtLoop
    | AtMove
    | AtRequest(current: nat)
    | AtReset
    | AtOpen(current: nat)
    | Writing(node: nat, offset: nat)
    | AtStat
    | AtReplace

  /** The directory names nodes; a node holds the content of a file. */
  datatype State = State(names: map<string, nat>, nodes: seq<Bytes>, calls: seq<Pc>)

  /** `Refuse`: the server ignores the range. `Finish`: the body has ended. `Retry`: an error that is
      retried. `Quit`: an error that is not, or the process dies. */
  datatype Act = Go | Refuse | Finish | Retry | Quit

  ghost predicate StateOk(w: World, s: State) {
    && |w.remotes| == |w.items| == |s.calls|
    && (forall n | n in s.names :: s.names[n] < |s.nodes|)
    && (forall j | 0 <= j < |s.calls| && s.calls[j].Writing? :: s.calls[j].node < |s.nodes|)
  }

  function Holds(s: State, name: string): Option<Bytes> {
    if name in s.names && s.names[name] < |s.nodes| then Some(s.nodes[s.names[name]]) else None
  }

  function SizeOf(s: State, name: string): nat {
    match Holds(s, name) case Some(c) => |c| case None => 0
  }

  predicate HasSize(s: State, name: string, size: nat) { Holds(s, name).Some? && SizeOf(s, name) == size }

  /** Can call `j` do this now? Removing or moving a file that is not there is an error. */
  predicate Can(w: World, s: State, j: nat, act: Act)
    requires j < |w.items| == |w.remotes| == |s.calls|
  {
    var item := w.items[j];
    match act
    case Go =>
      (match s.calls[j]
       case AtUnlinkDestination => Holds(s, item.path).Some?
       case AtUnlinkPart => Holds(s, Part(item.path)).Some?
       case AtMove => Holds(s, Part(item.path)).Some?
       case AtReplace => Holds(s, Part(item.path)).Some?
       case Writing(node, offset) => node < |s.nodes| && offset < |w.remotes[j]|
       case _ => true)
    case Refuse => s.calls[j].AtRequest? && s.calls[j].current > 0
    case Finish => s.calls[j].Writing?
    case Retry =>
      || s.calls[j].AtRequest? || s.calls[j].AtOpen? || s.calls[j].Writing?
      || s.calls[j].AtStat? || s.calls[j].AtReplace?
    case Quit => !s.calls[j].Idle?
  }

  function Goto(s: State, j: nat, pc: Pc): State
    requires j < |s.calls|
  {
    s.(calls := s.calls[j := pc])
  }

  function Unlink(s: State, name: string): State { s.(names := s.names - {name}) }

  /** `os.replace` */
  function Rename(s: State, from: string, to: string): State
    requires from in s.names
  {
    s.(names := s.names[to := s.names[from]] - {from})
  }

  /** Opens a file for writing, or creates it; `truncate` empties it. */
  function Open(s: State, name: string, truncate: bool): State {
    if Holds(s, name).None? then s.(names := s.names[name := |s.nodes|], nodes := s.nodes + [[]])
    else if truncate then s.(nodes := s.nodes[s.names[name] := []])
    else s
  }

  function Do(w: World, s: State, j: nat, act: Act): State
    requires j < |w.items| == |w.remotes| == |s.calls| && Can(w, s, j, act)
  {
    var path, part, size := w.items[j].path, Part(w.items[j].path), w.items[j].size;
    match act
    case Quit => Goto(s, j, Idle)
    case Retry => Goto(s, j, AtLoop)
    case Refuse => Goto(s, j, AtReset)
    case Finish => Goto(s, j, AtStat)
    case Go =>
      match s.calls[j]
      case Idle => Goto(s, j, AtCheck)
      case AtCheck => Goto(s, j, if HasSize(s, path, size) then Idle else AtDestination)
      case AtDestination => Goto(s, j, if Holds(s, path).Some? then AtUnlinkDestination else AtPart)
      case AtUnlinkDestination => Goto(Unlink(s, path), j, AtPart)
      case AtPart => Goto(s, j, if SizeOf(s, part) > size then AtUnlinkPart else AtLoop)
      case AtUnlinkPart => Goto(Unlink(s, part), j, AtLoop)
      case AtLoop => Goto(s, j, if SizeOf(s, part) == size then AtMove else AtRequest(SizeOf(s, part)))
      case AtMove => Goto(Rename(s, part, path), j, Idle)
      case AtRequest(current) => Goto(s, j, AtOpen(current))
      case AtReset => Goto(Unlink(s, part), j, AtLoop)
      case AtOpen(current) => var t := Open(s, part, current == 0); Goto(t, j, Writing(t.names[part], current))
      case Writing(node, offset) =>
        Goto(s.(nodes := s.nodes[node := s.nodes[node] + [w.remotes[j][offset]]]), j, Writing(node, offset + 1))
      case AtStat => Goto(s, j, if HasSize(s, part, size) then AtReplace else AtLoop)
      case AtReplace => Goto(Rename(s, part, path), j, Idle)
  }

  ghost predicate SystemCall(w: World, s: State, t: State) {
    StateOk(w, s) && exists j: nat, act :: j < |w.items| && Can(w, s, j, act) && t == Do(w, s, j, act)
  }

  /** A run of the calls. The process may die and be started again: its calls quit, and begin anew. */
  ghost predicate Run(w: World, run: seq<State>) {
    run != [] && forall i | 0 < i < |run| :: SystemCall(w, run[i - 1], run[i])
  }

  // ---------- names ----------

  /** No two files have the same name, as in any listing of files. */
  ghost predicate Distinct(items: seq<Item>) {
    forall i, j | 0 <= i < |items| && 0 <= j < |items| && items[i].path == items[j].path :: i == j
  }

  /** `a` is named like the `.part` file of `b`. */
  predicate Clash(items: seq<Item>, a: nat, b: nat) {
    a < |items| && b < |items| && items[a].path == Part(items[b].path)
  }

  /** From `b` to `m` in `t` steps, each from a file to the one named like its `.part` file. */
  ghost predicate Chain(items: seq<Item>, b: nat, t: nat, m: nat)
    decreases t
  {
    if t == 0 then b == m < |items| else exists a: nat :: Clash(items, a, b) && Chain(items, a, t - 1, m)
  }

  ghost predicate Higher(items: seq<Item>, b: nat, m: nat) { exists t: nat :: t > 0 && Chain(items, b, t, m) }

  /** A file whose `.part` file could be mistaken for another file has at most one byte, and in a chain
      of such names at most one file has one byte. This can be read off a listing. */
  ghost predicate SafeNames(items: seq<Item>) {
    && (forall a: nat, b: nat | Clash(items, a, b) :: items[b].size <= 1)
    && (forall b: nat, m: nat | b < |items| && m < |items| && Higher(items, b, m) ::
          !(items[b].size == items[m].size == 1))
  }

  /** No file is named like the `.part` file of `j`. */
  ghost predicate FreePart(items: seq<Item>, j: nat) { forall a: nat :: !Clash(items, a, j) }

  /** The listing gives the sizes of the contents; needed only where names clash. */
  ghost predicate Fits(w: World) {
    && |w.remotes| == |w.items|
    && forall j: nat | j < |w.items| && !FreePart(w.items, j) :: |w.remotes[j]| == w.items[j].size
  }

  lemma PartInjective(a: string, b: string)
    ensures Part(a) == Part(b) ==> a == b
    ensures |Part(a)| == |a| + 5
  {
    if Part(a) == Part(b) { assert Part(a)[..|a|] == a && Part(b)[..|b|] == b; }
  }

  lemma ClashIsHigher(items: seq<Item>, a: nat, b: nat)
    requires Clash(items, a, b)
    ensures Higher(items, b, a)
  {
    assert Chain(items, a, 0, a);
    assert Chain(items, b, 1, a);
  }

  lemma HigherStill(items: seq<Item>, a: nat, b: nat, m: nat)
    requires Clash(items, a, b) && Higher(items, a, m)
    ensures Higher(items, b, m)
  {
    var t: nat :| t > 0 && Chain(items, a, t, m);
    assert Chain(items, b, t + 1, m);
  }

  // ---------- the invariant ----------

  /** Names and open files: no two names for one file, a file is open in one call at most, and has no
      name but that of the `.part` file of this call. */
  ghost predicate NodesOk(w: World, s: State) {
    && StateOk(w, s)
    && (forall n, k | n in s.names && k in s.names && s.names[n] == s.names[k] :: n == k)
    && (forall j, n | 0 <= j < |s.calls| && s.calls[j].Writing? && n in s.names && s.names[n] == s.calls[j].node ::
          n == Part(w.items[j].path))
    && (forall j, k | 0 <= j < |s.calls| && 0 <= k < |s.calls| && s.calls[j].Writing? && s.calls[k].Writing?
                      && s.calls[j].node == s.calls[k].node :: j == k)
  }

  /** The complete content of file `m`. */
  ghost predicate Whole(w: World, m: nat, c: Bytes)
    requires |w.remotes| == |w.items|
  {
    m < |w.items| && w.items[m].size <= |w.remotes[m]| && c == w.remotes[m][..w.items[m].size]
  }

  /** A `.part` file holds a prefix of its remote content, or the complete content of a file named
      like it, or like the `.part` file of that, and so on. */
  ghost predicate PartRight(w: World, s: State, j: nat)
    requires j < |w.items| == |w.remotes|
  {
    var c := Holds(s, Part(w.items[j].path));
    c.Some? ==> c.value <= w.remotes[j] || exists m: nat :: Higher(w.items, j, m) && Whole(w, m, c.value)
  }

  /** A file of the right size has the right content. */
  ghost predicate FileRight(w: World, s: State, j: nat)
    requires j < |w.items| == |w.remotes|
  {
    HasSize(s, w.items[j].path, w.items[j].size) ==> Holds(s, w.items[j].path).value <= w.remotes[j]
  }

  ghost predicate AllRight(w: World, s: State)
    requires |w.items| == |w.remotes|
  {
    forall j: nat | j < |w.items| :: FileRight(w, s, j)
  }

  /** A call whose `.part` file nobody else touches: what it has read of it is still so. */
  ghost predicate FreeCall(w: World, s: State, j: nat)
    requires j < |w.items| == |w.remotes| == |s.calls|
  {
    var part := Part(w.items[j].path);
    && (Holds(s, part).Some? ==> Holds(s, part).value <= w.remotes[j])
    && match s.calls[j]
       case AtMove => SizeOf(s, part) == w.items[j].size
       case AtRequest(current) => SizeOf(s, part) == current
       case AtOpen(current) => SizeOf(s, part) == current
       case Writing(node, offset) => part in s.names && s.names[part] == node < |s.nodes| && |s.nodes[node]| == offset
       case AtReplace => SizeOf(s, part) == w.items[j].size
       case _ => true
  }

  /** A call whose `.part` file others may touch: it writes at most one byte, into an empty file. */
  ghost predicate TinyCall(w: World, s: State, j: nat)
    requires j < |w.items| == |w.remotes| == |s.calls|
  {
    && w.items[j].size == |w.remotes[j]| <= 1
    && match s.calls[j]
       case AtRequest(current) => current != w.items[j].size
       case AtOpen(current) => current != w.items[j].size
       case Writing(node, offset) => offset < |w.remotes[j]| ==> offset == 0 && node < |s.nodes| && s.nodes[node] == []
       case _ => true
  }

  ghost predicate CallOk(w: World, s: State, j: nat)
    requires j < |w.items| == |w.remotes| == |s.calls|
  {
    if FreePart(w.items, j) then FreeCall(w, s, j) else TinyCall(w, s, j) && PartRight(w, s, j)
  }

  ghost predicate Inv(w: World, s: State) {
    NodesOk(w, s) && (forall j: nat | j < |w.items| :: CallOk(w, s, j)) && AllRight(w, s)
  }

  /** Before a run: nothing is going on, and what is on disk is sound. */
  ghost predicate AtStart(w: World, s: State) {
    && StateOk(w, s) && (forall j | 0 <= j < |s.calls| :: s.calls[j] == Idle)
    && (forall n, k | n in s.names && k in s.names && s.names[n] == s.names[k] :: n == k)
    && forall j: nat | j < |w.items| :: SoundAt(w, s, j)
  }

  ghost predicate SoundAt(w: World, s: State, j: nat)
    requires j < |w.items| == |w.remotes|
  {
    && (Holds(s, Part(w.items[j].path)).Some? ==> Holds(s, Part(w.items[j].path)).value <= w.remotes[j])
    && FileRight(w, s, j)
  }

  lemma StartInv(w: World, s: State)
    requires AtStart(w, s) && Fits(w) && SafeNames(w.items)
    ensures Inv(w, s)
  {
    forall j: nat | j < |w.items| ensures CallOk(w, s, j) && FileRight(w, s, j) { assert SoundAt(w, s, j); }
  }

  // ---------- every system call keeps it ----------

  /** The name leads to the same file with the same content. */
  ghost predicate Same(s: State, t: State, n: string) {
    && (n in s.names <==> n in t.names)
    && (n in s.names ==>
          && s.names[n] == t.names[n] < |s.nodes| && s.names[n] < |t.nodes|
          && s.nodes[s.names[n]] == t.nodes[s.names[n]])
  }

  /** What a call relies on is as it was. */
  lemma Untouched(w: World, s: State, t: State, x: nat)
    requires StateOk(w, s) && StateOk(w, t) && x < |w.items| && t.calls[x] == s.calls[x]
    requires Same(s, t, Part(w.items[x].path))
    requires s.calls[x].Writing? ==> s.nodes[s.calls[x].node] == t.nodes[s.calls[x].node]
    ensures CallOk(w, s, x) ==> CallOk(w, t, x)
    ensures Same(s, t, w.items[x].path) && FileRight(w, s, x) ==> FileRight(w, t, x)
  {
  }

  /** A call goes on without touching the disk. */
  lemma OnlyCalls(w: World, s: State, j: nat, pc: Pc)
    requires Inv(w, s) && j < |w.items| && !pc.Writing?
    requires FreePart(w.items, j) ==> FreeCall(w, Goto(s, j, pc), j)
    requires !FreePart(w.items, j) ==> TinyCall(w, Goto(s, j, pc), j)
    ensures Inv(w, Goto(s, j, pc))
  {
    var t := Goto(s, j, pc);
    forall x: nat | x < |w.items| ensures CallOk(w, t, x) && FileRight(w, t, x) {
      assert CallOk(w, s, x) && FileRight(w, s, x);
      if x != j {
        Untouched(w, s, t, x);
      } else {
        assert PartRight(w, s, j) ==> PartRight(w, t, j);
      }
    }
  }

  /** Names are told apart. */
  lemma Apart(items: seq<Item>, j: nat, x: nat)
    requires Distinct(items) && j < |items| && x < |items|
    ensures Part(items[j].path) != items[j].path
    ensures x != j ==> items[x].path != items[j].path && Part(items[x].path) != Part(items[j].path)
    ensures items[x].path == Part(items[j].path) ==> Clash(items, x, j) && Part(items[x].path) != items[j].path
    ensures Part(items[x].path) == items[j].path ==> Clash(items, j, x)
  {
    PartInjective(items[j].path, items[x].path);
    PartInjective(items[x].path, items[j].path);
  }

  /** A name of the call's own is removed. */
  lemma UnlinkKeeps(w: World, s: State, j: nat, name: string, pc: Pc)
    requires Distinct(w.items) && Inv(w, s) && j < |w.items|
    requires name == w.items[j].path || name == Part(w.items[j].path)
    requires pc == AtPart || pc == AtLoop
    ensures Inv(w, Goto(Unlink(s, name), j, pc))
  {
    var t := Goto(Unlink(s, name), j, pc);
    forall x: nat | x < |w.items| ensures CallOk(w, t, x) && FileRight(w, t, x) {
      Apart(w.items, j, x);
      assert CallOk(w, s, x) && FileRight(w, s, x);
      if Part(w.items[x].path) == name {
        assert x != j ==> Clash(w.items, j, x);
        UnlinkedOk(w, s, t, j, x, name);
      } else {
        assert Same(s, t, Part(w.items[x].path));
        if x != j { Untouched(w, s, t, x); } else { assert PartRight(w, s, j) ==> PartRight(w, t, j); }
      }
    }
  }

  lemma UnlinkedOk(w: World, s: State, t: State, j: nat, x: nat, name: string)
    requires Distinct(w.items) && StateOk(w, s) && j < |w.items| && x < |w.items| && CallOk(w, s, x)
    requires Part(w.items[x].path) == name && Holds(t, name).None? && t.nodes == s.nodes && |t.calls| == |s.calls|
    requires if x == j then t.calls[x] == AtPart || t.calls[x] == AtLoop
             else t.calls[x] == s.calls[x] && !FreePart(w.items, x)
    ensures CallOk(w, t, x)
  {
    assert PartRight(w, t, x);
  }

  /** What moves to its destination is right there, and right as a `.part` file of another. */
  lemma MovedIsRight(w: World, s: State, j: nat)
    requires Distinct(w.items) && SafeNames(w.items) && Fits(w) && Inv(w, s) && j < |w.items|
    requires s.calls[j].AtMove? || s.calls[j].AtReplace?
    requires Holds(s, Part(w.items[j].path)).Some?
    ensures var c := Holds(s, Part(w.items[j].path)).value;
      && (|c| == w.items[j].size ==> c <= w.remotes[j])
      && (forall b: nat | Clash(w.items, j, b) ::
           c <= w.remotes[b] || exists m: nat :: Higher(w.items, b, m) && Whole(w, m, c))
  {
    var c := Holds(s, Part(w.items[j].path)).value;
    assert CallOk(w, s, j);
    if !FreePart(w.items, j) && !(c <= w.remotes[j]) {
      var m: nat :| Higher(w.items, j, m) && Whole(w, m, c);
      assert !(w.items[j].size == w.items[m].size == 1);
      forall b: nat | Clash(w.items, j, b) ensures exists m: nat :: Higher(w.items, b, m) && Whole(w, m, c) {
        HigherStill(w.items, j, b, m);
      }
    } else {
      forall b: nat | Clash(w.items, j, b)
        ensures c <= w.remotes[b] || exists m: nat :: Higher(w.items, b, m) && Whole(w, m, c)
      {
        ClashIsHigher(w.items, j, b);
        if c != [] { assert Whole(w, j, c); }
      }
    }
  }

  lemma RenameNodes(w: World, s: State, j: nat)
    requires Distinct(w.items) && NodesOk(w, s) && j < |w.items| && !s.calls[j].Writing?
    requires Part(w.items[j].path) in s.names
    ensures NodesOk(w, Goto(Rename(s, Part(w.items[j].path), w.items[j].path), j, Idle))
  {
    var path, part := w.items[j].path, Part(w.items[j].path);
    var t := Goto(Rename(s, part, path), j, Idle);
    forall x: nat, n | x < |t.calls| && t.calls[x].Writing? && n in t.names && t.names[n] == t.calls[x].node
      ensures n == Part(w.items[x].path)
    {
      Apart(w.items, j, x);
      var before := if n == path then part else n;
      assert before in s.names && s.names[before] == s.calls[x].node;
    }
  }

  lemma RenameKeeps(w: World, s: State, j: nat)
    requires Distinct(w.items) && SafeNames(w.items) && Fits(w) && Inv(w, s) && j < |w.items|
    requires s.calls[j].AtMove? || s.calls[j].AtReplace?
    requires Holds(s, Part(w.items[j].path)).Some?
    ensures Inv(w, Goto(Rename(s, Part(w.items[j].path), w.items[j].path), j, Idle))
  {
    var path, part := w.items[j].path, Part(w.items[j].path);
    var t := Goto(Rename(s, part, path), j, Idle);
    MovedIsRight(w, s, j);
    Apart(w.items, j, j);
    RenameNodes(w, s, j);
    assert Holds(t, path) == Holds(s, part) && Holds(t, part).None?;
    forall x: nat | x < |w.items| ensures CallOk(w, t, x) && FileRight(w, t, x) { RenameKeepsOne(w, s, t, j, x); }
  }

  lemma RenameKeepsOne(w: World, s: State, t: State, j: nat, x: nat)
    requires Distinct(w.items) && Inv(w, s) && j < |w.items| && x < |w.items| && StateOk(w, t)
    requires s.calls[j].AtMove? || s.calls[j].AtReplace?
    requires var path, part := w.items[j].path, Part(w.items[j].path);
      && part in s.names && t == Goto(Rename(s, part, path), j, Idle)
      && Holds(t, path) == Holds(s, part) && Holds(t, part).None?
    requires var c := Holds(s, Part(w.items[j].path)).value;
      && (|c| == w.items[j].size ==> c <= w.remotes[j])
      && (forall b: nat | Clash(w.items, j, b) ::
           c <= w.remotes[b] || exists m: nat :: Higher(w.items, b, m) && Whole(w, m, c))
    ensures CallOk(w, t, x) && FileRight(w, t, x)
  {
    Apart(w.items, j, x);
    assert CallOk(w, s, x) && FileRight(w, s, x);
    if x != j {
      if Part(w.items[x].path) == w.items[j].path {
        assert Clash(w.items, j, x) && !FreePart(w.items, x);
        assert PartRight(w, t, x);
      } else {
        assert Same(s, t, Part(w.items[x].path));
        Untouched(w, s, t, x);
      }
    }
  }

  /** The `.part` file is opened: emptied or created, unless it is to be appended to. */
  lemma OpenKeeps(w: World, s: State, j: nat)
    requires Distinct(w.items) && SafeNames(w.items) && Fits(w) && Inv(w, s) && j < |w.items| && s.calls[j].AtOpen?
    ensures Inv(w, Do(w, s, j, Go))
  {
    var t := Do(w, s, j, Go);
    OpenNodes(w, s, j);
    forall x: nat | x < |w.items| ensures CallOk(w, t, x) && FileRight(w, t, x) {
      assert CallOk(w, s, x) && FileRight(w, s, x);
      if x != j { OpenKeepsOther(w, s, j, x); } else { OpenKeepsOwn(w, s, j); }
    }
  }

  lemma OpenKeepsOther(w: World, s: State, j: nat, x: nat)
    requires Distinct(w.items) && SafeNames(w.items) && NodesOk(w, s) && j < |w.items| && x < |w.items| && x != j
    requires s.calls[j].AtOpen? && StateOk(w, Do(w, s, j, Go)) && CallOk(w, s, x) && FileRight(w, s, x)
    ensures CallOk(w, Do(w, s, j, Go), x) && FileRight(w, Do(w, s, j, Go), x)
  {
    var t := Do(w, s, j, Go);
    Apart(w.items, j, x);
    assert Same(s, t, Part(w.items[x].path));
    Untouched(w, s, t, x);
    if w.items[x].path == Part(w.items[j].path) {
      OpenedRight(w, s, t, j, x);
    } else {
      assert Same(s, t, w.items[x].path);
    }
  }

  lemma OpenKeepsOwn(w: World, s: State, j: nat)
    requires Distinct(w.items) && Fits(w) && NodesOk(w, s) && j < |w.items|
    requires s.calls[j].AtOpen? && CallOk(w, s, j) && FileRight(w, s, j)
    ensures CallOk(w, Do(w, s, j, Go), j) && FileRight(w, Do(w, s, j, Go), j)
  {
    var t := Do(w, s, j, Go);
    Apart(w.items, j, j);
    assert Same(s, t, w.items[j].path);
    assert PartRight(w, s, j) ==> PartRight(w, t, j);
  }

  lemma OpenNodes(w: World, s: State, j: nat)
    requires Distinct(w.items) && NodesOk(w, s) && j < |w.items| && s.calls[j].AtOpen?
    ensures NodesOk(w, Do(w, s, j, Go))
  {
    var part := Part(w.items[j].path);
    var t := Do(w, s, j, Go);
    forall x: nat, n | x < |t.calls| && t.calls[x].Writing? && n in t.names && t.names[n] == t.calls[x].node
      ensures n == Part(w.items[x].path)
    {
      Apart(w.items, j, x);
    }
    forall x: nat | x < |t.calls| && x != j && t.calls[x].Writing? ensures t.calls[x].node != t.calls[j].node {
      Apart(w.items, j, x);
      assert Holds(s, part).Some? ==> t.calls[j].node == s.names[part];
    }
  }

  /** A file of another name is right after it was taken for the `.part` file and opened. */
  lemma OpenedRight(w: World, s: State, t: State, j: nat, x: nat)
    requires SafeNames(w.items) && j < |w.items| == |w.remotes| && Clash(w.items, x, j) && FileRight(w, s, x)
    requires Holds(t, w.items[x].path) == Some([])
      || (Holds(s, w.items[x].path).Some? && Holds(t, w.items[x].path) == Holds(s, w.items[x].path))
    ensures FileRight(w, t, x)
  {
  }

  /** One byte is written. */
  lemma WriteKeeps(w: World, s: State, j: nat)
    requires Distinct(w.items) && SafeNames(w.items) && Fits(w) && Inv(w, s) && j < |w.items| && s.calls[j].Writing?
    requires Can(w, s, j, Go)
    ensures Inv(w, Do(w, s, j, Go))
  {
    var t := Do(w, s, j, Go);
    forall x: nat | x < |w.items| ensures CallOk(w, t, x) && FileRight(w, t, x) {
      assert CallOk(w, s, x) && CallOk(w, s, j) && FileRight(w, s, x);
      if x != j { WriteKeepsOther(w, s, j, x); } else { WriteKeepsOwn(w, s, j); }
    }
  }

  lemma WriteKeepsOther(w: World, s: State, j: nat, x: nat)
    requires Distinct(w.items) && SafeNames(w.items) && NodesOk(w, s) && j < |w.items| && x < |w.items| && x != j
    requires s.calls[j].Writing? && Can(w, s, j, Go) && CallOk(w, s, j) && CallOk(w, s, x) && FileRight(w, s, x)
    ensures CallOk(w, Do(w, s, j, Go), x) && FileRight(w, Do(w, s, j, Go), x)
  {
    var t := Do(w, s, j, Go);
    Apart(w.items, j, x);
    assert Same(s, t, Part(w.items[x].path));
    Untouched(w, s, t, x);
    if w.items[x].path == Part(w.items[j].path) {
      WrittenRight(w, s, t, j, x);
    } else {
      assert Same(s, t, w.items[x].path);
    }
  }

  lemma WriteKeepsOwn(w: World, s: State, j: nat)
    requires Distinct(w.items) && NodesOk(w, s) && j < |w.items|
    requires s.calls[j].Writing? && Can(w, s, j, Go) && CallOk(w, s, j) && FileRight(w, s, j)
    ensures CallOk(w, Do(w, s, j, Go), j) && FileRight(w, Do(w, s, j, Go), j)
  {
    var offset, remote, t := s.calls[j].offset, w.remotes[j], Do(w, s, j, Go);
    Apart(w.items, j, j);
    assert remote[..offset] + [remote[offset]] == remote[..offset + 1];
    assert Same(s, t, w.items[j].path);
    if Holds(s, Part(w.items[j].path)) == Holds(t, Part(w.items[j].path)) {
      assert PartRight(w, s, j) ==> PartRight(w, t, j);
    }
  }

  /** Nor does a file of another name become wrong when the one byte is written to it. */
  lemma WrittenRight(w: World, s: State, t: State, j: nat, x: nat)
    requires SafeNames(w.items) && StateOk(w, s) && j < |w.items| && Clash(w.items, x, j) && FileRight(w, s, x)
    requires s.calls[j].Writing? && Can(w, s, j, Go) && t == Do(w, s, j, Go) && TinyCall(w, s, j)
    ensures FileRight(w, t, x)
  {
    var mine, other := w.items[j].size, w.items[x].size;
    ClashIsHigher(w.items, x, j);
    assert mine != 1 || other != 1;
  }

  lemma GoKeeps(w: World, s: State, j: nat)
    requires Distinct(w.items) && SafeNames(w.items) && Fits(w) && Inv(w, s) && j < |w.items| && Can(w, s, j, Go)
    ensures Inv(w, Do(w, s, j, Go))
  {
    assert CallOk(w, s, j);
    match s.calls[j]
    case AtUnlinkDestination => UnlinkKeeps(w, s, j, w.items[j].path, AtPart);
    case AtUnlinkPart => UnlinkKeeps(w, s, j, Part(w.items[j].path), AtLoop);
    case AtReset => UnlinkKeeps(w, s, j, Part(w.items[j].path), AtLoop);
    case AtMove => RenameKeeps(w, s, j);
    case AtReplace => RenameKeeps(w, s, j);
    case AtOpen(_) => OpenKeeps(w, s, j);
    case Writing(_, _) => WriteKeeps(w, s, j);
    case _ =>
      OnlyCalls(w, s, j, Do(w, s, j, Go).calls[j]);
  }

  lemma StepKeeps(w: World, s: State, j: nat, act: Act)
    requires Distinct(w.items) && SafeNames(w.items) && Fits(w) && Inv(w, s) && j < |w.items| && Can(w, s, j, act)
    ensures Inv(w, Do(w, s, j, act))
  {
    assert CallOk(w, s, j);
    if act == Go {
      GoKeeps(w, s, j);
    } else {
      OnlyCalls(w, s, j, Do(w, s, j, act).calls[j]);
    }
  }

  lemma {:induction false} RunKeeps(w: World, run: seq<State>, n: nat)
    requires Distinct(w.items) && SafeNames(w.items) && Fits(w) && Run(w, run) && AtStart(w, run[0]) && n < |run|
    ensures Inv(w, run[n])
  {
    if n == 0 {
      StartInv(w, run[0]);
    } else {
      RunKeeps(w, run, n - 1);
      assert SystemCall(w, run[n - 1], run[n]);
      var j: nat, act :| j < |w.items| && Can(w, run[n - 1], j, act) && run[n] == Do(w, run[n - 1], j, act);
      StepKeeps(w, run[n - 1], j, act);
    }
  }
}
