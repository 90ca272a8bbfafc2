/**
A call that is not disturbed by others: its system calls come to what the sequential model of a
download says, however it begins and whatever the server replies.
*/
module SnapshotSolo {
  import opened Basics
  import opened SnapshotDownload
  import opened SnapshotCalls
  import opened SnapshotRuns

  /** The other calls, and the names of other files, are as they were. */
  ghost predicate OnlyCall(w: World, s: State, t: State, j: nat, pc: Pc)
    requires j < |w.items|
  {
    && StateOk(w, s) && t.calls == s.calls[j := pc]
    && forall n | n != w.items[j].path && n != Part(w.items[j].path) :: Holds(t, n) == Holds(s, n)
  }

  lemma PathIsNotPart(path: string)
    ensures path != Part(path)
  {
    PartInjective(path, path);
  }

  /** A file of the expected size ends the call at once. */
  lemma FindsExisting(w: World, run: seq<State>, s: State, j: nat) returns (longer: seq<State>)
    requires Reaches(w, run, s) && j < |w.items| && s.calls[j].Idle?
    requires HasSize(s, w.items[j].path, w.items[j].size)
    ensures Reaches(w, longer, s)
  {
    longer := Goes(w, run, s, j, Go);
    longer := Goes(w, longer, Goto(s, j, AtCheck), j, Go);
    assert Goto(Goto(s, j, AtCheck), j, Idle) == s;
  }

  lemma ClearsDestination(w: World, run: seq<State>, s: State, j: nat) returns (longer: seq<State>, t: State)
    requires Reaches(w, run, s) && j < |w.items| && s.calls[j].AtDestination?
    ensures Reaches(w, longer, t) && OnlyCall(w, s, t, j, AtPart) && Holds(t, w.items[j].path) == None
    ensures Holds(t, Part(w.items[j].path)) == Holds(s, Part(w.items[j].path))
  {
    PathIsNotPart(w.items[j].path);
    longer := Goes(w, run, s, j, Go);
    t := Do(w, s, j, Go);
    if t.calls[j].AtUnlinkDestination? {
      longer := Goes(w, longer, t, j, Go);
      t := Do(w, t, j, Go);
    }
  }

  lemma ClearsPart(w: World, run: seq<State>, s: State, j: nat) returns (longer: seq<State>, t: State)
    requires Reaches(w, run, s) && j < |w.items| && s.calls[j].AtPart?
    ensures Reaches(w, longer, t) && OnlyCall(w, s, t, j, AtLoop)
    ensures Holds(t, w.items[j].path) == Holds(s, w.items[j].path)
    ensures var part := Part(w.items[j].path);
      Holds(t, part) == if SizeOf(s, part) > w.items[j].size then None else Holds(s, part)
  {
    PathIsNotPart(w.items[j].path);
    longer := Goes(w, run, s, j, Go);
    t := Do(w, s, j, Go);
    if t.calls[j].AtUnlinkPart? {
      longer := Goes(w, longer, t, j, Go);
      t := Do(w, t, j, Go);
    }
  }

  /** Otherwise what is there of the file is removed, and so is a `.part` file that is too long; one that
      is not stays as it is. */
  lemma Clears(w: World, run: seq<State>, s: State, j: nat) returns (longer: seq<State>, t: State)
    requires Reaches(w, run, s) && j < |w.items| && s.calls[j].Idle?
    requires !HasSize(s, w.items[j].path, w.items[j].size)
    ensures Reaches(w, longer, t) && OnlyCall(w, s, t, j, AtLoop) && Holds(t, w.items[j].path) == None
    ensures var part := Part(w.items[j].path);
      Holds(t, part) == if SizeOf(s, part) > w.items[j].size then None else Holds(s, part)
  {
    longer := Goes(w, run, s, j, Go);
    longer := Goes(w, longer, Goto(s, j, AtCheck), j, Go);
    t := Goto(s, j, AtDestination);
    assert Goto(Goto(s, j, AtCheck), j, AtDestination) == t;
    longer, t := ClearsDestination(w, longer, t, j);
    longer, t := ClearsPart(w, longer, t, j);
  }

  /** A complete `.part` file is moved. */
  lemma MovesComplete(w: World, run: seq<State>, s: State, j: nat) returns (longer: seq<State>, t: State)
    requires Reaches(w, run, s) && j < |w.items| && s.calls[j].AtLoop?
    requires HasSize(s, Part(w.items[j].path), w.items[j].size)
    ensures Reaches(w, longer, t) && OnlyCall(w, s, t, j, Idle)
    ensures Holds(t, w.items[j].path) == Holds(s, Part(w.items[j].path)) && Holds(t, Part(w.items[j].path)) == None
  {
    PathIsNotPart(w.items[j].path);
    longer := Goes(w, run, s, j, Go);
    t := Do(w, s, j, Go);
    longer := Goes(w, longer, t, j, Go);
    t := Do(w, t, j, Go);
  }

  /** Without a reply the call goes on or ends, and the disk stays as it is. */
  lemma GetsNoReply(w: World, run: seq<State>, s: State, j: nat, retried: bool) returns (longer: seq<State>)
    requires Reaches(w, run, s) && j < |w.items| && s.calls[j].AtLoop?
    requires SizeOf(s, Part(w.items[j].path)) != w.items[j].size
    ensures Reaches(w, longer, Goto(s, j, if retried then AtLoop else Idle))
  {
    var current := SizeOf(s, Part(w.items[j].path));
    longer := Goes(w, run, s, j, Go);
    longer := Goes(w, longer, Goto(s, j, AtRequest(current)), j, if retried then Retry else Quit);
    assert Goto(Goto(s, j, AtRequest(current)), j, AtLoop) == Goto(s, j, AtLoop);
    assert Goto(Goto(s, j, AtRequest(current)), j, Idle) == Goto(s, j, Idle);
  }

  /** A range that is ignored costs the `.part` file. */
  lemma IsRefused(w: World, run: seq<State>, s: State, j: nat) returns (longer: seq<State>, t: State)
    requires Reaches(w, run, s) && j < |w.items| && s.calls[j].AtLoop?
    requires SizeOf(s, Part(w.items[j].path)) > 0 && SizeOf(s, Part(w.items[j].path)) != w.items[j].size
    ensures Reaches(w, longer, t) && OnlyCall(w, s, t, j, AtLoop)
    ensures Holds(t, Part(w.items[j].path)) == None && Holds(t, w.items[j].path) == Holds(s, w.items[j].path)
  {
    PathIsNotPart(w.items[j].path);
    longer := Goes(w, run, s, j, Go);
    t := Do(w, s, j, Go);
    longer := Goes(w, longer, t, j, Refuse);
    t := Do(w, t, j, Refuse);
    longer := Goes(w, longer, t, j, Go);
    t := Do(w, t, j, Go);
  }

  /** The `.part` file is opened, and created if it is not there. */
  lemma OpensPart(w: World, run: seq<State>, s: State, j: nat) returns (longer: seq<State>, t: State)
    requires Reaches(w, run, s) && NodesOk(w, s) && j < |w.items| && s.calls[j].AtLoop?
    requires SizeOf(s, Part(w.items[j].path)) != w.items[j].size
    ensures var part := Part(w.items[j].path);
      && Reaches(w, longer, t) && part in t.names && t.names[part] < |t.nodes|
      && t.calls == s.calls[j := Writing(t.names[part], SizeOf(s, part))]
      && t.nodes[t.names[part]] == (if Holds(s, part).Some? then Holds(s, part).value else [])
      && (forall n | n != part :: Holds(t, n) == Holds(s, n) && (n in t.names ==> t.names[n] != t.names[part]))
  {
    var have;
    longer, have := Asks(w, run, s, j);
    var asked := Goto(s, j, AtOpen(have));
    Opened(w, asked, j, have);
    longer := Goes(w, longer, asked, j, Go);
    t := Do(w, asked, j, Go);
  }

  /** What a reply brings is appended to the `.part` file. */
  lemma Receives(w: World, run: seq<State>, s: State, j: nat, more: Bytes)
    returns (longer: seq<State>, t: State, node: nat)
    requires Reaches(w, run, s) && NodesOk(w, s) && j < |w.items| && s.calls[j].AtLoop?
    requires var have := SizeOf(s, Part(w.items[j].path));
      have != w.items[j].size && have <= |w.remotes[j]| && more <= w.remotes[j][have..]
    ensures var have := SizeOf(s, Part(w.items[j].path));
      Reaches(w, longer, t) && OnlyCall(w, s, t, j, Writing(node, have + |more|))
    ensures var part := Part(w.items[j].path);
      Holds(t, part) == Some((if Holds(s, part).Some? then Holds(s, part).value else []) + more)
    ensures Holds(t, w.items[j].path) == Holds(s, w.items[j].path)
  {
    var part := Part(w.items[j].path);
    var have, begun := SizeOf(s, part), s;
    PathIsNotPart(w.items[j].path);
    longer, begun := OpensPart(w, run, s, j);
    node := begun.names[part];
    longer := Writes(w, longer, begun, j, node, have, have + |more|);
    assert w.remotes[j][have..have + |more|] == more;
    t := Written(begun, j, node, more, have + |more|);
    WrittenOnly(w, begun, j, part, more, have + |more|);
  }

  lemma WrittenOnly(w: World, s: State, j: nat, part: string, data: Bytes, offset: nat)
    requires StateOk(w, s) && j < |s.calls| && part in s.names && s.names[part] < |s.nodes|
    requires forall n | n in s.names && n != part :: s.names[n] != s.names[part]
    ensures var t := Written(s, j, s.names[part], data, offset);
      && Holds(t, part) == Some(s.nodes[s.names[part]] + data)
      && forall n | n != part :: Holds(t, n) == Holds(s, n)
  {
  }

  /** The file that is opened has no other name. */
  lemma Opened(w: World, s: State, j: nat, have: nat)
    requires NodesOk(w, s) && j < |w.items| && s.calls[j] == AtOpen(have)
    requires have == SizeOf(s, Part(w.items[j].path))
    ensures var part := Part(w.items[j].path); var t := Do(w, s, j, Go);
      && StateOk(w, t) && part in t.names && t.calls == s.calls[j := Writing(t.names[part], have)]
      && Holds(t, part) == Some(if Holds(s, part).Some? then Holds(s, part).value else [])
      && (forall n | n != part :: Holds(t, n) == Holds(s, n) && (n in t.names ==> t.names[n] != t.names[part]))
  {
  }

  /** A body that ends is complete or not: if it is, the file is moved; if not, the call goes on. */
  lemma Ends(w: World, run: seq<State>, s: State, j: nat) returns (longer: seq<State>, t: State)
    requires Reaches(w, run, s) && j < |w.items| && s.calls[j].Writing?
    ensures var path, part, done := w.items[j].path, Part(w.items[j].path),
                                    HasSize(s, Part(w.items[j].path), w.items[j].size);
      && Reaches(w, longer, t) && OnlyCall(w, s, t, j, if done then Idle else AtLoop)
      && Holds(t, path) == (if done then Holds(s, part) else Holds(s, path))
      && Holds(t, part) == (if done then None else Holds(s, part))
  {
    PathIsNotPart(w.items[j].path);
    longer := Goes(w, run, s, j, Finish);
    t := Do(w, s, j, Finish);
    longer := Goes(w, longer, t, j, Go);
    t := Do(w, t, j, Go);
    if t.calls[j].AtReplace? {
      longer := Goes(w, longer, t, j, Go);
      t := Do(w, t, j, Go);
    }
  }

  /** A pass of the loop that is not disturbed comes to what the sequential model says of this reply. */
  lemma PassInSteps(w: World, run: seq<State>, s: State, j: nat, reply: Reply) returns (longer: seq<State>, t: State)
    requires Reaches(w, run, s) && NodesOk(w, s) && j < |w.items| && s.calls[j].AtLoop?
    requires var have := SizeOf(s, Part(w.items[j].path));
      have != w.items[j].size && ReplyOk(reply, have, w.remotes[j])
    ensures var path, part := w.items[j].path, Part(w.items[j].path);
      var have := SizeOf(s, part);
      var had := if Holds(s, part).Some? then Holds(s, part).value else [];
      && Reaches(w, longer, t)
      && match FateOf(have, reply, w.items[j].size)
         case Failed => OnlyCall(w, s, t, j, AtLoop) && SizeOf(t, part) == Resume(have, reply)
         case Reset => OnlyCall(w, s, t, j, AtLoop) && Holds(t, part) == None
         case Done => OnlyCall(w, s, t, j, Idle) && Holds(t, path) == Some(had + Flat(reply.blocks))
         case Escaped => OnlyCall(w, s, t, j, Idle)
         case Moved => false
  {
    var have := SizeOf(s, Part(w.items[j].path));
    if reply.NoReply? {
      longer := GetsNoReply(w, run, s, j, reply.retried);
      t := Goto(s, j, if reply.retried then AtLoop else Idle);
    } else if Refused(reply, have) {
      longer, t := IsRefused(w, run, s, j);
    } else {
      var node;
      longer, t, node := Receives(w, run, s, j, Flat(reply.blocks));
      longer, t := Concludes(w, longer, t, j, reply.end);
    }
  }

  /** How a transfer ends. */
  lemma Concludes(w: World, run: seq<State>, s: State, j: nat, end: End) returns (longer: seq<State>, t: State)
    requires Reaches(w, run, s) && j < |w.items| && s.calls[j].Writing?
    ensures var path, part := w.items[j].path, Part(w.items[j].path);
      var done := end == Eof && HasSize(s, part, w.items[j].size);
      && Reaches(w, longer, t) && OnlyCall(w, s, t, j, if done || end == Escapes then Idle else AtLoop)
      && Holds(t, path) == (if done then Holds(s, part) else Holds(s, path))
      && Holds(t, part) == (if done then None else Holds(s, part))
  {
    match end
    case Eof =>
      longer, t := Ends(w, run, s, j);
    case Broken =>
      longer := Goes(w, run, s, j, Retry);
      t := Do(w, s, j, Retry);
    case Escapes =>
      longer := Goes(w, run, s, j, Quit);
      t := Do(w, s, j, Quit);
  }
}
