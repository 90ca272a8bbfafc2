/**
The reference-counted lock that the payment callbacks take on an order number.

Every statement of `LockOrder` and `UnlockOrder` that touches shared memory is one atomic
step of one thread; `refCount++` and `refCount--` are split into their read and their write.
Any number of threads run, each taking and releasing locks on order numbers of its choice.
*/
module OrderLock {
  import opened Basics

  type TradeNo = string

  /** An index into the heap of mutex objects: two entries are the same object iff equal. */
  type Ref = nat

  datatype RefCountedMutex = RefCountedMutex(held: bool, refCount: int)

  /** Where a thread stands. Each constructor names the statement the thread is about to
      execute. `Inside` and `AtUnlockLoad` remember the object that was locked; no step reads
      that memory, it only lets the invariant say which object the thread holds. */
  datatype Pc =
    | Outside
    | AtCreateLock(k: TradeNo)
    | AtLoad(k: TradeNo)
    | AtStore(k: TradeNo)
    | AtReadUp(k: TradeNo, r: Ref)
    | AtWriteUp(k: TradeNo, r: Ref, seen: int)
    | AtCreateUnlock(k: TradeNo, r: Ref)
    | AtMutexLock(k: TradeNo, r: Ref)
    | Inside(k: TradeNo, locked: Ref)
    | AtUnlockLoad(k: TradeNo, locked: Ref)
    | AtMutexUnlock(k: TradeNo, r: Ref)
    | AtRelock(k: TradeNo, r: Ref)
    | AtReadDown(k: TradeNo, r: Ref)
    | AtWriteDown(k: TradeNo, r: Ref, seen: int)
    | AtTest(k: TradeNo, r: Ref)
    | AtDelete(k: TradeNo, r: Ref)
    | AtRelease(k: TradeNo)
    | Fatal

  /** The shared memory and all threads. `creator` owns `createLock`; `locks` is `orderLocks`. */
  datatype State = State(pcs: seq<Pc>, creator: Option<nat>, locks: map<TradeNo, Ref>, heap: seq<RefCountedMutex>)

  ghost predicate Init(s: State) {
    && s.creator == None
    && s.locks == map[]
    && s.heap == []
    && forall t | 0 <= t < |s.pcs| :: s.pcs[t] == Outside
  }

  /** The object a program counter refers to. */
  function RefOf(pc: Pc): Option<Ref> {
    match pc
    case AtReadUp(_, r) => Some(r)
    case AtWriteUp(_, r, _) => Some(r)
    case AtCreateUnlock(_, r) => Some(r)
    case AtMutexLock(_, r) => Some(r)
    case Inside(_, r) => Some(r)
    case AtUnlockLoad(_, r) => Some(r)
    case AtMutexUnlock(_, r) => Some(r)
    case AtRelock(_, r) => Some(r)
    case AtReadDown(_, r) => Some(r)
    case AtWriteDown(_, r, _) => Some(r)
    case AtTest(_, r) => Some(r)
    case AtDelete(_, r) => Some(r)
    case _ => None
  }

  /** No dangling reference. */
  ghost predicate Wf(s: State) {
    && (forall k | k in s.locks :: s.locks[k] < |s.heap|)
    && (forall t | 0 <= t < |s.pcs| && RefOf(s.pcs[t]).Some? :: RefOf(s.pcs[t]).value < |s.heap|)
  }

  /** Can thread `t` execute its next statement now? Only the two `Lock` calls ever block;
      a thread outside moves only when somebody calls `LockOrder`. */
  predicate Enabled(s: State, t: nat)
    requires t < |s.pcs|
  {
    match s.pcs[t]
    case Outside => false
    case Fatal => false
    case AtCreateLock(_) => s.creator == None
    case AtRelock(_, _) => s.creator == None
    case AtMutexLock(_, r) => r < |s.heap| && !s.heap[r].held
    case _ => true
  }

  function Goto(s: State, t: nat, pc: Pc): State
    requires t < |s.pcs|
  {
    s.(pcs := s.pcs[t := pc])
  }

  /** Thread `t` calls `LockOrder(k)`. */
  function Call(s: State, t: nat, k: TradeNo): State
    requires t < |s.pcs| && s.pcs[t] == Outside
  {
    Goto(s, t, AtCreateLock(k))
  }

  /** Thread `t` executes one statement. */
  function Step(s: State, t: nat): (s': State)
    requires Wf(s) && t < |s.pcs| && Enabled(s, t)
  {
    match s.pcs[t]
    case AtCreateLock(k) => Goto(s, t, AtLoad(k)).(creator := Some(t))
    case AtLoad(k) => Goto(s, t, if k in s.locks then AtReadUp(k, s.locks[k]) else AtStore(k))
    case AtStore(k) =>
      Goto(s, t, AtReadUp(k, |s.heap|)).(locks := s.locks[k := |s.heap|], heap := s.heap + [RefCountedMutex(false, 0)])
    case AtReadUp(k, r) => Goto(s, t, AtWriteUp(k, r, s.heap[r].refCount))
    case AtWriteUp(k, r, seen) =>
      Goto(s, t, AtCreateUnlock(k, r)).(heap := s.heap[r := s.heap[r].(refCount := seen + 1)])
    case AtCreateUnlock(k, r) => Goto(s, t, AtMutexLock(k, r)).(creator := None)
    case AtMutexLock(k, r) => Goto(s, t, Inside(k, r)).(heap := s.heap[r := s.heap[r].(held := true)])
    case Inside(k, r) => Goto(s, t, AtUnlockLoad(k, r))
    case AtUnlockLoad(k, _) => Goto(s, t, if k in s.locks then AtMutexUnlock(k, s.locks[k]) else Outside)
    case AtMutexUnlock(k, r) =>
      if s.heap[r].held
      then Goto(s, t, AtRelock(k, r)).(heap := s.heap[r := s.heap[r].(held := false)])
      else Goto(s, t, Fatal)
    case AtRelock(k, r) => Goto(s, t, AtReadDown(k, r)).(creator := Some(t))
    case AtReadDown(k, r) => Goto(s, t, AtWriteDown(k, r, s.heap[r].refCount))
    case AtWriteDown(k, r, seen) =>
      Goto(s, t, AtTest(k, r)).(heap := s.heap[r := s.heap[r].(refCount := seen - 1)])
    case AtTest(k, r) => Goto(s, t, if s.heap[r].refCount == 0 then AtDelete(k, r) else AtRelease(k))
    case AtDelete(k, r) => Goto(s, t, AtRelease(k)).(locks := s.locks - {k})
    case AtRelease(k) => Goto(s, t, Outside).(creator := None)
  }

  ghost predicate Next(s: State, s': State) {
    && Wf(s)
    && exists t: nat :: t < |s.pcs| && (
        || (s.pcs[t] == Outside && exists k :: s' == Call(s, t, k))
        || (Enabled(s, t) && s' == Step(s, t)))
  }

  // ---------- counting threads ----------

  /** `Registered`: between the write of `refCount++` and the write of `refCount--`.
      `Holding`: owns the order's mutex. */
  datatype Role = Registered | Holding

  predicate Plays(pc: Pc, role: Role, ref: Ref) {
    match pc
    case Inside(_, r) => r == ref
    case AtUnlockLoad(_, r) => r == ref
    case AtMutexUnlock(_, r) => r == ref
    case AtCreateUnlock(_, r) => role == Registered && r == ref
    case AtMutexLock(_, r) => role == Registered && r == ref
    case AtRelock(_, r) => role == Registered && r == ref
    case AtReadDown(_, r) => role == Registered && r == ref
    case AtWriteDown(_, r, _) => role == Registered && r == ref
    case _ => false
  }

  function Count(pcs: seq<Pc>, role: Role, ref: Ref): nat {
    if pcs == [] then 0 else (if Plays(pcs[0], role, ref) then 1 else 0) + Count(pcs[1..], role, ref)
  }

  lemma {:induction false} CountUpdate(pcs: seq<Pc>, t: nat, pc: Pc, role: Role, ref: Ref)
    requires t < |pcs|
    ensures Count(pcs[t := pc], role, ref)
         == Count(pcs, role, ref) - (if Plays(pcs[t], role, ref) then 1 else 0)
            + (if Plays(pc, role, ref) then 1 else 0)
  {
    if t == 0 {
      assert pcs[t := pc][1..] == pcs[1..];
    } else {
      assert pcs[t := pc][1..] == pcs[1..][t - 1 := pc];
      CountUpdate(pcs[1..], t - 1, pc, role, ref);
    }
  }

  lemma {:induction false} CountAtLeastOne(pcs: seq<Pc>, t: nat, role: Role, ref: Ref)
    requires t < |pcs| && Plays(pcs[t], role, ref)
    ensures Count(pcs, role, ref) >= 1
  {
    if t > 0 { CountAtLeastOne(pcs[1..], t - 1, role, ref); }
  }

  lemma {:induction false} CountAtLeastTwo(pcs: seq<Pc>, t: nat, u: nat, role: Role, ref: Ref)
    requires t < u < |pcs| && Plays(pcs[t], role, ref) && Plays(pcs[u], role, ref)
    ensures Count(pcs, role, ref) >= 2
  {
    if t > 0 {
      CountAtLeastTwo(pcs[1..], t - 1, u - 1, role, ref);
    } else {
      CountAtLeastOne(pcs[1..], u - 1, role, ref);
    }
  }

  lemma {:induction false} CountWitness(pcs: seq<Pc>, role: Role, ref: Ref) returns (t: nat)
    requires Count(pcs, role, ref) >= 1
    ensures t < |pcs| && Plays(pcs[t], role, ref)
  {
    if Plays(pcs[0], role, ref) { t := 0; } else { var u := CountWitness(pcs[1..], role, ref); t := u + 1; }
  }

  lemma {:induction false} CountNone(pcs: seq<Pc>, role: Role, ref: Ref)
    requires forall t | 0 <= t < |pcs| :: !Plays(pcs[t], role, ref)
    ensures Count(pcs, role, ref) == 0
  {
    if pcs != [] { CountNone(pcs[1..], role, ref); }
  }

  // ---------- the inductive invariant ----------

  /** Statements executed while owning `createLock`. */
  predicate InCreate(pc: Pc) {
    pc.AtLoad? || pc.AtStore? || pc.AtReadUp? || pc.AtWriteUp? || pc.AtCreateUnlock?
    || pc.AtReadDown? || pc.AtWriteDown? || pc.AtTest? || pc.AtDelete? || pc.AtRelease?
  }

  /** Owns `createLock` and has, or is about to have, a reference not visible in `refCount`. */
  predicate Transient(pc: Pc) {
    pc.AtReadUp? || pc.AtWriteUp? || pc.AtTest? || pc.AtDelete?
  }

  /** The thread relies on `locks[k]` being its object. */
  predicate Uses(pc: Pc) {
    RefOf(pc).Some?
  }

  function KeyOf(pc: Pc): Option<TradeNo> {
    if pc.Outside? || pc.Fatal? then None else Some(pc.k)
  }

  ghost predicate CreateLockOk(s: State) {
    && (s.creator.Some? ==> s.creator.value < |s.pcs|)
    && forall t | 0 <= t < |s.pcs| :: InCreate(s.pcs[t]) <==> s.creator == Some(t)
  }

  ghost predicate EntryOk(s: State) {
    && (forall t | 0 <= t < |s.pcs| && Uses(s.pcs[t]) ::
          s.pcs[t].k in s.locks && s.locks[s.pcs[t].k] == RefOf(s.pcs[t]).value)
    && (forall t | 0 <= t < |s.pcs| && s.pcs[t].AtStore? :: s.pcs[t].k !in s.locks)
    && (forall j, k | j in s.locks && k in s.locks && j != k :: s.locks[j] != s.locks[k])
    && (forall k | k in s.locks :: Referenced(s, k))
  }

  /** Some thread is registered for `k`, or the owner of `createLock` is working on it. */
  ghost predicate Referenced(s: State, k: TradeNo)
    requires k in s.locks
  {
    || Count(s.pcs, Registered, s.locks[k]) >= 1
    || (s.creator.Some? && s.creator.value < |s.pcs| && Transient(s.pcs[s.creator.value])
      && s.pcs[s.creator.value].k == k)
  }

  ghost predicate CountsOk(s: State) {
    && (forall r | 0 <= r < |s.heap| :: s.heap[r].refCount == Count(s.pcs, Registered, r))
    && (forall r | 0 <= r < |s.heap| :: Count(s.pcs, Holding, r) == if s.heap[r].held then 1 else 0)
  }

  predicate LocalOk(s: State, pc: Pc) {
    match pc
    case AtWriteUp(_, r, seen) => r < |s.heap| && seen == s.heap[r].refCount
    case AtWriteDown(_, r, seen) => r < |s.heap| && seen == s.heap[r].refCount
    case AtDelete(_, r) => r < |s.heap| && s.heap[r].refCount == 0
    case Fatal => false
    case _ => true
  }

  ghost predicate Inv(s: State) {
    && Wf(s)
    && CreateLockOk(s)
    && EntryOk(s)
    && CountsOk(s)
    && forall t | 0 <= t < |s.pcs| :: LocalOk(s, s.pcs[t])
  }

  lemma InitInv(s: State)
    requires Init(s)
    ensures Inv(s)
  {
  }

  // ---------- every step keeps the invariant ----------

  /** A fresh heap cell is played by nobody. */
  lemma FreshUnplayed(s: State, role: Role)
    requires Wf(s)
    ensures Count(s.pcs, role, |s.heap|) == 0
  {
    forall t | 0 <= t < |s.pcs| ensures !Plays(s.pcs[t], role, |s.heap|) {
      assert Plays(s.pcs[t], role, |s.heap|) ==> RefOf(s.pcs[t]) == Some(|s.heap|);
    }
    CountNone(s.pcs, role, |s.heap|);
  }

  /** A holder finds the object it locked under the key it locked (`UnlockOrder` never returns
      early), and that object is locked (`Unlock` never panics). */
  lemma UnlockFindsLocked(s: State, t: nat)
    requires Inv(s) && t < |s.pcs|
    ensures s.pcs[t].AtUnlockLoad? ==> s.pcs[t].k in s.locks && s.locks[s.pcs[t].k] == s.pcs[t].locked
    ensures s.pcs[t].AtMutexUnlock? ==> s.heap[s.pcs[t].r].held
  {
    if s.pcs[t].AtMutexUnlock? { CountAtLeastOne(s.pcs, t, Holding, s.pcs[t].r); }
  }

  function Bit(b: bool): int { if b then 1 else 0 }

  /** A step changes the counters of an old object exactly as it changes the moving thread's roles. */
  lemma StepDelta(s: State, t: nat, r: Ref)
    requires Wf(s) && t < |s.pcs| && Enabled(s, t) && r < |s.heap|
    requires LocalOk(s, s.pcs[t]) && (s.pcs[t].AtMutexUnlock? ==> s.heap[s.pcs[t].r].held)
    requires s.pcs[t].AtUnlockLoad? ==> s.pcs[t].k in s.locks && s.locks[s.pcs[t].k] == s.pcs[t].locked
    ensures var s' := Step(s, t); var pc, pc' := s.pcs[t], s'.pcs[t];
      && r < |s'.heap|
      && s'.heap[r].refCount - s.heap[r].refCount == Bit(Plays(pc', Registered, r)) - Bit(Plays(pc, Registered, r))
      && Bit(s'.heap[r].held) - Bit(s.heap[r].held) == Bit(Plays(pc', Holding, r)) - Bit(Plays(pc, Holding, r))
  {
  }

  lemma StepShape(s: State, t: nat)
    requires Wf(s) && t < |s.pcs| && Enabled(s, t)
    ensures Step(s, t).pcs == s.pcs[t := Step(s, t).pcs[t]]
    ensures if s.pcs[t].AtStore? then Step(s, t).heap == s.heap + [RefCountedMutex(false, 0)]
      else |Step(s, t).heap| == |s.heap|
  {
  }

  lemma StepCounts(s: State, t: nat)
    requires Inv(s) && t < |s.pcs| && Enabled(s, t)
    ensures CountsOk(Step(s, t))
  {
    var s' := Step(s, t);
    StepShape(s, t);
    UnlockFindsLocked(s, t);
    assert LocalOk(s, s.pcs[t]);
    forall r | 0 <= r < |s'.heap|
      ensures s'.heap[r].refCount == Count(s'.pcs, Registered, r)
      ensures Count(s'.pcs, Holding, r) == Bit(s'.heap[r].held)
    {
      CountUpdate(s.pcs, t, s'.pcs[t], Registered, r);
      CountUpdate(s.pcs, t, s'.pcs[t], Holding, r);
      if r < |s.heap| {
        StepDelta(s, t, r);
      } else {
        FreshUnplayed(s, Registered);
        FreshUnplayed(s, Holding);
      }
    }
  }

  /** After its step, the moving thread refers to an object that is there. */
  lemma StepRef(s: State, t: nat)
    requires Wf(s) && t < |s.pcs| && Enabled(s, t)
    ensures var s' := Step(s, t); RefOf(s'.pcs[t]).Some? ==> RefOf(s'.pcs[t]).value < |s'.heap|
  {
  }

  lemma StepWf(s: State, t: nat)
    requires Inv(s) && t < |s.pcs| && Enabled(s, t)
    ensures Wf(Step(s, t))
  {
    var s' := Step(s, t);
    StepShape(s, t);
    StepLocks(s, t);
    StepRef(s, t);
    forall u | 0 <= u < |s'.pcs| && RefOf(s'.pcs[u]).Some? ensures RefOf(s'.pcs[u]).value < |s'.heap| {
      assert u != t ==> s'.pcs[u] == s.pcs[u];
    }
  }

  /** `createLock` changes hands only as the moving thread enters or leaves its section. */
  lemma StepCreator(s: State, t: nat)
    requires Inv(s) && t < |s.pcs| && Enabled(s, t)
    ensures var s' := Step(s, t);
      if InCreate(s'.pcs[t]) then s'.creator == Some(t) && (s.creator == None || s.creator == Some(t))
      else s'.creator == if InCreate(s.pcs[t]) then None else s.creator
  {
    assert InCreate(s.pcs[t]) <==> s.creator == Some(t);
    UnlockFindsLocked(s, t);
  }

  lemma StepCreate(s: State, t: nat)
    requires Inv(s) && t < |s.pcs| && Enabled(s, t)
    ensures CreateLockOk(Step(s, t))
  {
    var s' := Step(s, t);
    StepShape(s, t);
    StepCreator(s, t);
    forall u | 0 <= u < |s'.pcs| ensures InCreate(s'.pcs[u]) <==> s'.creator == Some(u) {
      assert InCreate(s.pcs[u]) <==> s.creator == Some(u);
    }
  }

  /** Nobody is registered with a deleted entry, and only the owner of `createLock` could
      otherwise be using it. */
  lemma DeleteIsUnused(s: State, t: nat, u: nat)
    requires Inv(s) && t < |s.pcs| && u < |s.pcs| && u != t && s.pcs[t].AtDelete? && Uses(s.pcs[u])
    ensures s.pcs[u].k != s.pcs[t].k
  {
    assert LocalOk(s, s.pcs[t]);
    if s.pcs[u].k == s.pcs[t].k {
      var r := s.pcs[t].r;
      assert InCreate(s.pcs[t]) && s.creator == Some(t);
      assert !InCreate(s.pcs[u]);
      assert Plays(s.pcs[u], Registered, r);
      CountAtLeastOne(s.pcs, u, Registered, r);
    }
  }

  /** The only changes a step makes to the lock map. */
  lemma StepLocks(s: State, t: nat)
    requires Wf(s) && t < |s.pcs| && Enabled(s, t)
    ensures var s' := Step(s, t); var pc := s.pcs[t];
      s'.locks == if pc.AtStore? then s.locks[pc.k := |s.heap|] else if pc.AtDelete? then s.locks - {pc.k} else s.locks
    ensures Step(s, t).pcs[t].AtStore? ==> s.pcs[t].AtLoad? && Step(s, t).pcs[t].k !in s.locks
  {
  }

  /** After its step, the moving thread still refers to the entry of its key. */
  lemma StepUses(s: State, t: nat)
    requires Wf(s) && t < |s.pcs| && Enabled(s, t)
    requires var pc := s.pcs[t]; Uses(pc) ==> pc.k in s.locks && s.locks[pc.k] == RefOf(pc).value
    ensures var pc' := Step(s, t).pcs[t];
      Uses(pc') ==> pc'.k in Step(s, t).locks && Step(s, t).locks[pc'.k] == RefOf(pc').value
  {
  }

  /** The moving thread hands the entry's reference over between `refCount` and `createLock`. */
  lemma StepTransient(s: State, t: nat, k: TradeNo)
    requires Inv(s) && t < |s.pcs| && Enabled(s, t) && k in s.locks && k in Step(s, t).locks && !s.pcs[t].AtStore?
    ensures var pc, pc' := s.pcs[t], Step(s, t).pcs[t]; var r := s.locks[k];
      (Plays(pc, Registered, r) || (Transient(pc) && pc.k == k)) ==>
        || Plays(pc', Registered, r)
        || (Transient(pc') && pc'.k == k)
        || (pc.AtTest? && s.heap[r].refCount != 0)
  {
    assert Uses(s.pcs[t]) ==> s.pcs[t].k in s.locks && s.locks[s.pcs[t].k] == RefOf(s.pcs[t]).value;
    UnlockFindsLocked(s, t);
  }

  lemma StepReferenced(s: State, t: nat, k: TradeNo)
    requires Inv(s) && t < |s.pcs| && Enabled(s, t) && k in Step(s, t).locks
    ensures Referenced(Step(s, t), k)
  {
    var s' := Step(s, t);
    var pc, pc' := s.pcs[t], s'.pcs[t];
    StepShape(s, t);
    StepLocks(s, t);
    StepCreator(s, t);
    if pc.AtStore? && pc.k == k { return; }
    var r := s.locks[k];
    assert Referenced(s, k) && s'.locks[k] == r;
    CountUpdate(s.pcs, t, pc', Registered, r);
    if pc.AtStore? { return; }
    StepTransient(s, t, k);
    if Plays(pc', Registered, r) {
      CountAtLeastOne(s'.pcs, t, Registered, r);
    } else if Plays(pc, Registered, r) || (Transient(pc) && pc.k == k) {
      assert s.heap[r].refCount == Count(s.pcs, Registered, r);
    } else if Count(s.pcs, Registered, r) == 0 {
      assert s.creator != Some(t) && InCreate(s.pcs[s.creator.value]);
    }
  }

  /** Every thread still refers to the entry of its order number. */
  lemma StepUsed(s: State, t: nat, u: nat)
    requires Inv(s) && t < |s.pcs| && Enabled(s, t) && u < |s.pcs|
    ensures var s' := Step(s, t);
      Uses(s'.pcs[u]) ==> s'.pcs[u].k in s'.locks && s'.locks[s'.pcs[u].k] == RefOf(s'.pcs[u]).value
  {
    StepShape(s, t);
    StepLocks(s, t);
    if u == t {
      StepUses(s, t);
    } else if Uses(s.pcs[u]) {
      if s.pcs[t].AtDelete? { DeleteIsUnused(s, t, u); }
    }
  }

  /** A thread about to create an entry finds none. */
  lemma StepStores(s: State, t: nat, u: nat)
    requires Inv(s) && t < |s.pcs| && Enabled(s, t) && u < |s.pcs|
    ensures Step(s, t).pcs[u].AtStore? ==> Step(s, t).pcs[u].k !in Step(s, t).locks
  {
    StepShape(s, t);
    StepLocks(s, t);
    if u != t && s.pcs[u].AtStore? { assert InCreate(s.pcs[u]) && !InCreate(s.pcs[t]); }
  }

  lemma StepEntry(s: State, t: nat)
    requires Inv(s) && t < |s.pcs| && Enabled(s, t)
    ensures EntryOk(Step(s, t))
  {
    var s' := Step(s, t);
    StepShape(s, t);
    StepLocks(s, t);
    forall k | k in s'.locks ensures Referenced(s', k) { StepReferenced(s, t, k); }
    forall u | 0 <= u < |s'.pcs| && Uses(s'.pcs[u])
      ensures s'.pcs[u].k in s'.locks && s'.locks[s'.pcs[u].k] == RefOf(s'.pcs[u]).value
    {
      StepUsed(s, t, u);
    }
    forall u | 0 <= u < |s'.pcs| && s'.pcs[u].AtStore? ensures s'.pcs[u].k !in s'.locks { StepStores(s, t, u); }
    assert forall j, k | j in s'.locks && k in s'.locks && j != k :: s'.locks[j] != s'.locks[k];
  }

  lemma StepLocal(s: State, t: nat)
    requires Inv(s) && t < |s.pcs| && Enabled(s, t)
    ensures forall u | 0 <= u < |s.pcs| :: LocalOk(Step(s, t), Step(s, t).pcs[u])
  {
    var s' := Step(s, t);
    UnlockFindsLocked(s, t);
    forall u | 0 <= u < |s.pcs| ensures LocalOk(s', s'.pcs[u]) {
      if u != t && (s.pcs[u].AtWriteUp? || s.pcs[u].AtWriteDown? || s.pcs[u].AtDelete?) {
        assert InCreate(s.pcs[u]) && s.creator == Some(u) && !InCreate(s.pcs[t]);
      }
    }
  }

  lemma StepInv(s: State, t: nat)
    requires Inv(s) && t < |s.pcs| && Enabled(s, t)
    ensures Inv(Step(s, t))
  {
    StepWf(s, t);
    StepCounts(s, t);
    StepCreate(s, t);
    StepEntry(s, t);
    StepLocal(s, t);
  }

  lemma CallCounts(s: State, t: nat, k: TradeNo, role: Role, r: Ref)
    requires t < |s.pcs| && s.pcs[t] == Outside
    ensures Count(Call(s, t, k).pcs, role, r) == Count(s.pcs, role, r)
  {
    CountUpdate(s.pcs, t, AtCreateLock(k), role, r);
  }

  lemma CallEntry(s: State, t: nat, k: TradeNo)
    requires Inv(s) && t < |s.pcs| && s.pcs[t] == Outside
    ensures EntryOk(Call(s, t, k))
  {
    var s' := Call(s, t, k);
    forall j | j in s'.locks ensures Referenced(s', j) {
      assert Referenced(s, j);
      CallCounts(s, t, k, Registered, s.locks[j]);
    }
  }

  lemma CallInv(s: State, t: nat, k: TradeNo)
    requires Inv(s) && t < |s.pcs| && s.pcs[t] == Outside
    ensures Inv(Call(s, t, k))
  {
    var s' := Call(s, t, k);
    CallEntry(s, t, k);
    forall role, r | 0 <= r < |s.heap| ensures Count(s'.pcs, role, r) == Count(s.pcs, role, r) {
      CallCounts(s, t, k, role, r);
    }
  }

  // ---------- what every run guarantees ----------

  ghost predicate IsRun(run: seq<State>) {
    && |run| > 0
    && Init(run[0])
    && forall i | 0 < i < |run| :: Next(run[i - 1], run[i])
  }

  lemma NextInv(s: State, s': State)
    requires Inv(s) && Next(s, s')
    ensures Inv(s')
  {
    var t: nat :| t < |s.pcs| && (
      || (s.pcs[t] == Outside && exists k :: s' == Call(s, t, k))
      || (Enabled(s, t) && s' == Step(s, t)));
    if Enabled(s, t) && s' == Step(s, t) {
      StepInv(s, t);
    } else {
      var k :| s' == Call(s, t, k);
      CallInv(s, t, k);
    }
  }

  lemma {:induction false} RunInv(run: seq<State>, i: nat)
    requires IsRun(run) && i < |run|
    ensures Inv(run[i])
  {
    if i == 0 {
      InitInv(run[0]);
    } else {
      RunInv(run, i - 1);
      NextInv(run[i - 1], run[i]);
    }
  }

  /** May the thread be between its return from `LockOrder(k)` and its `mu.Unlock()`? */
  predicate InSection(pc: Pc, k: TradeNo) {
    (pc.Inside? || pc.AtUnlockLoad? || pc.AtMutexUnlock?) && pc.k == k
  }

  lemma SectionExclusive(s: State, t: nat, u: nat, k: TradeNo)
    requires Inv(s) && t < |s.pcs| && u < |s.pcs|
    requires InSection(s.pcs[t], k) && InSection(s.pcs[u], k)
    ensures t == u
  {
    var r := s.locks[k];
    assert Uses(s.pcs[t]) && Uses(s.pcs[u]);
    assert Plays(s.pcs[t], Holding, r) && Plays(s.pcs[u], Holding, r);
    if t < u { CountAtLeastTwo(s.pcs, t, u, Holding, r); }
    if u < t { CountAtLeastTwo(s.pcs, u, t, Holding, r); }
  }

  /** Safety of every reachable state: mutual exclusion per order number, one mutex object per
      order number for everybody registered, an exact reference count, no failed lookup and no
      unlock of an unlocked mutex. */
  lemma MutualExclusion(run: seq<State>)
    requires IsRun(run)
    ensures var s := run[|run| - 1];
      && Wf(s)
      && (forall t, u, k | 0 <= t < |s.pcs| && 0 <= u < |s.pcs| && InSection(s.pcs[t], k) && InSection(s.pcs[u], k) ::
            t == u)
      && (forall t, u | 0 <= t < |s.pcs| && 0 <= u < |s.pcs| && Uses(s.pcs[t]) && Uses(s.pcs[u]) ::
            s.pcs[t].k == s.pcs[u].k <==> RefOf(s.pcs[t]) == RefOf(s.pcs[u]))
      && (forall r | 0 <= r < |s.heap| :: s.heap[r].refCount == Count(s.pcs, Registered, r))
      && (forall t | 0 <= t < |s.pcs| && s.pcs[t].AtUnlockLoad? ::
            s.pcs[t].k in s.locks && s.locks[s.pcs[t].k] == s.pcs[t].locked)
      && (forall t | 0 <= t < |s.pcs| :: s.pcs[t] != Fatal)
  {
    var s := run[|run| - 1];
    RunInv(run, |run| - 1);
    forall t, u, k | 0 <= t < |s.pcs| && 0 <= u < |s.pcs| && InSection(s.pcs[t], k) && InSection(s.pcs[u], k)
      ensures t == u
    {
      SectionExclusive(s, t, u, k);
    }
    assert forall t | 0 <= t < |s.pcs| :: LocalOk(s, s.pcs[t]);
  }

  /** An entry exists exactly while some thread refers to its object. */
  lemma EntryIffReferenced(s: State, k: TradeNo)
    requires Inv(s)
    ensures k in s.locks <==> exists t | 0 <= t < |s.pcs| :: Uses(s.pcs[t]) && s.pcs[t].k == k
  {
    if k in s.locks {
      assert Referenced(s, k);
      if Count(s.pcs, Registered, s.locks[k]) >= 1 {
        var t := CountWitness(s.pcs, Registered, s.locks[k]);
        assert Uses(s.pcs[t]) && s.locks[s.pcs[t].k] == s.locks[k];
      } else {
        assert Uses(s.pcs[s.creator.value]);
      }
    }
  }

  /** When nobody is inside, nothing is left behind. */
  lemma QuiescentIsEmpty(s: State)
    requires Inv(s) && forall t | 0 <= t < |s.pcs| :: s.pcs[t] == Outside
    ensures s.locks == map[] && s.creator == None
    ensures forall r | 0 <= r < |s.heap| :: s.heap[r] == RefCountedMutex(false, 0)
  {
    forall k | k in s.locks ensures false { EntryIffReferenced(s, k); }
    forall r | 0 <= r < |s.heap| ensures s.heap[r] == RefCountedMutex(false, 0) {
      CountNone(s.pcs, Registered, r);
      CountNone(s.pcs, Holding, r);
    }
    CreatorInCreate(s);
  }

  lemma CreatorInCreate(s: State)
    requires Inv(s)
    ensures s.creator.Some? ==> s.creator.value < |s.pcs| && InCreate(s.pcs[s.creator.value])
  {
  }

  /** No deadlock: while some thread has not returned, some thread can move. */
  lemma NoDeadlock(s: State)
    requires Inv(s) && exists t | 0 <= t < |s.pcs| :: s.pcs[t] != Outside
    ensures exists u: nat :: u < |s.pcs| && Enabled(s, u)
  {
    var t :| 0 <= t < |s.pcs| && s.pcs[t] != Outside;
    assert LocalOk(s, s.pcs[t]);
    if s.creator.Some? {
      var c := s.creator.value;
      assert InCreate(s.pcs[c]);
      assert Enabled(s, c);
    } else if s.pcs[t].AtMutexLock? && s.heap[s.pcs[t].r].held {
      var h := CountWitness(s.pcs, Holding, s.pcs[t].r);
      assert Enabled(s, h);
    } else {
      assert Enabled(s, t);
    }
  }

  // ---------- progress ----------

  /** How many statements a thread has left, at most, before it has returned from `UnlockOrder`. */
  function Left(pc: Pc): nat {
    match pc
    case Outside => 0
    case Fatal => 0
    case AtRelease(_) => 1
    case AtDelete(_, _) => 2
    case AtTest(_, _) => 3
    case AtWriteDown(_, _, _) => 4
    case AtReadDown(_, _) => 5
    case AtRelock(_, _) => 6
    case AtMutexUnlock(_, _) => 7
    case AtUnlockLoad(_, _) => 8
    case Inside(_, _) => 9
    case AtMutexLock(_, _) => 10
    case AtCreateUnlock(_, _) => 11
    case AtWriteUp(_, _, _) => 12
    case AtReadUp(_, _) => 13
    case AtStore(_) => 14
    case AtLoad(_) => 15
    case AtCreateLock(_) => 16
  }

  function Work(pcs: seq<Pc>): nat {
    if pcs == [] then 0 else Left(pcs[0]) + Work(pcs[1..])
  }

  lemma {:induction false} WorkUpdate(pcs: seq<Pc>, t: nat, pc: Pc)
    requires t < |pcs|
    ensures Work(pcs[t := pc]) == Work(pcs) - Left(pcs[t]) + Left(pc)
  {
    if t == 0 {
      assert pcs[t := pc][1..] == pcs[1..];
    } else {
      assert pcs[t := pc][1..] == pcs[1..][t - 1 := pc];
      WorkUpdate(pcs[1..], t - 1, pc);
    }
  }

  lemma StepProgress(s: State, t: nat)
    requires Wf(s) && t < |s.pcs| && Enabled(s, t)
    ensures Work(Step(s, t).pcs) < Work(s.pcs)
  {
    StepShape(s, t);
    WorkUpdate(s.pcs, t, Step(s, t).pcs[t]);
  }

  /** The state after the scheduled threads have each executed one statement. */
  ghost predicate Schedules(s: State, schedule: seq<nat>, s': State)
    decreases |schedule|
  {
    if schedule == [] then s' == s
    else
      && Wf(s) && schedule[0] < |s.pcs| && Enabled(s, schedule[0])
      && Schedules(Step(s, schedule[0]), schedule[1..], s')
  }

  /** Before the section: between the call of `LockOrder` and its return. */
  predicate Entering(pc: Pc) {
    pc.AtCreateLock? || pc.AtLoad? || pc.AtStore? || pc.AtReadUp? || pc.AtWriteUp? || pc.AtCreateUnlock?
    || pc.AtMutexLock?
  }

  /** A call gives the section before it returns: a thread that has called goes on entering until it is
      inside, always for the same order number, and is outside again only after it was inside. */
  lemma EntersBeforeLeaving(s: State, t: nat)
    requires Inv(s) && t < |s.pcs| && Enabled(s, t)
    ensures var pc, pc' := s.pcs[t], Step(s, t).pcs[t];
      && (Entering(pc) ==> (Entering(pc') || pc'.Inside?) && KeyOf(pc') == KeyOf(pc))
      && (pc.Inside? ==> pc'.AtUnlockLoad? && KeyOf(pc') == KeyOf(pc))
      && (!Entering(pc) && pc' != Outside ==> !Entering(pc') && !pc'.Inside? && KeyOf(pc') == KeyOf(pc))
  {
    UnlockFindsLocked(s, t);
  }

  /** Once no new calls arrive, every schedule is finite, and a schedule that cannot be extended
      has let every thread return and has emptied the lock map. */
  lemma {:induction false} EverybodyReturns(s: State, schedule: seq<nat>, s': State)
    requires Inv(s) && Schedules(s, schedule, s')
    ensures Inv(s') && |schedule| + Work(s'.pcs) <= Work(s.pcs)
    ensures (forall u: nat | u < |s'.pcs| :: !Enabled(s', u)) ==>
      s'.locks == map[] && forall t | 0 <= t < |s'.pcs| :: s'.pcs[t] == Outside
    decreases |schedule|
  {
    if schedule == [] {
      if forall u: nat | u < |s'.pcs| :: !Enabled(s', u) {
        if exists t | 0 <= t < |s'.pcs| :: s'.pcs[t] != Outside { NoDeadlock(s'); }
        QuiescentIsEmpty(s');
      }
    } else {
      StepInv(s, schedule[0]);
      StepProgress(s, schedule[0]);
      EverybodyReturns(Step(s, schedule[0]), schedule[1..], s');
    }
  }
}
