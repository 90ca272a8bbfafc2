/**
Crediting of wallet top-ups. Payment notifications (`EpayNotify`), manual completion and refunds
by an administrator all run their database work while holding the order's lock. Every database
call is a separate step, may fail, and a failing update may or may not have been applied. All threads
belong to one process: the locks are not shared between processes.
*/
module TopUpCredit {
  import opened Basics
  import L = OrderLock

  type TradeNo = L.TradeNo
  type UserId = int

  datatype Status = Pending | Success | Failed | Expired | Refunded

  datatype Order = Order(status: Status, provider: string, payMethod: string, user: UserId, amount: int)

  /** One change of a user's quota on account of an order. */
  datatype Entry = Entry(k: TradeNo, user: UserId, quota: int)

  /** The tables, and the history the properties speak about: `credits` and `clawbacks` log the
      quota changes in order; `stranded` are the orders that were marked paid although their quota
      was not granted; `legacy` are the orders that were not pending to begin with. */
  datatype Db = Db(
    orders: map<TradeNo, Order>, quota: map<UserId, int>, mirrors: set<TradeNo>, quotaPerUnit: int,
    credits: seq<Entry>, clawbacks: seq<Entry>, stranded: set<TradeNo>, legacy: set<TradeNo>)

  datatype Job = Notify(k: TradeNo, payType: string) | Complete(k: TradeNo) | Refund(k: TradeNo)

  /** What a database update did: applied; refused with an error; applied, but reported as failed. */
  datatype Outcome = Fine | Refused | Lost

  function QuotaOf(db: Db, o: Order): int { o.amount * db.quotaPerUnit }

  predicate OfflineGateway(provider: string) {
    provider in ["stripe", "creem", "waffo", "waffo_pancake"]
  }

  // ---------- the database work of the three jobs ----------

  predicate Payable(db: Db, k: TradeNo) {
    k in db.orders && db.orders[k].provider == "epay" && db.orders[k].status == Pending
  }

  function Settled(o: Order, payType: string): Order {
    o.(status := Success, payMethod := payType)
  }

  function SaveOrder(db: Db, k: TradeNo, o: Order, outcome: Outcome): Db {
    match outcome
    case Refused => db
    case Fine => db.(orders := db.orders[k := o])
    case Lost => db.(orders := db.orders[k := o], stranded := db.stranded + {k})
  }

  function Grant(db: Db, k: TradeNo, user: UserId, quota: int): Db {
    if user in db.quota
    then db.(quota := db.quota[user := db.quota[user] + quota], credits := db.credits + [Entry(k, user, quota)])
    else db.(stranded := db.stranded + {k})
  }

  function AddQuota(db: Db, k: TradeNo, o: Order, outcome: Outcome): Db {
    if QuotaOf(db, o) < 0 || outcome == Refused then db.(stranded := db.stranded + {k})
    else Grant(db, k, o.user, QuotaOf(db, o))
  }

  function ManualComplete(db: Db, k: TradeNo, commits: bool): Db {
    if !commits || k !in db.orders then db
    else
      var o := db.orders[k];
      if o.status != Pending || OfflineGateway(o.provider) || QuotaOf(db, o) <= 0 then db
      else Grant(db.(orders := db.orders[k := o.(status := Success)]), k, o.user, QuotaOf(db, o))
  }

  function Deduct(db: Db, k: TradeNo, user: UserId, quota: int): Db
    requires user in db.quota
  {
    db.(quota := db.quota[user := db.quota[user] - quota], clawbacks := db.clawbacks + [Entry(k, user, quota)])
  }

  function AdminRefund(db: Db, k: TradeNo, commits: bool): Db {
    if !commits || k !in db.orders || k in db.mirrors then db
    else
      var o := db.orders[k];
      if OfflineGateway(o.provider) || o.status != Success then db
      else
        var refunded := db.(orders := db.orders[k := o.(status := Refunded)]);
        var granted := QuotaOf(db, o);
        if granted <= 0 then refunded
        else if o.user !in db.quota then db
        else
          var deduct := if granted > db.quota[o.user] then db.quota[o.user] else granted;
          if deduct <= 0 then refunded
          else Deduct(refunded, k, o.user, deduct)
  }

  /** An administrator can complete a pending order that no offline gateway handles, if there is
      something to grant; then it is paid, and its user has that much more. */
  lemma CompletionIs(db: Db, k: TradeNo, commits: bool)
    ensures var next := ManualComplete(db, k, commits);
      && next.mirrors == db.mirrors && next.quotaPerUnit == db.quotaPerUnit && next.clawbacks == db.clawbacks
      && if k !in db.orders then next == db
         else
           var o := db.orders[k];
           var granted := o.amount * db.quotaPerUnit;
           if commits && o.status == Pending && granted > 0
              && o.provider !in {"stripe", "creem", "waffo", "waffo_pancake"}
           then
             && next.orders == db.orders[k := Order(Success, o.provider, o.payMethod, o.user, o.amount)]
             && next.quota == if o.user in db.quota then db.quota[o.user := db.quota[o.user] + granted] else db.quota
           else next == db
  {
  }

  /** An administrator can refund a paid wallet order of no offline gateway, if its user is known; then
      what was granted is taken from the balance, but no more than there is. */
  lemma RefundIs(db: Db, k: TradeNo, commits: bool)
    ensures var next := AdminRefund(db, k, commits);
      && next.mirrors == db.mirrors && next.quotaPerUnit == db.quotaPerUnit && next.credits == db.credits
      && if k !in db.orders then next == db
         else
           var o := db.orders[k];
           var granted := o.amount * db.quotaPerUnit;
           if commits && o.status == Success && k !in db.mirrors && (granted <= 0 || o.user in db.quota)
              && o.provider !in {"stripe", "creem", "waffo", "waffo_pancake"}
           then
             && next.orders == db.orders[k := Order(Refunded, o.provider, o.payMethod, o.user, o.amount)]
             && if granted > 0 && db.quota[o.user] > 0
                then
                  var left := if db.quota[o.user] > granted then db.quota[o.user] - granted else 0;
                  next.quota == db.quota[o.user := left]
                else next.quota == db.quota
           else next == db
  {
  }

  // ---------- the system: threads, their locks and the database ----------

  /** How far a thread's job has come. `Loaded` and `Saved` carry the row read at the start. */
  datatype Progress =
    | Free
    | Asked(job: Job)
    | Loaded(job: Job, order: Order)
    | Saved(job: Job, order: Order)
    | Finished(job: Job)

  datatype System = System(lock: L.State, work: seq<Progress>, db: Db)

  /** One database call of thread `t`; `readOk` and `outcome` are what the database does. */
  function Body(s: System, t: nat, readOk: bool, outcome: Outcome): System
    requires t < |s.work|
  {
    match s.work[t]
    case Asked(Notify(k, p)) =>
      s.(work := s.work[t := if readOk
        && Payable(s.db, k) then Loaded(s.work[t].job, s.db.orders[k]) else Finished(s.work[t].job)])
    case Asked(Complete(k)) =>
      s.(work := s.work[t := Finished(s.work[t].job)], db := ManualComplete(s.db, k, outcome != Refused))
    case Asked(Refund(k)) =>
      s.(work := s.work[t := Finished(s.work[t].job)], db := AdminRefund(s.db, k, outcome != Refused))
    case Loaded(Notify(k, p), o) =>
      s.(work := s.work[t := if outcome == Fine then Saved(s.work[t].job, o) else Finished(s.work[t].job)],
         db := SaveOrder(s.db, k, Settled(o, p), outcome))
    case Saved(Notify(k, _), o) =>
      s.(work := s.work[t := Finished(s.work[t].job)], db := AddQuota(s.db, k, o, outcome))
    case _ => s
  }

  ghost predicate Begins(s: System, s': System, t: nat, job: Job)
    requires t < |s.work| == |s.lock.pcs|
  {
    s.lock.pcs[t] == L.Outside
    && s' == s.(lock := L.Call(s.lock, t, job.k), work := s.work[t := Asked(job)])
  }

  ghost predicate Locks(s: System, s': System, t: nat)
    requires t < |s.work| == |s.lock.pcs| && L.Wf(s.lock)
  {
    && L.Enabled(s.lock, t)
    && (s.lock.pcs[t].Inside? ==> s.work[t].Finished?)
    && var lock' := L.Step(s.lock, t);
       s' == s.(lock := lock', work := if lock'.pcs[t] == L.Outside then s.work[t := Free] else s.work)
  }

  ghost predicate Works(s: System, s': System, t: nat, readOk: bool, outcome: Outcome)
    requires t < |s.work| == |s.lock.pcs|
  {
    s.lock.pcs[t].Inside? && s' == Body(s, t, readOk, outcome)
  }

  ghost predicate Orders(s: System, s': System, k: TradeNo, o: Order) {
    k !in s.db.orders && o.status == Pending && s' == s.(db := s.db.(orders := s.db.orders[k := o]))
  }

  ghost predicate Next(s: System, s': System) {
    && |s.work| == |s.lock.pcs| && L.Wf(s.lock)
    && (|| (exists t: nat, job :: t < |s.work| && Begins(s, s', t, job))
        || (exists t: nat :: t < |s.work| && Locks(s, s', t))
        || (exists t: nat, readOk, outcome :: t < |s.work| && Works(s, s', t, readOk, outcome))
        || (exists k, o :: Orders(s, s', k, o)))
  }

  ghost predicate Init(s: System) {
    && L.Init(s.lock)
    && |s.work| == |s.lock.pcs|
    && (forall t | 0 <= t < |s.work| :: s.work[t] == Free)
    && s.db.credits == [] && s.db.clawbacks == [] && s.db.stranded == {}
    && s.db.legacy == set k | k in s.db.orders && s.db.orders[k].status != Pending
  }

  // ---------- the ledger ----------

  function SumFor(log: seq<Entry>, user: UserId): int {
    if log == [] then 0
    else SumFor(log[..|log| - 1], user) + if log[|log| - 1].user == user then log[|log| - 1].quota else 0
  }

  ghost predicate Logged(log: seq<Entry>, k: TradeNo) {
    exists i :: 0 <= i < |log| && log[i].k == k
  }

  ghost predicate OncePerOrder(log: seq<Entry>) {
    forall i, j | 0 <= i < j < |log| :: log[i].k != log[j].k
  }

  ghost predicate CreditsOk(db: Db) {
    && OncePerOrder(db.credits)
    && forall i | 0 <= i < |db.credits| :: var e := db.credits[i];
        && e.k in db.orders
        && (db.orders[e.k].status == Success || db.orders[e.k].status == Refunded)
        && e.k !in db.stranded && e.k !in db.legacy
        && e.user == db.orders[e.k].user && e.quota == QuotaOf(db, db.orders[e.k])
  }

  ghost predicate ClawbacksOk(db: Db) {
    && OncePerOrder(db.clawbacks)
    && forall i | 0 <= i < |db.clawbacks| :: var e := db.clawbacks[i];
        && e.k in db.orders && db.orders[e.k].status == Refunded
        && e.user == db.orders[e.k].user && 0 < e.quota <= QuotaOf(db, db.orders[e.k])
  }

  /** Every quota is its start value plus the credits minus the clawbacks of that user. */
  ghost predicate BalanceOk(db: Db, start: map<UserId, int>) {
    && db.quota.Keys == start.Keys
    && forall u | u in start :: db.quota[u] == start[u] + SumFor(db.credits, u) - SumFor(db.clawbacks, u)
  }

  ghost predicate PendingClean(db: Db) {
    forall k | k in db.orders && db.orders[k].status == Pending :: k !in db.stranded && k !in db.legacy
  }

  ghost predicate DbInv(db: Db, start: map<UserId, int>) {
    && CreditsOk(db) && ClawbacksOk(db) && BalanceOk(db, start) && PendingClean(db)
    && db.stranded <= db.orders.Keys && db.legacy <= db.orders.Keys
  }

  lemma SumAppend(log: seq<Entry>, e: Entry, user: UserId)
    ensures SumFor(log + [e], user) == SumFor(log, user) + if e.user == user then e.quota else 0
  {
    assert (log + [e])[..|log|] == log;
  }

  /** Is `k` marked paid, not yet credited, and not given up on? */
  ghost predicate Owed(db: Db, k: TradeNo) {
    && k in db.orders && db.orders[k].status == Success
    && !Logged(db.credits, k) && k !in db.stranded && k !in db.legacy
  }

  lemma SaveKeepsDb(db: Db, k: TradeNo, payType: string, outcome: Outcome, start: map<UserId, int>)
    requires DbInv(db, start) && Payable(db, k)
    ensures DbInv(SaveOrder(db, k, Settled(db.orders[k], payType), outcome), start)
    ensures outcome == Fine ==> Owed(SaveOrder(db, k, Settled(db.orders[k], payType), outcome), k)
  {
  }

  lemma GrantKeepsDb(db: Db, k: TradeNo, start: map<UserId, int>)
    requires DbInv(db, start) && Owed(db, k)
    ensures DbInv(Grant(db, k, db.orders[k].user, QuotaOf(db, db.orders[k])), start)
  {
    var o := db.orders[k];
    var e := Entry(k, o.user, QuotaOf(db, o));
    forall u ensures SumFor(db.credits + [e], u) == SumFor(db.credits, u) + if e.user == u then e.quota else 0 {
      SumAppend(db.credits, e, u);
    }
  }

  lemma AddQuotaKeepsDb(db: Db, k: TradeNo, o: Order, outcome: Outcome, start: map<UserId, int>)
    requires DbInv(db, start) && Owed(db, k) && o.user == db.orders[k].user && o.amount == db.orders[k].amount
    ensures DbInv(AddQuota(db, k, o, outcome), start)
  {
    GrantKeepsDb(db, k, start);
  }

  lemma CompleteKeepsDb(db: Db, k: TradeNo, commits: bool, start: map<UserId, int>)
    requires DbInv(db, start)
    ensures DbInv(ManualComplete(db, k, commits), start)
  {
    if commits && k in db.orders && db.orders[k].status == Pending {
      var marked := db.(orders := db.orders[k := db.orders[k].(status := Success)]);
      assert DbInv(marked, start) && Owed(marked, k);
      GrantKeepsDb(marked, k, start);
    }
  }

  lemma DeductKeepsDb(db: Db, k: TradeNo, quota: int, start: map<UserId, int>)
    requires DbInv(db, start) && k in db.orders && db.orders[k].status == Refunded && !Logged(db.clawbacks, k)
    requires db.orders[k].user in db.quota && 0 < quota <= QuotaOf(db, db.orders[k])
    ensures DbInv(Deduct(db, k, db.orders[k].user, quota), start)
  {
    var e := Entry(k, db.orders[k].user, quota);
    var next := Deduct(db, k, e.user, quota);
    forall u ensures SumFor(next.clawbacks, u) == SumFor(db.clawbacks, u) + if e.user == u then quota else 0 {
      SumAppend(db.clawbacks, e, u);
    }
    assert BalanceOk(next, start);
    forall i, j | 0 <= i < j < |next.clawbacks| ensures next.clawbacks[i].k != next.clawbacks[j].k {
      assert i < |db.clawbacks| && db.clawbacks[i].k != k;
    }
    assert ClawbacksOk(next);
  }

  lemma RefundKeepsDb(db: Db, k: TradeNo, commits: bool, start: map<UserId, int>)
    requires DbInv(db, start)
    ensures DbInv(AdminRefund(db, k, commits), start)
  {
    if k in db.orders && db.orders[k].status == Success {
      var o := db.orders[k];
      var refunded := db.(orders := db.orders[k := o.(status := Refunded)]);
      assert DbInv(refunded, start) && !Logged(refunded.clawbacks, k);
      if o.user in db.quota && QuotaOf(db, o) > 0 && db.quota[o.user] > 0 {
        var deduct := if QuotaOf(db, o) > db.quota[o.user] then db.quota[o.user] else QuotaOf(db, o);
        DeductKeepsDb(refunded, k, deduct, start);
      }
    }
  }

  // ---------- the system invariant ----------

  /** What thread `t` may rely on while it works on its order. */
  ghost predicate WorkOk(s: System, t: nat)
    requires t < |s.work| == |s.lock.pcs|
  {
    var pc := s.lock.pcs[t];
    match s.work[t]
    case Free => pc == L.Outside
    case Asked(job) => L.KeyOf(pc) == Some(job.k)
    case Finished(job) => L.KeyOf(pc) == Some(job.k)
    case Loaded(job, o) =>
      job.Notify? && pc.Inside? && pc.k == job.k && Payable(s.db, job.k) && s.db.orders[job.k] == o
    case Saved(job, o) =>
      job.Notify? && pc.Inside? && pc.k == job.k && Owed(s.db, job.k)
      && o.user == s.db.orders[job.k].user && o.amount == s.db.orders[job.k].amount
  }

  ghost predicate Inv(s: System, start: map<UserId, int>) {
    && |s.work| == |s.lock.pcs|
    && L.Inv(s.lock)
    && DbInv(s.db, start)
    && forall t | 0 <= t < |s.work| :: WorkOk(s, t)
  }

  /** What a thread relies on survives any change of other orders. */
  ghost predicate OnlyOrder(db: Db, db': Db, k: TradeNo) {
    && db'.quotaPerUnit == db.quotaPerUnit && db'.legacy == db.legacy
    && db.orders.Keys <= db'.orders.Keys
    && (forall j | j in db.orders && j != k :: db'.orders[j] == db.orders[j])
    && (forall j | j != k ::
        (j in db'.stranded <==> j in db.stranded) && (Logged(db'.credits, j) <==> Logged(db.credits, j)))
  }

  lemma GrantOnly(db: Db, k: TradeNo, user: UserId, quota: int)
    ensures OnlyOrder(db, Grant(db, k, user, quota), k)
  {
    var db' := Grant(db, k, user, quota);
    if user in db.quota {
      forall j | j != k ensures Logged(db'.credits, j) <==> Logged(db.credits, j) {
        if i :| 0 <= i < |db.credits| && db.credits[i].k == j { assert db'.credits[i].k == j; }
      }
    }
  }

  lemma BodyOnly(s: System, t: nat, readOk: bool, outcome: Outcome)
    requires t < |s.work| && !s.work[t].Free?
    ensures OnlyOrder(s.db, Body(s, t, readOk, outcome).db, s.work[t].job.k)
  {
    match s.work[t]
    case Asked(Complete(k)) =>
      if k in s.db.orders {
        var o := s.db.orders[k];
        GrantOnly(s.db.(orders := s.db.orders[k := o.(status := Success)]), k, o.user, QuotaOf(s.db, o));
      }
    case Saved(Notify(k, _), o) => GrantOnly(s.db, k, o.user, QuotaOf(s.db, o));
    case _ =>
  }

  lemma BodyKeepsDb(s: System, t: nat, readOk: bool, outcome: Outcome, start: map<UserId, int>)
    requires Inv(s, start) && t < |s.work|
    ensures DbInv(Body(s, t, readOk, outcome).db, start)
  {
    assert WorkOk(s, t);
    match s.work[t]
    case Asked(Complete(k)) => CompleteKeepsDb(s.db, k, outcome != Refused, start);
    case Asked(Refund(k)) => RefundKeepsDb(s.db, k, outcome != Refused, start);
    case Loaded(Notify(k, p), o) => SaveKeepsDb(s.db, k, p, outcome, start);
    case Saved(Notify(k, _), o) => AddQuotaKeepsDb(s.db, k, o, outcome, start);
    case _ =>
  }

  lemma BodyKeepsWork(s: System, t: nat, readOk: bool, outcome: Outcome, start: map<UserId, int>)
    requires Inv(s, start) && t < |s.work| && s.lock.pcs[t].Inside?
    ensures WorkOk(Body(s, t, readOk, outcome), t)
  {
    assert WorkOk(s, t);
    if s.work[t].Loaded? { SaveKeepsDb(s.db, s.work[t].job.k, s.work[t].job.payType, outcome, start); }
  }

  /** The lock keeps two threads from working on the same order at once. */
  lemma BodyInv(s: System, t: nat, readOk: bool, outcome: Outcome, start: map<UserId, int>)
    requires Inv(s, start) && t < |s.work| && s.lock.pcs[t].Inside?
    ensures Inv(Body(s, t, readOk, outcome), start)
  {
    var s' := Body(s, t, readOk, outcome);
    assert WorkOk(s, t);
    BodyKeepsDb(s, t, readOk, outcome, start);
    BodyOnly(s, t, readOk, outcome);
    forall u | 0 <= u < |s'.work| ensures WorkOk(s', u) {
      assert WorkOk(s, u);
      if u == t {
        BodyKeepsWork(s, t, readOk, outcome, start);
      } else if s.work[u].Loaded? || s.work[u].Saved? {
        if s.work[u].job.k == s.work[t].job.k {
          L.SectionExclusive(s.lock, t, u, s.work[t].job.k);
        }
      }
    }
  }

  lemma LocksInv(s: System, s': System, t: nat, start: map<UserId, int>)
    requires Inv(s, start) && t < |s.work| && Locks(s, s', t)
    ensures Inv(s', start)
  {
    L.StepInv(s.lock, t);
    L.StepShape(s.lock, t);
    assert L.LocalOk(s'.lock, s'.lock.pcs[t]);
    assert WorkOk(s, t);
    forall u | 0 <= u < |s'.work| ensures WorkOk(s', u) { assert WorkOk(s, u); }
  }

  lemma BeginsInv(s: System, s': System, t: nat, job: Job, start: map<UserId, int>)
    requires Inv(s, start) && t < |s.work| && Begins(s, s', t, job)
    ensures Inv(s', start)
  {
    L.CallInv(s.lock, t, job.k);
    forall u | 0 <= u < |s'.work| ensures WorkOk(s', u) { assert WorkOk(s, u); }
  }

  lemma OrdersInv(s: System, s': System, k: TradeNo, o: Order, start: map<UserId, int>)
    requires Inv(s, start) && Orders(s, s', k, o)
    ensures Inv(s', start)
  {
    forall u | 0 <= u < |s'.work| ensures WorkOk(s', u) { assert WorkOk(s, u); }
  }

  lemma NextInv(s: System, s': System, start: map<UserId, int>)
    requires Inv(s, start) && Next(s, s')
    ensures Inv(s', start)
  {
    if t: nat, job :| t < |s.work| && Begins(s, s', t, job) {
      BeginsInv(s, s', t, job, start);
    } else if t: nat :| t < |s.work| && Locks(s, s', t) {
      LocksInv(s, s', t, start);
    } else if t: nat, readOk, outcome :| t < |s.work| && Works(s, s', t, readOk, outcome) {
      BodyInv(s, t, readOk, outcome, start);
    } else {
      var k, o :| Orders(s, s', k, o);
      OrdersInv(s, s', k, o, start);
    }
  }

  // ---------- what every run guarantees ----------

  ghost predicate IsRun(run: seq<System>) {
    && |run| > 0
    && Init(run[0])
    && forall i | 0 < i < |run| :: Next(run[i - 1], run[i])
  }

  lemma {:induction false} RunInv(run: seq<System>, i: nat)
    requires IsRun(run) && i < |run|
    ensures Inv(run[i], run[0].db.quota)
  {
    if i == 0 {
      L.InitInv(run[0].lock);
    } else {
      RunInv(run, i - 1);
      NextInv(run[i - 1], run[i], run[0].db.quota);
    }
  }

  /** However notifications, completions and refunds interleave, repeat and fail: an order is
      credited at most once and clawed back at most once, and every balance is the start value
      plus `amount * quotaPerUnit` of exactly the credited orders minus what was clawed back. */
  lemma CreditedAtMostOnce(run: seq<System>)
    requires IsRun(run)
    ensures var db := run[|run| - 1].db;
      && OncePerOrder(db.credits) && OncePerOrder(db.clawbacks)
      && (forall i | 0 <= i < |db.credits| ::
            db.credits[i].k in db.orders && db.credits[i].quota == QuotaOf(db, db.orders[db.credits[i].k])
            && db.credits[i].user == db.orders[db.credits[i].k].user)
      && (forall i | 0 <= i < |db.clawbacks| ::
            db.clawbacks[i].k in db.orders && db.clawbacks[i].quota <= QuotaOf(db, db.orders[db.clawbacks[i].k]))
      && (forall u | u in db.quota ::
            u in run[0].db.quota
            && db.quota[u] == run[0].db.quota[u] + SumFor(db.credits, u) - SumFor(db.clawbacks, u))
  {
    RunInv(run, |run| - 1);
  }

  // ---------- no paid order is forgotten ----------

  /** `k` was credited, or its credit failed, or it was already settled at the start, or a thread
      is between marking it paid and granting its quota. */
  ghost predicate Accounted(s: System, k: TradeNo) {
    || Logged(s.db.credits, k) || k in s.db.stranded || k in s.db.legacy
    || exists t :: 0 <= t < |s.work| && s.work[t].Saved? && s.work[t].job.k == k
  }

  ghost predicate AllAccounted(s: System) {
    forall k | k in s.db.orders && (s.db.orders[k].status == Success || s.db.orders[k].status == Refunded) ::
        Accounted(s, k)
  }

  lemma GrantAccounts(db: Db, k: TradeNo, user: UserId, quota: int)
    ensures var db' := Grant(db, k, user, quota); Logged(db'.credits, k) || k in db'.stranded
  {
    var db' := Grant(db, k, user, quota);
    if user in db.quota { assert db'.credits[|db.credits|].k == k; }
  }

  /** The order a thread has just worked on is accounted for. */
  lemma BodyAccounts(s: System, t: nat, readOk: bool, outcome: Outcome, start: map<UserId, int>)
    requires Inv(s, start) && AllAccounted(s) && t < |s.work| && s.lock.pcs[t].Inside?
    requires !s.work[t].Free? && s.work[t].job.k in s.db.orders
    ensures var s' := Body(s, t, readOk, outcome); var k := s.work[t].job.k;
      k in s'.db.orders && (s'.db.orders[k].status == Success || s'.db.orders[k].status == Refunded)
      ==> Accounted(s', k)
  {
    assert WorkOk(s, t);
    var s' := Body(s, t, readOk, outcome);
    var k := s.work[t].job.k;
    var o := s.db.orders[k];
    forall u | 0 <= u < |s.work| && u != t && s.work[u].Saved? && s.work[u].job.k == k ensures false {
      assert WorkOk(s, u);
      L.SectionExclusive(s.lock, t, u, k);
    }
    match s.work[t]
    case Asked(Complete(_)) =>
      GrantAccounts(s.db.(orders := s.db.orders[k := o.(status := Success)]), k, o.user, QuotaOf(s.db, o));
    case Saved(Notify(_, _), p) =>
      GrantAccounts(s.db, k, p.user, QuotaOf(s.db, p));
    case Loaded(Notify(_, _), _) =>
      if outcome == Fine { assert s'.work[t].Saved?; }
    case _ =>
  }

  lemma BodyKeepsAccounts(s: System, t: nat, readOk: bool, outcome: Outcome, start: map<UserId, int>)
    requires Inv(s, start) && AllAccounted(s) && t < |s.work| && s.lock.pcs[t].Inside?
    ensures AllAccounted(Body(s, t, readOk, outcome))
  {
    var s' := Body(s, t, readOk, outcome);
    assert WorkOk(s, t);
    BodyOnly(s, t, readOk, outcome);
    forall j | j in s'.db.orders && (s'.db.orders[j].status == Success || s'.db.orders[j].status == Refunded)
      ensures Accounted(s', j)
    {
      if j == s.work[t].job.k {
        BodyAccounts(s, t, readOk, outcome, start);
      } else {
        assert Accounted(s, j);
        if u :| 0 <= u < |s.work| && s.work[u].Saved? && s.work[u].job.k == j { assert s'.work[u] == s.work[u]; }
      }
    }
  }

  lemma NextKeepsAccounts(s: System, s': System, start: map<UserId, int>)
    requires Inv(s, start) && AllAccounted(s) && Next(s, s')
    ensures AllAccounted(s')
  {
    if t: nat, readOk, outcome :| t < |s.work| && Works(s, s', t, readOk, outcome) {
      BodyKeepsAccounts(s, t, readOk, outcome, start);
    } else {
      forall j | j in s'.db.orders && (s'.db.orders[j].status == Success || s'.db.orders[j].status == Refunded)
        ensures Accounted(s', j)
      {
        assert Accounted(s, j);
        if u :| 0 <= u < |s.work| && s.work[u].Saved? && s.work[u].job.k == j {
          assert WorkOk(s, u);
          assert s'.work[u] == s.work[u];
        }
      }
    }
  }

  lemma InitAccounts(s: System)
    requires Init(s)
    ensures AllAccounted(s)
  {
  }

  lemma {:induction false} RunAccounts(run: seq<System>, i: nat)
    requires IsRun(run) && i < |run|
    ensures AllAccounted(run[i])
  {
    if i == 0 {
      InitAccounts(run[0]);
    } else {
      RunAccounts(run, i - 1);
      RunInv(run, i - 1);
      NextKeepsAccounts(run[i - 1], run[i], run[0].db.quota);
    }
  }

  /** When all jobs are done, every paid or refunded order was either credited, or a database call
      failed after it was marked paid, or it had been settled before the run; and it is only ever
      one of the first two. */
  lemma EveryPaidOrderIsSettled(run: seq<System>, last: System, k: TradeNo)
    requires IsRun(run) && last == run[|run| - 1]
    requires forall t | 0 <= t < |last.work| :: last.work[t] == Free
    requires k in last.db.orders && (last.db.orders[k].status == Success || last.db.orders[k].status == Refunded)
    ensures var db := last.db;
      && (Logged(db.credits, k) || k in db.stranded || k in db.legacy)
      && (Logged(db.credits, k) ==> k !in db.stranded && k !in db.legacy)
  {
    RunInv(run, |run| - 1);
    RunAccounts(run, |run| - 1);
    assert Accounted(last, k);
  }

  /** A refund takes back quota that was never granted exactly when the order's credit had failed
      or the order predates the run. */
  lemma ClawbackOfUngranted(run: seq<System>, i: nat)
    requires IsRun(run) && i < |run[|run| - 1].db.clawbacks|
    ensures var db := run[|run| - 1].db; var k := db.clawbacks[i].k;
      Logged(db.credits, k) <==> k !in db.stranded && k !in db.legacy
  {
    var last := run[|run| - 1];
    var k := last.db.clawbacks[i].k;
    RunInv(run, |run| - 1);
    RunAccounts(run, |run| - 1);
    forall t | 0 <= t < |last.work| && last.work[t].Saved? ensures last.work[t].job.k != k {
      assert WorkOk(last, t);
    }
    assert Accounted(last, k);
  }

  /** It does happen: the order is marked paid, granting its quota fails, and the later refund
      takes the amount from what the user had before. */
  lemma RefundTakesUngranted()
    ensures var o := Order(Pending, "epay", "alipay", 7, 2);
      var db0 := Db(map["T1" := o], map[7 := 5], {}, 1, [], [], {}, {});
      var db1 := SaveOrder(db0, "T1", Settled(o, "alipay"), Fine);
      var db2 := AddQuota(db1, "T1", o, Refused);
      var db3 := AdminRefund(db2, "T1", true);
      Payable(db0, "T1") && db3.credits == [] && db3.quota == map[7 := 3]
  {
  }

  // ---------- the callback as it is written ----------

  /** The three database steps of a notification, run back to back. */
  function NotifyAll(db: Db, k: TradeNo, payType: string, readOk: bool, save: Outcome, grant: Outcome): Db {
    if !readOk || !Payable(db, k) then db
    else
      var o := db.orders[k];
      var saved := SaveOrder(db, k, Settled(o, payType), save);
      if save == Fine then AddQuota(saved, k, o, grant) else saved
  }

  /** The steps the threads of the system take are the steps of `NotifyAll`. */
  lemma NotifyInSteps(s: System, t: nat, readOk: bool, save: Outcome, grant: Outcome)
    requires t < |s.work| && s.work[t].Asked? && s.work[t].job.Notify?
    ensures var s1 := Body(s, t, readOk, Fine); var s2 := Body(s1, t, true, save); var s3 := Body(s2, t, true, grant);
      && s3.work[t] == Finished(s.work[t].job)
      && s3.db == NotifyAll(s.db, s.work[t].job.k, s.work[t].job.payType, readOk, save, grant)
  {
  }

  /** Completion and refund are one transaction each, which may fail. */
  lemma AdminInSteps(s: System, t: nat, readOk: bool, outcome: Outcome)
    requires t < |s.work| && s.work[t].Asked? && !s.work[t].job.Notify?
    ensures var s' := Body(s, t, readOk, outcome); var k := s.work[t].job.k;
      && s'.work[t] == Finished(s.work[t].job)
      && s'.db == if s.work[t].job.Complete? then ManualComplete(s.db, k, outcome != Refused)
                  else AdminRefund(s.db, k, outcome != Refused)
  {
  }

  /** An order is marked as not granted only when an update was reported as failed, or its user is
      unknown, or there is less than nothing to grant. */
  lemma StrandsOnlyOnFailure(s: System, t: nat, readOk: bool, outcome: Outcome, start: map<UserId, int>)
    requires Inv(s, start) && t < |s.work| && s.lock.pcs[t].Inside?
    ensures var s' := Body(s, t, readOk, outcome);
      s'.db.stranded == s.db.stranded
      || (&& !s.work[t].Free? && s.work[t].job.k in s.db.orders
          && s'.db.stranded == s.db.stranded + {s.work[t].job.k}
          && var o := s.db.orders[s.work[t].job.k];
             outcome != Fine || o.user !in s.db.quota || o.amount * s.db.quotaPerUnit < 0)
  {
    assert WorkOk(s, t);
  }

  /** What the tables hold, without the history. */
  ghost predicate SameTables(a: Db, b: Db) {
    a.orders == b.orders && a.quota == b.quota && a.mirrors == b.mirrors && a.quotaPerUnit == b.quotaPerUnit
  }

  /** The tables do not tell whether an order was credited: the same two notifications, of which one
      fails to grant its quota, leave the same tables, and a refund does the same to them. */
  lemma CreditNotInTables()
    ensures var o := Order(Pending, "epay", "alipay", 7, 2);
      var db := Db(map["T1" := o, "T2" := o], map[7 := 5], {}, 1, [], [], {}, {});
      var a := NotifyAll(NotifyAll(db, "T1", "alipay", true, Fine, Fine), "T2", "alipay", true, Fine, Refused);
      var b := NotifyAll(NotifyAll(db, "T2", "alipay", true, Fine, Fine), "T1", "alipay", true, Fine, Refused);
      && SameTables(a, b) && SameTables(AdminRefund(a, "T1", true), AdminRefund(b, "T1", true))
      && Logged(a.credits, "T1") && !Logged(b.credits, "T1")
  {
    var o := Order(Pending, "epay", "alipay", 7, 2);
    var db := Db(map["T1" := o, "T2" := o], map[7 := 5], {}, 1, [], [], {}, {});
    var a1 := NotifyAll(db, "T1", "alipay", true, Fine, Fine);
    var b1 := NotifyAll(db, "T2", "alipay", true, Fine, Fine);
    var a := NotifyAll(a1, "T2", "alipay", true, Fine, Refused);
    var b := NotifyAll(b1, "T1", "alipay", true, Fine, Refused);
    assert a1.credits == [Entry("T1", 7, 2)] && b1.credits == [Entry("T2", 7, 2)];
    assert a.credits == a1.credits && b.credits == b1.credits;
    assert a.credits[0].k == "T1";
    assert a.orders == b.orders && a.quota == map[7 := 7] == b.quota;
  }

  /** The tables as they are updated in place. */
  class Store {
    var orders: map<TradeNo, Order>
    var quota: map<UserId, int>
    const quotaPerUnit: int
    ghost var credits: seq<Entry>
    ghost var clawbacks: seq<Entry>
    ghost var stranded: set<TradeNo>
    ghost const mirrors: set<TradeNo>
    ghost const legacy: set<TradeNo>

    constructor (orders: map<TradeNo, Order>, quota: map<UserId, int>, quotaPerUnit: int, ghost mirrors: set<TradeNo>)
      ensures Tables().orders == orders && Tables().quota == quota && Tables().quotaPerUnit == quotaPerUnit
      ensures credits == [] && clawbacks == [] && stranded == {}
      ensures legacy == set k | k in orders && orders[k].status != Pending
    {
      this.orders, this.quota, this.quotaPerUnit, this.mirrors := orders, quota, quotaPerUnit, mirrors;
      credits, clawbacks, stranded := [], [], {};
      legacy := set k | k in orders && orders[k].status != Pending;
    }

    ghost function Tables(): Db
      reads this
    {
      Db(orders, quota, mirrors, quotaPerUnit, credits, clawbacks, stranded, legacy)
    }

    /** The part of `EpayNotify` under the order's lock. A payable order is settled with the payment
        type that was reported; its quota is granted exactly when both updates went through. */
    method EpayNotify(tradeNo: TradeNo, payType: string, readOk: bool, save: Outcome, grant: Outcome)
      modifies this
      ensures Tables() == NotifyAll(old(Tables()), tradeNo, payType, readOk, save, grant)
      ensures tradeNo !in old(orders) ==> Tables() == old(Tables())
      ensures tradeNo in old(orders) ==>
        var o := old(orders)[tradeNo];
        var settled := Order(Success, o.provider, payType, o.user, o.amount);
        var granted := save == Fine && grant != Refused && o.amount * quotaPerUnit >= 0 && o.user in old(quota);
        if readOk && o.provider == "epay" && o.status == Pending then
          && quota == (if granted then old(quota)[o.user := old(quota)[o.user] + o.amount * quotaPerUnit]
                       else old(quota))
          && orders == (if save != Refused then old(orders)[tradeNo := settled] else old(orders))
        else Tables() == old(Tables())
    {
      if !readOk || tradeNo !in orders {
        return;
      }
      var topUp := orders[tradeNo];
      if topUp.provider != "epay" {
        return;
      }
      if topUp.status == Pending {
        if topUp.payMethod != payType {
          topUp := topUp.(payMethod := payType);
        }
        topUp := topUp.(status := Success);
        if save != Refused {
          orders := orders[tradeNo := topUp];
        }
        if save != Fine {
          if save == Lost { stranded := stranded + {tradeNo}; }
          return;
        }
        var quotaToAdd := topUp.amount * quotaPerUnit;
        if quotaToAdd < 0 || grant == Refused || topUp.user !in quota {
          stranded := stranded + {tradeNo};
          return;
        }
        quota := quota[topUp.user := quota[topUp.user] + quotaToAdd];
        credits := credits + [Entry(tradeNo, topUp.user, quotaToAdd)];
      }
    }
  }
}
