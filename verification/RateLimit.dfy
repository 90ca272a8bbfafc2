/**
The in-memory sliding-window rate limiter: a bounded queue per key, and a background sweep that
forgets idle keys. It is compared with a limiter that keeps every accepted timestamp.

Times are whole seconds of a clock that does not go back. A key is always asked with the same
limit and window. A limit of 0 behaves like a limit of 1.
*/
module RateLimit {

  // ---------- the reference limiter ----------

  /** How many logged acceptances are less than `duration` old. */
  function Recent(log: seq<int>, now: int, duration: int): nat {
    if log == [] then 0
    else Recent(log[..|log| - 1], now, duration) + if now - log[|log| - 1] < duration then 1 else 0
  }

  /** The positions of these acceptances. */
  function YoungerThan(log: seq<int>, now: int, duration: int): set<nat> {
    set i: nat | i < |log| && now - log[i] < duration
  }

  lemma OneMoreYounger(log: seq<int>, last: int, now: int, duration: int)
    ensures YoungerThan(log + [last], now, duration)
         == YoungerThan(log, now, duration) + if now - last < duration then {|log|} else {}
  {
  }

  lemma {:induction false} RecentIsCount(log: seq<int>, now: int, duration: int)
    ensures Recent(log, now, duration) == |YoungerThan(log, now, duration)|
  {
    if log != [] {
      var init, last := log[..|log| - 1], log[|log| - 1];
      RecentIsCount(init, now, duration);
      OneMoreYounger(init, last, now, duration);
      assert log == init + [last];
    }
  }

  function Limit(maxRequestNum: nat): nat {
    if maxRequestNum == 0 then 1 else maxRequestNum
  }

  predicate FullAllows(log: seq<int>, max: nat, duration: int, now: int) {
    Recent(log, now, duration) < Limit(max)
  }

  ghost predicate Sorted(log: seq<int>) {
    forall i, j | 0 <= i < j < |log| :: log[i] <= log[j]
  }

  ghost predicate NotAfter(log: seq<int>, now: int) {
    forall i | 0 <= i < |log| :: log[i] <= now
  }

  lemma {:induction false} RecentAll(log: seq<int>, now: int, duration: int)
    requires forall i | 0 <= i < |log| :: now - log[i] < duration
    ensures Recent(log, now, duration) == |log|
  {
    if log != [] { RecentAll(log[..|log| - 1], now, duration); }
  }

  /** Entries that are too old do not count. */
  lemma {:induction false} RecentAtMost(log: seq<int>, n: nat, now: int, duration: int)
    requires n <= |log| && forall i | 0 <= i < n :: now - log[i] >= duration
    ensures Recent(log, now, duration) <= |log| - n
  {
    if log != [] { RecentAtMost(log[..|log| - 1], if n == |log| then n - 1 else n, now, duration); }
  }

  lemma {:induction false} RecentAtLeast(log: seq<int>, n: nat, now: int, duration: int)
    requires n <= |log| && forall i | n <= i < |log| :: now - log[i] < duration
    ensures Recent(log, now, duration) >= |log| - n
  {
    if n < |log| { RecentAtLeast(log[..|log| - 1], n, now, duration); }
  }

  // ---------- what the bounded queue keeps of the log ----------

  /** The queue is the tail of the log: everything dropped is too old to matter, or the queue is
      full and what was dropped is older still. */
  ghost predicate Represents(queue: seq<int>, log: seq<int>, max: nat, duration: int, now: int) {
    && |queue| <= Limit(max) && |queue| <= |log|
    && (forall i | 0 <= i < |queue| :: queue[i] == log[|log| - |queue| + i])
    && (|queue| < Limit(max) ==> forall i | 0 <= i < |log| - |queue| :: now - log[i] >= duration)
    && Sorted(log) && NotAfter(log, now)
  }

  /** The queue alone decides like the full log. */
  lemma QueueDecides(queue: seq<int>, log: seq<int>, max: nat, duration: int, now: int)
    requires Represents(queue, log, max, duration, now)
    ensures FullAllows(log, max, duration, now) <==> |queue| < Limit(max) || now - queue[0] >= duration
  {
    var n := |log| - |queue|;
    if |queue| < Limit(max) {
      RecentAtMost(log, n, now, duration);
    } else {
      assert queue[0] == log[n];
      if now - log[n] >= duration {
        RecentAtMost(log, n + 1, now, duration);
      } else {
        RecentAtLeast(log, n, now, duration);
      }
    }
  }

  /** The queue after an accepted request. */
  function Pushed(queue: seq<int>, max: nat, now: int): seq<int> {
    if |queue| < Limit(max) then queue + [now] else queue[1..] + [now]
  }

  lemma PushRepresents(queue: seq<int>, log: seq<int>, max: nat, duration: int, now: int)
    requires Represents(queue, log, max, duration, now)
    ensures Represents(Pushed(queue, max, now), log + [now], max, duration, now)
  {
    var pushed, longer := Pushed(queue, max, now), log + [now];
    var dropped := if |queue| < Limit(max) then 0 else 1;
    assert |pushed| == |queue| - dropped + 1 && |longer| - |pushed| == |log| - |queue| + dropped;
    forall i | 0 <= i < |pushed| ensures pushed[i] == longer[|longer| - |pushed| + i] {
      if i < |pushed| - 1 {
        assert pushed[i] == queue[i + dropped] == log[|log| - |queue| + i + dropped];
      }
    }
    forall i, j | 0 <= i < j < |longer| ensures longer[i] <= longer[j] {
      assert j < |log| ==> log[i] <= log[j];
    }
  }

  lemma LaterRepresents(queue: seq<int>, log: seq<int>, max: nat, duration: int, now: int, later: int)
    requires Represents(queue, log, max, duration, now) && now <= later
    ensures Represents(queue, log, max, duration, later)
  {
  }

  /** Forgetting a queue is harmless if its newest entry is too old already. */
  lemma ForgetRepresents(queue: seq<int>, log: seq<int>, max: nat, duration: int, now: int)
    requires Represents(queue, log, max, duration, now)
    requires queue != [] ==> now - queue[|queue| - 1] >= duration
    ensures Represents([], log, max, duration, now)
  {
    if queue != [] { assert queue[|queue| - 1] == log[|log| - 1]; }
  }

  // ---------- windows ----------

  /** A log that the reference limiter could have written. */
  ghost predicate Written(log: seq<int>, max: nat, duration: int) {
    log != [] ==>
      var init, last := log[..|log| - 1], log[|log| - 1];
      Written(init, max, duration) && FullAllows(init, max, duration, last)
  }

  /** How many acceptances fall into the window of length `duration` that starts at `from`. */
  function InWindow(log: seq<int>, from: int, duration: int): nat {
    if log == [] then 0
    else InWindow(log[..|log| - 1], from, duration) + if from <= log[|log| - 1] < from + duration then 1 else 0
  }

  function Inside(log: seq<int>, from: int, duration: int): set<nat> {
    set i: nat | i < |log| && from <= log[i] < from + duration
  }

  lemma OneMoreInside(log: seq<int>, last: int, from: int, duration: int)
    ensures Inside(log + [last], from, duration)
         == Inside(log, from, duration) + if from <= last < from + duration then {|log|} else {}
  {
  }

  lemma {:induction false} InWindowIsCount(log: seq<int>, from: int, duration: int)
    ensures InWindow(log, from, duration) == |Inside(log, from, duration)|
  {
    if log != [] {
      var init, last := log[..|log| - 1], log[|log| - 1];
      InWindowIsCount(init, from, duration);
      OneMoreInside(init, last, from, duration);
      assert log == init + [last];
    }
  }

  lemma {:induction false} WindowIsRecent(log: seq<int>, from: int, duration: int, now: int)
    requires NotAfter(log, now) && now < from + duration
    ensures InWindow(log, from, duration) <= Recent(log, now, duration)
  {
    if log != [] { WindowIsRecent(log[..|log| - 1], from, duration, now); }
  }

  /** No window of the given length ever holds more acceptances than the limit. */
  lemma {:induction false} WindowsAreBounded(log: seq<int>, max: nat, duration: int, from: int)
    requires Sorted(log) && Written(log, max, duration)
    ensures InWindow(log, from, duration) <= if max == 0 then 1 else max
  {
    if log != [] {
      var init, last := log[..|log| - 1], log[|log| - 1];
      WindowsAreBounded(init, max, duration, from);
      if from <= last < from + duration {
        WindowIsRecent(init, from, duration, last);
      }
    }
  }

  // ---------- all keys together ----------

  datatype Rule = Rule(max: nat, duration: int)

  function At(m: map<string, seq<int>>, key: string): seq<int> {
    if key in m then m[key] else []
  }

  ghost predicate KeyOk(store: map<string, seq<int>>, log: map<string, seq<int>>, rules: map<string, Rule>,
                        clock: int, k: string)
    requires k in rules
  {
    Good(At(store, k), At(log, k), rules[k], clock)
  }

  ghost predicate Good(queue: seq<int>, log: seq<int>, rule: Rule, clock: int) {
    Represents(queue, log, rule.max, rule.duration, clock) && Written(log, rule.max, rule.duration)
  }

  /** Every key that was ever asked has its queue represent its log. */
  ghost predicate AllOk(store: map<string, seq<int>>, log: map<string, seq<int>>, rules: map<string, Rule>,
                        clock: int)
  {
    && store.Keys <= rules.Keys && log.Keys <= rules.Keys
    && (forall k | k in store :: store[k] != [])
    && forall k {:trigger KeyOk(store, log, rules, clock, k)} | k in rules :: KeyOk(store, log, rules, clock, k)
  }

  lemma ClockAdvances(store: map<string, seq<int>>, log: map<string, seq<int>>, rules: map<string, Rule>, clock: int,
                      now: int)
    requires AllOk(store, log, rules, clock) && clock <= now
    ensures AllOk(store, log, rules, now)
  {
    forall k | k in rules ensures KeyOk(store, log, rules, now, k) {
      assert KeyOk(store, log, rules, clock, k);
    }
  }

  lemma RequestDecides(store: map<string, seq<int>>, log: map<string, seq<int>>, rules: map<string, Rule>, now: int,
                       key: string)
    requires AllOk(store, log, rules, now) && key in rules
    ensures FullAllows(At(log, key), rules[key].max, rules[key].duration, now) <==>
      key !in store || |store[key]| < Limit(rules[key].max) || now - store[key][0] >= rules[key].duration
  {
    assert KeyOk(store, log, rules, now, key);
    QueueDecides(At(store, key), At(log, key), rules[key].max, rules[key].duration, now);
  }

  lemma OtherKeyKept(store: map<string, seq<int>>, log: map<string, seq<int>>, rules: map<string, Rule>, now: int,
                     key: string, queue: seq<int>, entries: seq<int>, k: string)
    requires k in rules && k != key && KeyOk(store, log, rules, now, k)
    ensures KeyOk(store[key := queue], log[key := entries], rules, now, k)
  {
    assert At(store[key := queue], k) == At(store, k) && At(log[key := entries], k) == At(log, k);
  }

  lemma ReplaceKeeps(store: map<string, seq<int>>, log: map<string, seq<int>>, rules: map<string, Rule>, now: int,
                     key: string, queue: seq<int>, entries: seq<int>)
    requires AllOk(store, log, rules, now) && key in rules && queue != [] && Good(queue, entries, rules[key], now)
    ensures AllOk(store[key := queue], log[key := entries], rules, now)
  {
    forall k | k in rules ensures KeyOk(store[key := queue], log[key := entries], rules, now, k) {
      if k != key {
        assert KeyOk(store, log, rules, now, k);
        OtherKeyKept(store, log, rules, now, key, queue, entries, k);
      }
    }
  }

  lemma AcceptKeeps(store: map<string, seq<int>>, log: map<string, seq<int>>, rules: map<string, Rule>, now: int,
                    key: string)
    requires AllOk(store, log, rules, now) && key in rules
    requires FullAllows(At(log, key), rules[key].max, rules[key].duration, now)
    ensures AllOk(store[key := Pushed(At(store, key), rules[key].max, now)], log[key := At(log, key) + [now]],
                  rules, now)
  {
    assert KeyOk(store, log, rules, now, key);
    PushRepresents(At(store, key), At(log, key), rules[key].max, rules[key].duration, now);
    assert (At(log, key) + [now])[..|At(log, key)|] == At(log, key);
    ReplaceKeeps(store, log, rules, now, key, Pushed(At(store, key), rules[key].max, now), At(log, key) + [now]);
  }

  lemma ForgetKeeps(store: map<string, seq<int>>, log: map<string, seq<int>>, rules: map<string, Rule>, now: int,
                    key: string)
    requires AllOk(store, log, rules, now) && key in store
    requires now - store[key][|store[key]| - 1] >= rules[key].duration
    ensures AllOk(store - {key}, log, rules, now)
  {
    forall k | k in rules ensures KeyOk(store - {key}, log, rules, now, k) {
      assert KeyOk(store, log, rules, now, k);
      if k == key { ForgetRepresents(store[k], At(log, k), rules[k].max, rules[k].duration, now); }
    }
  }

  lemma NewKeyOk(store: map<string, seq<int>>, log: map<string, seq<int>>, rules: map<string, Rule>, now: int,
                 key: string, rule: Rule)
    requires AllOk(store, log, rules, now) && (key in rules ==> rules[key] == rule)
    ensures AllOk(store, log, rules[key := rule], now)
  {
    var rules' := rules[key := rule];
    forall k | k in rules' ensures KeyOk(store, log, rules', now, k) {
      if k in rules { assert KeyOk(store, log, rules, now, k); }
    }
  }

  // ---------- the limiter ----------

  class InMemoryRateLimiter {
    var store: map<string, seq<int>>
    const expirationSeconds: int
    ghost var rules: map<string, Rule>    // with which limit and window each key is asked
    ghost var log: map<string, seq<int>>  // every accepted timestamp
    ghost var clock: int

    /** Queues represent the log; entries are not forgotten before their window is over. Without a
        positive expiration nothing is ever forgotten. */
    ghost predicate Valid()
      reads this
    {
      && AllOk(store, log, rules, clock)
      && (expirationSeconds > 0 ==> forall k | k in rules :: rules[k].duration <= expirationSeconds + 1)
    }

    constructor (expirationSeconds: int)
      ensures Valid() && store == map[] && log == map[] && rules == map[]
    {
      this.expirationSeconds := expirationSeconds;
      store, log, rules, clock := map[], map[], map[], 0;
    }

    /** Accepts exactly when the limiter that forgets nothing would: when fewer acceptances than the
        limit are younger than the window. */
    method Request(key: string, maxRequestNum: nat, duration: int, now: int) returns (allowed: bool)
      requires Valid() && clock <= now
      requires key in rules ==> rules[key] == Rule(maxRequestNum, duration)
      requires expirationSeconds > 0 ==> duration <= expirationSeconds + 1
      modifies this
      ensures Valid() && clock == now && rules == old(rules)[key := Rule(maxRequestNum, duration)]
      ensures allowed <==> FullAllows(At(old(log), key), maxRequestNum, duration, now)
      ensures allowed
        <==> |YoungerThan(At(old(log), key), now, duration)| < if maxRequestNum == 0 then 1 else maxRequestNum
      ensures (At(store, key), allowed)
        == Bounded(At(old(store), key), Ask(now), maxRequestNum, duration, expirationSeconds)
      ensures log == if allowed then old(log)[key := At(old(log), key) + [now]] else old(log)
      ensures store == if allowed then old(store)[key := Pushed(At(old(store), key), maxRequestNum, now)]
        else old(store)
    {
      ClockAdvances(store, log, rules, clock, now);
      NewKeyOk(store, log, rules, now, key, Rule(maxRequestNum, duration));
      clock, rules := now, rules[key := Rule(maxRequestNum, duration)];
      RequestDecides(store, log, rules, now, key);
      RecentIsCount(At(log, key), now, duration);
      ghost var before := store;
      if key in store {
        var queue := store[key];
        if |queue| < maxRequestNum {
          store := store[key := queue + [now]];
        } else if now - queue[0] >= duration {
          store := store[key := queue[1..] + [now]];
        } else {
          return false;
        }
      } else {
        assert [] + [now] == [now];
        store := store[key := [now]];
      }
      AcceptKeeps(before, log, rules, now, key);
      log := log[key := At(log, key) + [now]];
      return true;
    }

    /** At all times, every window of a key's length holds at most its limit of acceptances. */
    lemma EveryWindowIsBounded(key: string, from: int)
      requires Valid() && key in rules
      ensures |Inside(At(log, key), from, rules[key].duration)|
        <= if rules[key].max == 0 then 1 else rules[key].max
    {
      assert KeyOk(store, log, rules, clock, key);
      InWindowIsCount(At(log, key), from, rules[key].duration);
      WindowsAreBounded(At(log, key), rules[key].max, rules[key].duration, from);
    }

    /** One round of `clearExpiredItems`: it drops exactly the keys that were idle for longer than
        the expiration, and the decision on no later request changes. */
    method Sweep(now: int)
      requires Valid() && clock <= now && expirationSeconds > 0  // otherwise no sweep is started
      modifies this`store, this`clock
      ensures Valid() && clock == now
      ensures store.Keys <= old(store).Keys && forall k | k in store :: store[k] == old(store)[k]
      ensures forall k | k in old(store) && old(store)[k] != [] ::
        k !in store <==> now - old(store)[k][|old(store)[k]| - 1] > expirationSeconds
      ensures forall k, max, duration ::
        At(store, k) == Bounded(At(old(store), k), Tick(now), max, duration, expirationSeconds).0
    {
      ClockAdvances(store, log, rules, clock, now);
      clock := now;
      var pending := store.Keys;
      while pending != {}
        invariant Valid() && clock == now && pending <= store.Keys <= old(store).Keys
        invariant forall k | k in store :: store[k] == old(store)[k]
        invariant forall k | k in old(store).Keys - pending && old(store)[k] != [] ::
          k !in store <==> now - old(store)[k][|old(store)[k]| - 1] > expirationSeconds
      {
        var key :| key in pending;
        pending := pending - {key};
        var queue := store[key];
        if |queue| == 0 || now - queue[|queue| - 1] > expirationSeconds {
          ForgetKeeps(store, log, rules, now, key);
          store := store - {key};
        }
      }
    }
  }

  // ---------- how long entries must be kept ----------

  datatype Event = Ask(now: int) | Tick(now: int)  // a request; a sweep

  /** One key of the limiter as a value: its queue, empty when the key is not stored. */
  function Bounded(queue: seq<int>, e: Event, max: nat, duration: int, expiration: int): (seq<int>, bool) {
    match e
    case Tick(now) => (if queue != [] && now - queue[|queue| - 1] > expiration then [] else queue, false)
    case Ask(now) =>
      if |queue| < Limit(max) || now - queue[0] >= duration then (Pushed(queue, max, now), true) else (queue, false)
  }

  function Full(log: seq<int>, e: Event, max: nat, duration: int): (seq<int>, bool) {
    match e
    case Tick(_) => (log, false)
    case Ask(now) => if FullAllows(log, max, duration, now) then (log + [now], true) else (log, false)
  }

  /** Do both limiters answer every request of the history alike? */
  predicate Agree(queue: seq<int>, log: seq<int>, events: seq<Event>, max: nat, duration: int, expiration: int)
    decreases |events|
  {
    events != [] ==>
      var (queue', a) := Bounded(queue, events[0], max, duration, expiration);
      var (log', b) := Full(log, events[0], max, duration);
      a == b && Agree(queue', log', events[1..], max, duration, expiration)
  }

  ghost predicate Chronological(events: seq<Event>, from: int) {
    && (forall i | 0 <= i < |events| :: from <= events[i].now)
    && (forall i, j | 0 <= i < j < |events| :: events[i].now <= events[j].now)
  }

  lemma {:induction false} KeptLongEnough(queue: seq<int>, log: seq<int>, events: seq<Event>, max: nat, duration: int,
                                          expiration: int, now: int)
    requires duration <= expiration + 1
    requires Represents(queue, log, max, duration, now) && Chronological(events, now)
    ensures Agree(queue, log, events, max, duration, expiration)
    decreases |events|
  {
    if events != [] {
      var e := events[0];
      LaterRepresents(queue, log, max, duration, now, e.now);
      QueueDecides(queue, log, max, duration, e.now);
      PushRepresents(queue, log, max, duration, e.now);
      var queue', log' := Bounded(queue, e, max, duration, expiration).0, Full(log, e, max, duration).0;
      if e.Tick? && queue' != queue { ForgetRepresents(queue, log, max, duration, e.now); }
      KeptLongEnough(queue', log', events[1..], max, duration, expiration, e.now);
    }
  }

  /** `Limit(max)` requests at time 0, filling the queue. */
  function Burst(n: nat): seq<Event> {
    seq(n, i => Ask(0))
  }

  lemma {:induction false} BurstFills(n: nat, rest: seq<Event>, log: seq<int>, max: nat, duration: int, expiration: int)
    requires |log| + n == Limit(max) && duration > 0 && forall i | 0 <= i < |log| :: log[i] == 0
    requires Agree(log, log, Burst(n) + rest, max, duration, expiration)
    ensures var full := seq(Limit(max), i => 0); Agree(full, full, rest, max, duration, expiration)
    decreases n
  {
    if n == 0 {
      assert Burst(0) + rest == rest;
      assert log == seq(Limit(max), i => 0);
    } else {
      assert (Burst(n) + rest)[1..] == Burst(n - 1) + rest;
      RecentAll(log, 0, duration);
      BurstFills(n - 1, rest, log + [0], max, duration, expiration);
    }
  }

  /** A full queue of old requests is forgotten, and one request too many is accepted. */
  lemma SweptQueueDisagrees(max: nat, duration: int, expiration: int)
    requires duration > expiration + 1 && expiration > 0
    ensures var full := seq(Limit(max), i => 0);
      !Agree(full, full, [Tick(expiration + 1), Ask(expiration + 1)], max, duration, expiration)
  {
    var later, full := expiration + 1, seq(Limit(max), i => 0);
    RecentAll(full, later, duration);
    assert Bounded(full, Tick(later), max, duration, expiration).0 == [];
    assert [Tick(later), Ask(later)][1..] == [Ask(later)];
  }

  /** If entries may be forgotten while they are still in the window, some history shows it. */
  lemma ForgottenTooEarly(max: nat, duration: int, expiration: int)
    requires duration > expiration + 1 && expiration > 0
    ensures var events := Burst(Limit(max)) + [Tick(expiration + 1), Ask(expiration + 1)];
      Possible(events, expiration) && !Agree([], [], events, max, duration, expiration)
  {
    var rest := [Tick(expiration + 1), Ask(expiration + 1)];
    SweptQueueDisagrees(max, duration, expiration);
    if Agree([], [], Burst(Limit(max)) + rest, max, duration, expiration) {
      BurstFills(Limit(max), rest, [], max, duration, expiration);
    }
  }

  /** A history that can happen: no sweep is started without a positive expiration. */
  ghost predicate Possible(events: seq<Event>, expiration: int) {
    Chronological(events, 0) && (expiration <= 0 ==> forall i | 0 <= i < |events| :: events[i].Ask?)
  }

  /** Without sweeps nothing is forgotten. */
  lemma {:induction false} KeptForEver(queue: seq<int>, log: seq<int>, events: seq<Event>, max: nat, duration: int,
                                       expiration: int, now: int)
    requires forall i | 0 <= i < |events| :: events[i].Ask?
    requires Represents(queue, log, max, duration, now) && Chronological(events, now)
    ensures Agree(queue, log, events, max, duration, expiration)
    decreases |events|
  {
    if events != [] {
      var e := events[0];
      LaterRepresents(queue, log, max, duration, now, e.now);
      QueueDecides(queue, log, max, duration, e.now);
      PushRepresents(queue, log, max, duration, e.now);
      var queue', log' := Bounded(queue, e, max, duration, expiration).0, Full(log, e, max, duration).0;
      KeptForEver(queue', log', events[1..], max, duration, expiration, e.now);
    }
  }

  /** The limiter answers every history that can happen like the one that keeps everything if and only
      if nothing is ever swept or entries are kept at least as long as the window, less one second. */
  lemma SweepIsHarmlessIff(max: nat, duration: int, expiration: int)
    ensures (forall events :: Possible(events, expiration) ==> Agree([], [], events, max, duration, expiration))
            <==> expiration <= 0 || duration <= expiration + 1
  {
    if expiration <= 0 || duration <= expiration + 1 {
      forall events | Possible(events, expiration) ensures Agree([], [], events, max, duration, expiration) {
        if expiration <= 0 {
          KeptForEver([], [], events, max, duration, expiration, 0);
        } else {
          KeptLongEnough([], [], events, max, duration, expiration, 0);
        }
      }
    } else {
      ForgottenTooEarly(max, duration, expiration);
    }
  }
}
