/**
The failover loop of one relayed request: key rotation on the same channel, failover to another
channel, the attempt ceiling, the retry budget, and the refund of pre-consumed quota.

What the loop asks of the rest of the program is an `Env`: any functions that keep the promises of
`EnvOk`. Answers are indexed by the number of the attempt, so they may change at every attempt.
*/
module RelayLoop {
  import opened Basics
  import opened ChannelSelect
  import opened GroupSelect

  /** What the retry decisions look at in an error. */
  datatype ApiError = ApiError(status: int, channelError: bool, skipRetry: bool, alwaysSkipCode: bool)

  /** `NotSent`: the request body could not be read, so nothing went upstream. */
  datatype Reply = Answered | Failed(error: ApiError) | NotSent

  datatype Config = Config(
    retryTimes: int,             // common.RetryTimes
    routeMaxTotalAttempts: int,
    keyRotationEnabled: bool,
    keyRotationMax: int,
    keyScoped: set<int>,         // status codes that mean "this key"
    retryCodes: set<int>,        // status codes that may be retried
    specificChannel: bool,       // the token pins one channel
    members: seq<Member>)        // of the model group, if the request is routed to one

  datatype Setup = NoKey | SingleKey | Multi(key: int)

  datatype Env = Env(
    first: int,                                                // the channel chosen before the loop ...
    firstSetup: Setup,                                         // ... and its key
    groups: Groups,                                            // of the token ...
    firstGroup: nat,                                           // ... and where the first selection has left them
    offers: Offers,
    setup: (nat, int, set<int>) -> Setup,                      // attempt, channel, keys already tried
    bodyOk: nat -> bool,
    upstream: nat -> Option<ApiError>,                         // None: answered
    channelCached: nat -> bool,
    untriedKey: (nat, int, set<int>) -> bool,
    affinitySkip: nat -> bool,
    cooling: nat -> set<int>)                                  // for the group member pick

  /** A key pick avoids the keys it is told to avoid, and a constrained selection stays within
      the allowed channels. */
  ghost predicate EnvOk(env: Env) {
    && env.firstSetup != NoKey
    && (env.firstSetup.Multi? ==> env.firstSetup.key >= 0)
    && (forall n, c, tried {:trigger env.setup(n, c, tried)} :: env.setup(n, c, tried).Multi? ==>
          env.setup(n, c, tried).key >= 0 && env.setup(n, c, tried).key !in tried)
    && Constrained(env.offers)
  }

  /** One attempt, with the state of the loop when it was started. */
  datatype Attempt = Attempt(
    retry: int, group: nat, abandoned: seq<int>, sticky: Option<int>,
    member: Option<Member>,        // the group member a fresh retry was narrowed to
    model: string, allowed: Option<set<int>>,
    selection: Option<Selection>,  // of a fresh pick after the first attempt
    channel: int, setup: Setup, reply: Reply)

  datatype Exit = Succeeded | SelectionFailed | BodyFailed | Ceiling | Refused | BudgetSpent

  // ---------- the decisions ----------

  predicate ShouldRetry(cfg: Config, error: ApiError, affinitySkip: bool, retriesLeft: int) {
    if affinitySkip then false
    else if error.channelError then true
    else if error.skipRetry then false
    else if retriesLeft <= 0 then false
    else if cfg.specificChannel then false
    else if 200 <= error.status < 300 then false
    else if error.status < 100 || error.status > 599 then true
    else if error.alwaysSkipCode then false
    else error.status in cfg.retryCodes
  }

  function MaxTotal(cfg: Config): int {
    if cfg.routeMaxTotalAttempts < 1 then cfg.retryTimes + 1 else cfg.routeMaxTotalAttempts
  }

  /** How many further keys of one channel may be tried. */
  function RotationCap(cfg: Config): nat {
    if !cfg.keyRotationEnabled || cfg.keyScoped == {} || cfg.keyRotationMax < 0 then 0 else cfg.keyRotationMax
  }

  /** What comes of the attempt with number `n`. */
  function ReplyTo(env: Env, n: nat): Reply {
    if !env.bodyOk(n) then NotSent else match env.upstream(n) case None => Answered case Some(e) => Failed(e)
  }

  function Ids(channels: seq<int>): set<int> {
    set c | c in channels
  }

  // ---------- what a trail of attempts looks like ----------

  function RotationsOn(trail: seq<Attempt>, channel: int): nat {
    if trail == [] then 0
    else RotationsOn(trail[..|trail| - 1], channel) + if trail[|trail| - 1].sticky == Some(channel) then 1 else 0
  }

  /** The keys tried so far on a multi-key channel. */
  ghost function TriedOn(trail: seq<Attempt>, channel: int): set<int> {
    set i | 0 <= i < |trail| && trail[i].channel == channel && trail[i].setup.Multi? :: trail[i].setup.key
  }

  /** The retry counter while an attempt runs, and after it. */
  function RetryDuring(a: Attempt): int {
    if a.selection.Some? then a.selection.value.retry else a.retry
  }

  function GroupDuring(a: Attempt): nat {
    if a.selection.Some? then a.selection.value.group else a.group
  }

  function RetryAfter(a: Attempt, rotates: bool): int {
    if rotates || (a.selection.Some? && a.selection.value.exempt) then RetryDuring(a) else RetryDuring(a) + 1
  }

  /** May the last attempt, which failed, be followed by another key of the same channel? */
  ghost predicate MayRotate(cfg: Config, env: Env, trail: seq<Attempt>)
    requires trail != []
  {
    var n, a := |trail| - 1, trail[|trail| - 1];
    && a.reply.Failed? && cfg.keyRotationEnabled && a.setup.Multi?
    && a.reply.error.status in cfg.keyScoped && !a.reply.error.skipRetry
    && RotationsOn(trail, a.channel) < cfg.keyRotationMax
    && |trail| < MaxTotal(cfg)
    && env.channelCached(n) && env.untriedKey(n, a.channel, TriedOn(trail, a.channel))
  }

  /** The last attempt failed, and its key is rotated or the error may be retried. */
  ghost predicate Retryable(cfg: Config, env: Env, trail: seq<Attempt>)
    requires trail != []
  {
    var n, a := |trail| - 1, trail[|trail| - 1];
    && a.reply.Failed?
    && (MayRotate(cfg, env, trail)
      || ShouldRetry(cfg, a.reply.error, env.affinitySkip(n), cfg.retryTimes - RetryDuring(a)))
  }

  /** The loop goes on after the last attempt of `trail`: its key is rotated, or its channel is
      given up on and the error may be retried; and the retry budget is not spent. */
  ghost predicate GoesOn(cfg: Config, env: Env, trail: seq<Attempt>)
    requires trail != []
  {
    var a := trail[|trail| - 1];
    && Retryable(cfg, env, trail)
    && RetryAfter(a, MayRotate(cfg, env, trail)) <= cfg.retryTimes
    && |trail| < MaxTotal(cfg)
  }

  /** The channel is drawn from what the filter leaves of the selected tier. */
  predicate Drawn(selection: Selection, abandoned: seq<int>, channel: int) {
    var offer := selection.offer;
    var pool := Selectable(offer.tier, Ids(abandoned), offer.cooling);
    pool != [] && channel == pool[offer.choice % |pool|].id
  }

  /** The selection a fresh attempt asks for. */
  function Asked(cfg: Config, env: Env, n: nat, model: string, allowed: Option<set<int>>, group: nat,
                 retry: int): Selection
  {
    Choose(env.offers, n, model, allowed, env.groups, cfg.retryTimes, group, retry)
  }

  /** The model-group member a fresh retry is narrowed to, and what that sets. */
  function Advanced(cfg: Config, retry: int, abandoned: seq<int>, cooling: set<int>): Option<Member> {
    var picked := GroupPick(cfg.members, Ids(abandoned), cooling);
    if retry > 0 && picked.Some? && picked.value < |cfg.members| then Some(cfg.members[picked.value]) else None
  }

  function ModelAfter(member: Option<Member>, model: string): string {
    if member.Some? then member.value.modelName else model
  }

  function AllowedAfter(member: Option<Member>, allowed: Option<set<int>>): Option<set<int>> {
    if member.Some? then Some({member.value.channelId}) else allowed
  }

  /** `b` is the attempt that follows `trail`. */
  ghost predicate Follows(cfg: Config, env: Env, trail: seq<Attempt>, b: Attempt)
    requires trail != []
  {
    var n, a := |trail|, trail[|trail| - 1];
    var rotates := MayRotate(cfg, env, trail);
    && GoesOn(cfg, env, trail)
    && b.retry == RetryAfter(a, rotates) && b.group == GroupDuring(a)
    && b.abandoned == (if rotates then a.abandoned else a.abandoned + [a.channel])
    && b.sticky == (if rotates then Some(a.channel) else None)
    && b.setup == env.setup(n, b.channel, TriedOn(trail, b.channel)) != NoKey
    && b.reply == ReplyTo(env, n)
    && (if rotates then
          b.channel == a.channel && b.selection == None && b.member == None && b.model == a.model
            && b.allowed == a.allowed
        else
          && b.selection == Some(Asked(cfg, env, n, b.model, b.allowed, b.group, b.retry))
          && Drawn(b.selection.value, b.abandoned, b.channel)
          && b.member == Advanced(cfg, b.retry, b.abandoned, env.cooling(n))
          && b.model == ModelAfter(b.member, a.model) && b.allowed == AllowedAfter(b.member, a.allowed))
  }

  ghost predicate Starts(cfg: Config, env: Env, model: string, a: Attempt) {
    && 0 <= cfg.retryTimes && 0 < MaxTotal(cfg)
    && a.retry == 0 && a.group == env.firstGroup && a.abandoned == [] && a.sticky == None && a.member == None
      && a.selection == None
    && a.model == model && a.allowed == None
    && a.channel == env.first && a.setup == env.firstSetup
    && a.reply == ReplyTo(env, 0)
  }

  ghost predicate TrailOk(cfg: Config, env: Env, model: string, trail: seq<Attempt>) {
    trail != [] ==>
      var before, a := trail[..|trail| - 1], trail[|trail| - 1];
      && TrailOk(cfg, env, model, before)
      && if before == [] then Starts(cfg, env, model, a) else Follows(cfg, env, before, a)
  }

  // ---------- the loop ----------

  /** Why the loop stopped. */
  ghost predicate ExitOk(cfg: Config, env: Env, trail: seq<Attempt>, exit: Exit) {
    if trail == [] then exit == BudgetSpent && cfg.retryTimes < 0
    else
      var n, a := |trail| - 1, trail[|trail| - 1];
      match exit
      case Succeeded => a.reply == Answered
      case BodyFailed => a.reply == NotSent
      case SelectionFailed => GoesOn(cfg, env, trail) && !(exists b :: Follows(cfg, env, trail, b))
      case Refused => a.reply.Failed? && !MayRotate(cfg, env, trail)
        && !ShouldRetry(cfg, a.reply.error, env.affinitySkip(n), cfg.retryTimes - RetryDuring(a))
      case BudgetSpent => Retryable(cfg, env, trail) && RetryAfter(a, MayRotate(cfg, env, trail)) > cfg.retryTimes
      case Ceiling => Retryable(cfg, env, trail) && |trail| >= MaxTotal(cfg)
  }

  function Tried(tried: map<int, set<int>>, channel: int): set<int> {
    if channel in tried then tried[channel] else {}
  }

  function Used(rotations: map<int, int>, channel: int): int {
    if channel in rotations then rotations[channel] else 0
  }

  /** The variables of the loop, at its head, as they follow from the attempts so far. */
  datatype Vars = Vars(retry: int, group: nat, abandoned: seq<int>, sticky: Option<int>, model: string,
                       allowed: Option<set<int>>)

  ghost function VarsAfter(cfg: Config, env: Env, model: string, trail: seq<Attempt>): Vars {
    if trail == [] then Vars(0, env.firstGroup, [], None, model, None)
    else
      var a := trail[|trail| - 1];
      if MayRotate(cfg, env, trail) then
        Vars(RetryAfter(a, true), GroupDuring(a), a.abandoned, Some(a.channel), a.model, a.allowed)
      else
        Vars(RetryAfter(a, false), GroupDuring(a), a.abandoned + [a.channel], None, a.model, a.allowed)
  }

  ghost predicate Books(trail: seq<Attempt>, tried: map<int, set<int>>, rotations: map<int, int>,
                        rotating: Option<int>)
  {
    && (forall c :: Tried(tried, c) == TriedOn(trail, c))
    && (forall c :: Used(rotations, c) == RotationsOn(trail, c) + if rotating == Some(c) then 1 else 0)
  }

  lemma Appended(trail: seq<Attempt>, a: Attempt)
    ensures forall c :: RotationsOn(trail + [a], c) == RotationsOn(trail, c) + if a.sticky == Some(c) then 1 else 0
    ensures forall c :: TriedOn(trail + [a], c) == TriedOn(trail, c) + if a.channel == c
      && a.setup.Multi? then {a.setup.key} else {}
  {
    forall c ensures RotationsOn(trail + [a], c) == RotationsOn(trail, c) + if a.sticky == Some(c) then 1 else 0 {
      AppendedRotation(trail, a, c);
    }
    forall c
      ensures TriedOn(trail + [a], c) == TriedOn(trail, c) + if a.channel == c
        && a.setup.Multi? then {a.setup.key} else {}
    {
      AppendedKey(trail, a, c);
    }
  }

  lemma AppendedRotation(trail: seq<Attempt>, a: Attempt, c: int)
    ensures RotationsOn(trail + [a], c) == RotationsOn(trail, c) + if a.sticky == Some(c) then 1 else 0
  {
    var longer := trail + [a];
    assert longer[..|longer| - 1] == trail && longer[|longer| - 1] == a;
  }

  lemma AppendedKey(trail: seq<Attempt>, a: Attempt, c: int)
    ensures TriedOn(trail + [a], c) == TriedOn(trail, c) + if a.channel == c
      && a.setup.Multi? then {a.setup.key} else {}
  {
    var longer := trail + [a];
    forall k | k in TriedOn(longer, c) ensures k in TriedOn(trail, c) || (a.channel == c && a.setup == Multi(k)) {
      var i :| 0 <= i < |longer| && longer[i].channel == c && longer[i].setup.Multi? && longer[i].setup.key == k;
      assert i < |trail| ==> trail[i] == longer[i];
    }
    forall k | k in TriedOn(trail, c) ensures k in TriedOn(longer, c) {
      var i :| 0 <= i < |trail| && trail[i].channel == c && trail[i].setup.Multi? && trail[i].setup.key == k;
      assert longer[i] == trail[i];
    }
    assert longer[|trail|] == a;
  }

  /** `a` is the attempt the loop makes with these variables. */
  ghost predicate Made(cfg: Config, env: Env, trail: seq<Attempt>, v: Vars, a: Attempt) {
    var n := |trail|;
    && a.retry == v.retry && a.group == v.group && a.abandoned == v.abandoned && a.sticky == v.sticky
      && a.reply == ReplyTo(env, n)
    && a.member == (if v.sticky.Some? then None else Advanced(cfg, v.retry, v.abandoned, env.cooling(n)))
    && a.model == ModelAfter(a.member, v.model) && a.allowed == AllowedAfter(a.member, v.allowed)
    && (if n == 0 then a.selection == None && a.channel == env.first && a.setup == env.firstSetup
        else
          && a.setup == env.setup(n, a.channel, TriedOn(trail, a.channel)) != NoKey
          && if v.sticky.Some? then a.selection == None && a.channel == v.sticky.value
             else
               && a.selection == Some(Asked(cfg, env, n, a.model, a.allowed, v.group, v.retry))
               && Drawn(a.selection.value, v.abandoned, a.channel))
  }

  lemma MadeFollows(cfg: Config, env: Env, model: string, trail: seq<Attempt>, a: Attempt)
    requires 0 <= cfg.retryTimes && 0 < MaxTotal(cfg)
    requires trail != [] ==> GoesOn(cfg, env, trail)
    requires Made(cfg, env, trail, VarsAfter(cfg, env, model, trail), a)
    ensures if trail == [] then Starts(cfg, env, model, a) else Follows(cfg, env, trail, a)
  {
  }

  /** When nothing can be selected, no attempt follows. */
  lemma NothingFollows(cfg: Config, env: Env, model: string, trail: seq<Attempt>)
    requires trail != [] && GoesOn(cfg, env, trail)
    requires !(exists a :: Made(cfg, env, trail, VarsAfter(cfg, env, model, trail), a))
    ensures !(exists b :: Follows(cfg, env, trail, b))
  {
    if b :| Follows(cfg, env, trail, b) { assert Made(cfg, env, trail, VarsAfter(cfg, env, model, trail), b); }
  }

  /** `advanceModelGroupMemberForAttempt` */
  method AdvanceMember(cfg: Config, abandoned: seq<int>, cooling: set<int>, model: string, allowed: Option<set<int>>)
    returns (member: Option<Member>, model': string, allowed': Option<set<int>>)
    ensures member == Advanced(cfg, 1, abandoned, cooling)
    ensures model' == ModelAfter(member, model) && allowed' == AllowedAfter(member, allowed)
  {
    member, model', allowed' := None, model, allowed;
    var picked := PickModelGroupMember(cfg.members, Ids(abandoned), cooling);
    if picked.Some? {
      member := Some(cfg.members[picked.value]);
      model', allowed' := member.value.modelName, Some({member.value.channelId});
    }
  }

  method GetChannel(cfg: Config, env: Env, n: nat, sticky: Option<int>, model: string, allowed: Option<set<int>>,
                    group: nat, retry: int, abandoned: seq<int>, tried: map<int, set<int>>)
    returns (found: bool, selection: Option<Selection>, channel: int, setup: Setup)
    requires EnvOk(env)
    ensures n == 0 ==> found && selection == None && channel == env.first && setup == env.firstSetup
    ensures n > 0 && sticky.Some? ==>
      selection == None && channel == sticky.value && setup == env.setup(n, channel, Tried(tried, channel))
      && (found <==> setup != NoKey)
    ensures n > 0 && sticky.None? ==>
      && selection == Some(Asked(cfg, env, n, model, allowed, group, retry))
      && (if found then Drawn(selection.value, abandoned, channel)
        && setup == env.setup(n, channel, Tried(tried, channel)) != NoKey
          else forall c :: Drawn(selection.value, abandoned, c) ==> env.setup(n, c, Tried(tried, c)) == NoKey)
  {
    found, selection, channel, setup := true, None, env.first, env.firstSetup;
    if n == 0 {
      return;
    }
    if sticky.Some? {
      channel := sticky.value;
    } else {
      var s := SelectChannel(env.offers, n, model, allowed, env.groups, cfg.retryTimes, group, retry);
      selection := Some(s);
      var pool := FilterSelectable(s.offer.tier, Ids(abandoned), s.offer.cooling);
      if |pool| == 0 {
        found := false;
        return;
      }
      channel := pool[s.offer.choice % |pool|].id;
    }
    setup := env.setup(n, channel, Tried(tried, channel));
    found := setup != NoKey;
  }

  /** What the loop has established when it is about to test its condition. */
  ghost predicate AtHead(cfg: Config, env: Env, model: string, trail: seq<Attempt>, failed: bool) {
    && TrailOk(cfg, env, model, trail)
    && (trail == [] ==> !failed)
    && (trail != [] ==> failed && 0 <= cfg.retryTimes && |trail| <= MaxTotal(cfg) && Retryable(cfg, env, trail))
  }

  /** One pass through member advance and channel selection. */
  method Prepare(cfg: Config, env: Env, ghost model: string, ghost trail: seq<Attempt>, n: nat, v: Vars,
                 tried: map<int, set<int>>)
    returns (found: bool, a: Attempt)
    requires EnvOk(env) && n == |trail| && v == VarsAfter(cfg, env, model, trail)
    requires forall c :: Tried(tried, c) == TriedOn(trail, c)
    ensures a.retry == v.retry && a.group == v.group && a.abandoned == v.abandoned && a.sticky == v.sticky
      && (n == 0 ==> found)
    ensures if found then Made(cfg, env, trail, v, a) else !exists b :: Made(cfg, env, trail, v, b)
  {
    a := Attempt(v.retry, v.group, v.abandoned, v.sticky, None, v.model, v.allowed, None, 0, NoKey, ReplyTo(env, n));
    if v.sticky == None && v.retry > 0 {
      var member, modelName, allowed := AdvanceMember(cfg, v.abandoned, env.cooling(n), v.model, v.allowed);
      a := a.(member := member, model := modelName, allowed := allowed);
    }
    var selection, channel, setup;
    found, selection, channel, setup :=
      GetChannel(cfg, env, n, v.sticky, a.model, a.allowed, v.group, v.retry, v.abandoned, tried);
    a := a.(selection := selection, channel := channel, setup := setup);
  }

  lemma Extend(cfg: Config, env: Env, model: string, trail: seq<Attempt>, a: Attempt)
    requires TrailOk(cfg, env, model, trail) && 0 <= cfg.retryTimes && |trail| < MaxTotal(cfg)
    requires trail != [] ==> GoesOn(cfg, env, trail)
    requires Made(cfg, env, trail, VarsAfter(cfg, env, model, trail), a)
    ensures TrailOk(cfg, env, model, trail + [a])
  {
    MadeFollows(cfg, env, model, trail, a);
    assert (trail + [a])[..|trail|] == trail;
  }

  lemma BooksGrow(trail: seq<Attempt>, a: Attempt, tried: map<int, set<int>>, rotations: map<int, int>)
    requires Books(trail, tried, rotations, a.sticky)
    ensures var tried' := if a.setup.Multi? then tried[a.channel := Tried(tried, a.channel) + {a.setup.key}] else tried;
      Books(trail + [a], tried', rotations, None)
  {
    Appended(trail, a);
  }

  /** The test for rotating to another key of the same channel. */
  method KeyCanRotate(cfg: Config, env: Env, ghost trail: seq<Attempt>, attempts: nat, a: Attempt,
                      tried: map<int, set<int>>, rotations: map<int, int>) returns (rotates: bool)
    requires attempts == |trail| > 0 && a == trail[|trail| - 1] && a.reply.Failed?
      && Books(trail, tried, rotations, None)
    ensures rotates <==> MayRotate(cfg, env, trail)
  {
    var error := a.reply.error;
    rotates := false;
    if cfg.keyRotationEnabled && a.setup.Multi? && error.status in cfg.keyScoped && !error.skipRetry
       && Used(rotations, a.channel) < cfg.keyRotationMax && attempts < MaxTotal(cfg) {
      rotates := env.channelCached(attempts - 1) && env.untriedKey(attempts - 1, a.channel, Tried(tried, a.channel));
    }
  }

  /** After a failed attempt: rotate to another key, or give the channel up and ask whether the
      error may be retried. `resetNextTry` is set if the selector has exempted the next increment. */
  method Settle(cfg: Config, env: Env, ghost model: string, ghost trail: seq<Attempt>, attempts: nat, a: Attempt,
                tried: map<int, set<int>>, rotations: map<int, int>)
    returns (retryable: bool, v: Vars, rotations': map<int, int>)
    requires attempts == |trail| > 0 && a == trail[|trail| - 1] && a.reply.Failed?
      && Books(trail, tried, rotations, None)
    ensures retryable <==> Retryable(cfg, env, trail)
    ensures v == VarsAfter(cfg, env, model, trail) && Books(trail, tried, rotations', v.sticky)
  {
    var retry := if a.selection.Some? then a.selection.value.retry else a.retry;
    var group := if a.selection.Some? then a.selection.value.group else a.group;
    var resetNextTry := a.selection.Some? && a.selection.value.exempt;
    var stickyChannel, abandoned := None, a.abandoned;
    rotations' := rotations;
    retryable := true;
    var rotates := KeyCanRotate(cfg, env, trail, attempts, a, tried, rotations);
    if rotates {
      rotations' := rotations[a.channel := Used(rotations, a.channel) + 1];
      stickyChannel := Some(a.channel);
      resetNextTry := true;
    } else {
      abandoned := abandoned + [a.channel];
      retryable := ShouldRetry(cfg, a.reply.error, env.affinitySkip(attempts - 1), cfg.retryTimes - retry);
    }
    // retryParam.IncreaseRetry()
    if !resetNextTry { retry := retry + 1; }
    v := Vars(retry, group, abandoned, stickyChannel, a.model, a.allowed);
  }

  /** The log trail of channels, in the order they were used. */
  function ChannelsOf(trail: seq<Attempt>): seq<int> {
    if trail == [] then [] else ChannelsOf(trail[..|trail| - 1]) + [trail[|trail| - 1].channel]
  }

  /** One pass of the loop: the attempt, if a channel was found, and why the loop stops, if it does. */
  method Turn(cfg: Config, env: Env, ghost model: string, trail: seq<Attempt>, v: Vars, tried: map<int, set<int>>,
              rotations: map<int, int>)
    returns (longer: seq<Attempt>, stop: Option<Exit>, v': Vars, tried': map<int, set<int>>, rotations': map<int, int>)
    requires EnvOk(env) && AtHead(cfg, env, model, trail, trail != []) && v == VarsAfter(cfg, env, model, trail)
    requires Books(trail, tried, rotations, v.sticky)
    requires 0 <= cfg.retryTimes && v.retry <= cfg.retryTimes && |trail| < MaxTotal(cfg)
    ensures if stop == Some(SelectionFailed) then longer == trail
      else |longer| == |trail| + 1 && longer[..|trail|] == trail
    ensures stop.Some? ==> TrailOk(cfg, env, model, longer) && ExitOk(cfg, env, longer, stop.value)
    ensures stop.Some? ==> stop.value != BudgetSpent && stop.value != Ceiling
    ensures stop.None? ==>
      && AtHead(cfg, env, model, longer, true) && v' == VarsAfter(cfg, env, model, longer)
      && Books(longer, tried', rotations', v'.sticky)
  {
    longer, v', tried', rotations' := trail, v, tried, rotations;
    assert trail != [] ==> GoesOn(cfg, env, trail);
    var found, a := Prepare(cfg, env, model, trail, |trail|, v, tried);
    if !found {
      NothingFollows(cfg, env, model, trail);
      return longer, Some(SelectionFailed), v', tried', rotations';
    }
    Extend(cfg, env, model, trail, a);
    BooksGrow(trail, a, tried, rotations);
    longer := trail + [a];
    if a.setup.Multi? {
      tried' := tried[a.channel := Tried(tried, a.channel) + {a.setup.key}];
    }
    if a.reply.NotSent? {
      return longer, Some(BodyFailed), v', tried', rotations';
    }
    if a.reply.Answered? {
      return longer, Some(Succeeded), v', tried', rotations';
    }
    var retryable;
    retryable, v', rotations' := Settle(cfg, env, model, longer, |longer|, a, tried', rotations);
    stop := if retryable then None else Some(Refused);
  }

  /** `Relay` from the end of pre-consumption on. `billed` says whether quota was pre-consumed. */
  method Relay(cfg: Config, env: Env, model: string, billed: bool)
    returns (trail: seq<Attempt>, used: seq<int>, exit: Exit, refunded: bool)
    requires EnvOk(env)
    ensures TrailOk(cfg, env, model, trail) && ExitOk(cfg, env, trail, exit)
    ensures |trail| <= MaxTotal(cfg) || trail == []
    ensures used == ChannelsOf(trail)
    ensures refunded <==> billed && exit != Succeeded && cfg.retryTimes >= 0
  {
    trail, used, exit := [], [], BudgetSpent;
    var newAPIError := false;
    var maxTotalAttempts := cfg.routeMaxTotalAttempts;
    if maxTotalAttempts < 1 {
      maxTotalAttempts := cfg.retryTimes + 1;
    }
    var v := Vars(0, env.firstGroup, [], None, model, None);
    var triedKeys: map<int, set<int>> := map[];
    var keyRotationsUsed: map<int, int> := map[];
    while v.retry <= cfg.retryTimes
      invariant maxTotalAttempts == MaxTotal(cfg) && exit == BudgetSpent && newAPIError == (trail != [])
      invariant AtHead(cfg, env, model, trail, newAPIError)
      invariant v == VarsAfter(cfg, env, model, trail)
      invariant Books(trail, triedKeys, keyRotationsUsed, v.sticky)
      invariant used == ChannelsOf(trail)
      decreases maxTotalAttempts - |trail|
    {
      if |trail| >= maxTotalAttempts {
        exit := Ceiling;
        break;
      }
      ghost var before := trail;
      var stop;
      trail, stop, v, triedKeys, keyRotationsUsed := Turn(cfg, env, model, trail, v, triedKeys, keyRotationsUsed);
      newAPIError := stop != Some(Succeeded);
      if stop == Some(SelectionFailed) {
        exit := SelectionFailed;
        break;
      }
      used := used + [trail[|trail| - 1].channel];
      if stop.Some? {
        exit := stop.value;
        break;
      }
    }
    refunded := newAPIError && billed;
  }
}
