/**
What holds of every request that the failover loop serves.
*/
module RelayProperties {
  import opened Basics
  import opened ChannelSelect
  import opened GroupSelect
  import opened RelayLoop

  function Rotations(trail: seq<Attempt>): nat {
    if trail == [] then 0
    else Rotations(trail[..|trail| - 1]) + if trail[|trail| - 1].sticky.Some? then 1 else 0
  }

  /** At every loop head, the channels used so far are exactly those given up on plus the one whose
      key is being rotated, and the attempts so far are the abandonments plus the rotations (the
      last counted before the rotated attempt is made). */
  lemma {:induction false} UsedAreAbandonedOrSticky(cfg: Config, env: Env, model: string, trail: seq<Attempt>)
    requires TrailOk(cfg, env, model, trail)
    ensures var v := VarsAfter(cfg, env, model, trail);
      && (forall c :: c in ChannelsOf(trail) <==> c in v.abandoned || v.sticky == Some(c))
      && |trail| == |v.abandoned| + Rotations(trail) + if v.sticky.Some? then 1 else 0
  {
    if trail != [] { UsedAreAbandonedOrSticky(cfg, env, model, trail[..|trail| - 1]); }
  }

  lemma {:induction false} OnlyLastMayAnswer(cfg: Config, env: Env, model: string, trail: seq<Attempt>, i: nat)
    requires TrailOk(cfg, env, model, trail) && i < |trail| - 1
    ensures trail[i].reply.Failed?
  {
    if i < |trail| - 2 { OnlyLastMayAnswer(cfg, env, model, trail[..|trail| - 1], i); }
  }

  /** The loop ends in success, the one exit without a refund, exactly when an attempt was answered. */
  lemma SucceededIffAnswered(cfg: Config, env: Env, model: string, trail: seq<Attempt>, exit: Exit)
    requires TrailOk(cfg, env, model, trail) && ExitOk(cfg, env, trail, exit)
    ensures exit == Succeeded <==> exists i :: 0 <= i < |trail| && trail[i].reply.Answered?
  {
    forall i | 0 <= i < |trail| - 1 ensures trail[i].reply.Failed? { OnlyLastMayAnswer(cfg, env, model, trail, i); }
  }

  /** Every key was new to its channel when it was tried. */
  ghost predicate KeysNew(trail: seq<Attempt>) {
    trail != [] ==>
      var before, b := trail[..|trail| - 1], trail[|trail| - 1];
      KeysNew(before) && (b.setup.Multi? ==> b.setup.key !in TriedOn(before, b.channel))
  }

  lemma {:induction false} KeysAreNew(cfg: Config, env: Env, model: string, trail: seq<Attempt>)
    requires EnvOk(env) && TrailOk(cfg, env, model, trail)
    ensures KeysNew(trail)
  {
    if trail != [] { KeysAreNew(cfg, env, model, trail[..|trail| - 1]); }
  }

  lemma {:induction false} NewKeysDiffer(trail: seq<Attempt>, i: nat, j: nat)
    requires KeysNew(trail) && i < j < |trail|
    requires trail[i].setup.Multi? && trail[j].setup.Multi? && trail[i].channel == trail[j].channel
    ensures trail[i].setup.key != trail[j].setup.key
  {
    var before := trail[..|trail| - 1];
    if j < |before| {
      NewKeysDiffer(before, i, j);
    } else {
      assert before[i].setup.key in TriedOn(before, trail[j].channel);
    }
  }

  /** No key of a multi-key channel is tried twice in one request. */
  lemma NoKeyTwice(cfg: Config, env: Env, model: string, trail: seq<Attempt>, i: nat, j: nat)
    requires EnvOk(env) && TrailOk(cfg, env, model, trail) && i < j < |trail|
    requires trail[i].setup.Multi? && trail[j].setup.Multi? && trail[i].channel == trail[j].channel
    ensures trail[i].setup.key != trail[j].setup.key
  {
    KeysAreNew(cfg, env, model, trail);
    NewKeysDiffer(trail, i, j);
  }

  /** What a fresh attempt after the first is. */
  ghost predicate FreshAttempt(cfg: Config, env: Env, n: nat, b: Attempt) {
    && b.selection == Some(Asked(cfg, env, n, b.model, b.allowed, b.group, b.retry))
    && Drawn(b.selection.value, b.abandoned, b.channel)
    && b.member == Advanced(cfg, b.retry, b.abandoned, env.cooling(n))
    && (b.member.Some? ==> b.model == b.member.value.modelName && b.allowed == Some({b.member.value.channelId}))
  }

  lemma LastIsFresh(cfg: Config, env: Env, model: string, trail: seq<Attempt>)
    requires TrailOk(cfg, env, model, trail) && |trail| > 1 && trail[|trail| - 1].selection.Some?
    ensures FreshAttempt(cfg, env, |trail| - 1, trail[|trail| - 1])
  {
  }

  lemma DrawnFromTier(selection: Selection, abandoned: seq<int>, channel: int)
    requires Drawn(selection, abandoned, channel)
    ensures exists c :: c in selection.offer.tier && c.id == channel
    ensures channel in abandoned <==> forall c | c in selection.offer.tier :: c.id in abandoned
  {
    var offer := selection.offer;
    var pool := Selectable(offer.tier, Ids(abandoned), offer.cooling);
    SelectableRelaxes(offer.tier, Ids(abandoned), offer.cooling, pool[offer.choice % |pool|]);
  }

  /** A fresh pick takes a channel of the selected tier, and one that was given up on exactly when
      the whole tier was: the selector relaxes rather than fail. */
  lemma ReselectsOnlyWhenAllAbandoned(cfg: Config, env: Env, model: string, trail: seq<Attempt>)
    requires TrailOk(cfg, env, model, trail) && |trail| > 1 && trail[|trail| - 1].selection.Some?
    ensures var b := trail[|trail| - 1]; var tier := b.selection.value.offer.tier;
      && (exists c :: c in tier && c.id == b.channel)
      && (b.channel in b.abandoned <==> forall c | c in tier :: c.id in b.abandoned)
  {
    var b := trail[|trail| - 1];
    LastIsFresh(cfg, env, model, trail);
    DrawnFromTier(b.selection.value, b.abandoned, b.channel);
  }

  lemma MemberDrawn(cfg: Config, env: Env, n: nat, b: Attempt)
    requires EnvOk(env) && FreshAttempt(cfg, env, n, b) && cfg.members != [] && b.retry > 0
    ensures b.member.Some? && b.member.value in cfg.members
    ensures b.channel == b.member.value.channelId && b.model == b.member.value.modelName
    ensures b.channel in b.abandoned <==> forall m | m in cfg.members :: m.channelId in b.abandoned
  {
    GroupPickPrefers(cfg.members, Ids(b.abandoned), env.cooling(n));
    ChooseConstrained(env.offers, n, b.model, b.allowed, env.groups, cfg.retryTimes, b.group, b.retry);
    DrawnFromTier(b.selection.value, b.abandoned, b.channel);
  }

  /** A fresh retry of a model-group request runs on a member's channel with that member's model
      name; it goes back to a member that was given up on exactly when all members were. */
  lemma GroupRetryFollowsMembers(cfg: Config, env: Env, model: string, trail: seq<Attempt>)
    requires EnvOk(env) && TrailOk(cfg, env, model, trail) && |trail| > 1 && cfg.members != []
    requires trail[|trail| - 1].selection.Some? && trail[|trail| - 1].retry > 0
    ensures var b := trail[|trail| - 1];
      && b.member.Some? && b.member.value in cfg.members
      && b.channel == b.member.value.channelId && b.model == b.member.value.modelName
      && (b.channel in b.abandoned <==> forall m | m in cfg.members :: m.channelId in b.abandoned)
  {
    LastIsFresh(cfg, env, model, trail);
    MemberDrawn(cfg, env, |trail| - 1, trail[|trail| - 1]);
  }

  // ---------- why the loop goes on, and why it stops ----------

  /** The attempt at this place is the first, or follows those before it. */
  ghost predicate InPlace(cfg: Config, env: Env, model: string, trail: seq<Attempt>, i: nat)
    requires i < |trail|
  {
    if i == 0 then Starts(cfg, env, model, trail[0]) else Follows(cfg, env, trail[..i], trail[i])
  }

  lemma LastInPlace(cfg: Config, env: Env, model: string, trail: seq<Attempt>)
    requires TrailOk(cfg, env, model, trail) && trail != []
    ensures TrailOk(cfg, env, model, trail[..|trail| - 1]) && InPlace(cfg, env, model, trail, |trail| - 1)
  {
  }

  lemma InPlaceLater(cfg: Config, env: Env, model: string, before: seq<Attempt>, trail: seq<Attempt>, i: nat)
    requires i < |before| && before <= trail && InPlace(cfg, env, model, before, i)
    ensures InPlace(cfg, env, model, trail, i)
  {
    assert before[..i] == trail[..i];
  }

  lemma {:induction false} AttemptAt(cfg: Config, env: Env, model: string, trail: seq<Attempt>, i: nat)
    requires TrailOk(cfg, env, model, trail) && i < |trail|
    ensures InPlace(cfg, env, model, trail, i)
  {
    LastInPlace(cfg, env, model, trail);
    if i < |trail| - 1 {
      AttemptAt(cfg, env, model, trail[..|trail| - 1], i);
      InPlaceLater(cfg, env, model, trail[..|trail| - 1], trail, i);
    }
  }

  /** The attempts so far that tried another key of a channel. */
  function RotatedAt(trail: seq<Attempt>, n: nat, c: int): set<nat>
    requires n <= |trail|
  {
    set j: nat | j < n && trail[j].sticky == Some(c)
  }

  lemma OneMoreRotated(trail: seq<Attempt>, n: nat, c: int)
    requires n < |trail|
    ensures |RotatedAt(trail, n + 1, c)| == |RotatedAt(trail, n, c)| + if trail[n].sticky == Some(c) then 1 else 0
  {
    assert RotatedAt(trail, n + 1, c) == RotatedAt(trail, n, c) + if trail[n].sticky == Some(c) then {n} else {};
  }

  lemma OneMoreRotation(trail: seq<Attempt>, n: nat, c: int)
    requires n < |trail|
    ensures RotationsOn(trail[..n + 1], c)
         == RotationsOn(trail[..n], c) + if trail[n].sticky == Some(c) then 1 else 0
  {
    assert trail[..n + 1][..n] == trail[..n] && trail[..n + 1][n] == trail[n];
  }

  lemma {:induction false} RotationsAreCounted(trail: seq<Attempt>, n: nat, c: int)
    requires n <= |trail|
    ensures RotationsOn(trail[..n], c) == |RotatedAt(trail, n, c)|
  {
    if n > 0 {
      RotationsAreCounted(trail, n - 1, c);
      OneMoreRotated(trail, n - 1, c);
      OneMoreRotation(trail, n - 1, c);
    }
  }

  /** When an attempt is followed by another: it failed, below the ceiling. Then another key of the
      channel is tried exactly if the error calls for it and the channel allows it; and if not, the
      error is one for which another channel may be tried. */
  lemma FollowedOnlyIf(cfg: Config, env: Env, model: string, trail: seq<Attempt>, i: nat)
    requires TrailOk(cfg, env, model, trail) && i + 1 < |trail|
    ensures var a, b := trail[i], trail[i + 1];
      && a.reply.Failed?
      && i + 1 < (if cfg.routeMaxTotalAttempts < 1 then cfg.retryTimes + 1 else cfg.routeMaxTotalAttempts)
      && var e := a.reply.error;
      && (b.sticky.Some? <==>
            && cfg.keyRotationEnabled && a.setup.Multi? && e.status in cfg.keyScoped && !e.skipRetry
            && |RotatedAt(trail, i + 1, a.channel)| < cfg.keyRotationMax
            && env.channelCached(i) && env.untriedKey(i, a.channel, TriedOn(trail[..i + 1], a.channel)))
      && (b.sticky.None? ==>
            && !env.affinitySkip(i)
            && (e.channelError
              || (&& !e.skipRetry && !cfg.specificChannel && !(200 <= e.status < 300)
                  && (if a.selection.Some? then a.selection.value.retry else a.retry) < cfg.retryTimes
                  && (100 <= e.status <= 599 ==> !e.alwaysSkipCode && e.status in cfg.retryCodes))))
  {
    AttemptAt(cfg, env, model, trail, i + 1);
    RotationsAreCounted(trail, i + 1, trail[i].channel);
    OneFollows(cfg, env, trail[..i + 1], trail[i + 1]);
    assert trail[..i + 1][i] == trail[i];
  }

  lemma OneFollows(cfg: Config, env: Env, before: seq<Attempt>, b: Attempt)
    requires before != [] && Follows(cfg, env, before, b)
    ensures var i, a := |before| - 1, before[|before| - 1];
      && a.reply.Failed?
      && i + 1 < (if cfg.routeMaxTotalAttempts < 1 then cfg.retryTimes + 1 else cfg.routeMaxTotalAttempts)
      && var e := a.reply.error;
      && (b.sticky.Some? <==>
            && cfg.keyRotationEnabled && a.setup.Multi? && e.status in cfg.keyScoped && !e.skipRetry
            && RotationsOn(before, a.channel) < cfg.keyRotationMax
            && env.channelCached(i) && env.untriedKey(i, a.channel, TriedOn(before, a.channel)))
      && (b.sticky.None? ==>
            && !env.affinitySkip(i)
            && (e.channelError
              || (&& !e.skipRetry && !cfg.specificChannel && !(200 <= e.status < 300)
                  && (if a.selection.Some? then a.selection.value.retry else a.retry) < cfg.retryTimes
                  && (100 <= e.status <= 599 ==> !e.alwaysSkipCode && e.status in cfg.retryCodes))))
  {
  }

  /** What the attempt after another starts from. Rotating keeps channel, model and counter. Otherwise
      the channel is given up on, the counter goes up unless the selector has started it again, and the
      model changes only to that of a group member. */
  lemma NextStarts(cfg: Config, env: Env, model: string, trail: seq<Attempt>, i: nat)
    requires TrailOk(cfg, env, model, trail) && i + 1 < |trail|
    ensures var a, b := trail[i], trail[i + 1];
      var retry := if a.selection.Some? then a.selection.value.retry else a.retry;
      && b.group == (if a.selection.Some? then a.selection.value.group else a.group)
      && 0 <= b.retry <= cfg.retryTimes
      && b.setup != NoKey && b.setup == env.setup(i + 1, b.channel, TriedOn(trail[..i + 1], b.channel))
      && (b.sticky.Some? ==>
            && b.sticky.value == b.channel == a.channel && b.retry == retry && b.abandoned == a.abandoned
            && b.model == a.model && b.allowed == a.allowed && b.selection.None?)
      && (b.sticky.None? ==>
            && b.abandoned == a.abandoned + [a.channel] && b.selection.Some?
            && b.retry == (if a.selection.Some? && a.selection.value.exempt then retry else retry + 1)
            && (b.retry == 0 || cfg.members == [] ==> b.model == a.model && b.allowed == a.allowed))
  {
    AttemptAt(cfg, env, model, trail, i + 1);
    TrailShaped(cfg, env, model, trail);
    ShapedAt(cfg, env, trail, i + 1);
    OneStarts(cfg, env, trail[..i + 1], trail[i + 1]);
    assert trail[..i + 1][i] == trail[i];
  }

  lemma OneStarts(cfg: Config, env: Env, before: seq<Attempt>, b: Attempt)
    requires before != [] && Follows(cfg, env, before, b) && 0 <= b.retry
    ensures var a := before[|before| - 1];
      var retry := if a.selection.Some? then a.selection.value.retry else a.retry;
      && b.group == (if a.selection.Some? then a.selection.value.group else a.group)
      && b.setup != NoKey && b.setup == env.setup(|before|, b.channel, TriedOn(before, b.channel))
      && (b.sticky.Some? ==>
            && b.sticky.value == b.channel == a.channel && b.retry == retry && b.abandoned == a.abandoned
            && b.model == a.model && b.allowed == a.allowed && b.selection.None?)
      && (b.sticky.None? ==>
            && b.abandoned == a.abandoned + [a.channel] && b.selection.Some?
            && b.retry == (if a.selection.Some? && a.selection.value.exempt then retry else retry + 1)
            && (b.retry == 0 || cfg.members == [] ==> b.model == a.model && b.allowed == a.allowed))
  {
  }

  lemma {:induction false} ShapedAt(cfg: Config, env: Env, trail: seq<Attempt>, i: nat)
    requires Shaped(cfg, env, trail) && i < |trail|
    ensures 0 <= trail[i].retry <= cfg.retryTimes
  {
    if i < |trail| - 1 { ShapedAt(cfg, env, trail[..|trail| - 1], i); }
  }

  /** Every attempt is answered, fails, or is not sent, as the upstream and the body have it. */
  lemma ReplyAt(cfg: Config, env: Env, model: string, trail: seq<Attempt>, i: nat)
    requires TrailOk(cfg, env, model, trail) && i < |trail|
    ensures trail[i].reply == ReplyTo(env, i)
    ensures trail[i].reply.NotSent? <==> !env.bodyOk(i)
    ensures env.bodyOk(i) ==>
      match env.upstream(i) case None => trail[i].reply.Answered? case Some(e) => trail[i].reply == Failed(e)
  {
    AttemptAt(cfg, env, model, trail, i);
  }

  /** Why the loop stops. `Refused`: no other key is to be tried, and the error rules out another
      channel. `BudgetSpent` and `Ceiling`: one of the two could go on, but a limit is reached. */
  lemma StopsBecause(cfg: Config, env: Env, model: string, trail: seq<Attempt>, exit: Exit)
    requires TrailOk(cfg, env, model, trail) && ExitOk(cfg, env, trail, exit) && trail != []
    ensures var n, a := |trail| - 1, trail[|trail| - 1];
      var retry := if a.selection.Some? then a.selection.value.retry else a.retry;
      && (exit == Succeeded <==> env.bodyOk(n) && env.upstream(n).None?)
      && (exit == BodyFailed <==> !env.bodyOk(n))
      && (exit == Ceiling ==>
            |trail| == if cfg.routeMaxTotalAttempts < 1 then cfg.retryTimes + 1 else cfg.routeMaxTotalAttempts)
      && (exit == BudgetSpent ==> retry == cfg.retryTimes)
      && (exit !in {Succeeded, BodyFailed} ==>
            && a.reply.Failed?
            && var e := a.reply.error;
            var rotates :=
              && cfg.keyRotationEnabled && a.setup.Multi? && e.status in cfg.keyScoped && !e.skipRetry
              && |RotatedAt(trail, |trail|, a.channel)| < cfg.keyRotationMax
              && |trail| < (if cfg.routeMaxTotalAttempts < 1 then cfg.retryTimes + 1 else cfg.routeMaxTotalAttempts)
              && env.channelCached(n) && env.untriedKey(n, a.channel, TriedOn(trail, a.channel));
            var refused :=
              || env.affinitySkip(n)
              || (&& !e.channelError
                  && (|| e.skipRetry || cfg.specificChannel || 200 <= e.status < 300 || retry >= cfg.retryTimes
                      || (100 <= e.status <= 599 && (e.alwaysSkipCode || e.status !in cfg.retryCodes))));
            && (exit == Refused <==> !rotates && refused)
            && (exit == BudgetSpent ==> !rotates && !(a.selection.Some? && a.selection.value.exempt)))
  {
    ReplyAt(cfg, env, model, trail, |trail| - 1);
    TrailShaped(cfg, env, model, trail);
    RetryWithin(cfg, env, trail);
    CeilingKept(cfg, env, model, trail);
    RotationsAreCounted(trail, |trail|, trail[|trail| - 1].channel);
    assert trail[..|trail|] == trail;
    LastStops(cfg, env, trail, exit);
  }

  lemma RetryWithin(cfg: Config, env: Env, trail: seq<Attempt>)
    requires trail != [] && Shaped(cfg, env, trail)
    ensures RetryDuring(trail[|trail| - 1]) <= cfg.retryTimes
  {
  }

  lemma LastStops(cfg: Config, env: Env, trail: seq<Attempt>, exit: Exit)
    requires trail != [] && ExitOk(cfg, env, trail, exit) && |trail| <= MaxTotal(cfg)
    requires RetryDuring(trail[|trail| - 1]) <= cfg.retryTimes && trail[|trail| - 1].reply == ReplyTo(env, |trail| - 1)
    ensures var n, a := |trail| - 1, trail[|trail| - 1];
      var retry := if a.selection.Some? then a.selection.value.retry else a.retry;
      && (exit == Succeeded <==> env.bodyOk(n) && env.upstream(n).None?)
      && (exit == BodyFailed <==> !env.bodyOk(n))
      && (exit == Ceiling ==>
            |trail| == if cfg.routeMaxTotalAttempts < 1 then cfg.retryTimes + 1 else cfg.routeMaxTotalAttempts)
      && (exit == BudgetSpent ==> retry == cfg.retryTimes)
      && (exit !in {Succeeded, BodyFailed} ==>
            && a.reply.Failed?
            && var e := a.reply.error;
            var rotates :=
              && cfg.keyRotationEnabled && a.setup.Multi? && e.status in cfg.keyScoped && !e.skipRetry
              && RotationsOn(trail, a.channel) < cfg.keyRotationMax
              && |trail| < (if cfg.routeMaxTotalAttempts < 1 then cfg.retryTimes + 1 else cfg.routeMaxTotalAttempts)
              && env.channelCached(n) && env.untriedKey(n, a.channel, TriedOn(trail, a.channel));
            var refused :=
              || env.affinitySkip(n)
              || (&& !e.channelError
                  && (|| e.skipRetry || cfg.specificChannel || 200 <= e.status < 300 || retry >= cfg.retryTimes
                      || (100 <= e.status <= 599 && (e.alwaysSkipCode || e.status !in cfg.retryCodes))));
            && (exit == Refused <==> !rotates && refused)
            && (exit == BudgetSpent ==> !rotates && !(a.selection.Some? && a.selection.value.exempt)))
  {
  }

  /** No attempt is made only with a negative number of retries. */
  lemma NothingTried(cfg: Config, env: Env, exit: Exit)
    requires ExitOk(cfg, env, [], exit)
    ensures exit == BudgetSpent && cfg.retryTimes < 0
  {
  }

  /** No channel could be had: the key of the channel that was to be rotated, or of the channel drawn,
      is not to be had, or nothing is offered. */
  lemma SelectionFails(cfg: Config, env: Env, model: string, trail: seq<Attempt>, channel: int)
    requires TrailOk(cfg, env, model, trail) && ExitOk(cfg, env, trail, SelectionFailed) && trail != []
    ensures var v := VarsAfter(cfg, env, model, trail);
      var member := if v.sticky.Some? then None else Advanced(cfg, v.retry, v.abandoned, env.cooling(|trail|));
      var s := Asked(cfg, env, |trail|, ModelAfter(member, v.model), AllowedAfter(member, v.allowed), v.group, v.retry);
      (if v.sticky.Some? then channel == v.sticky.value else Drawn(s, v.abandoned, channel))
      ==> env.setup(|trail|, channel, TriedOn(trail, channel)) == NoKey
  {
    var v := VarsAfter(cfg, env, model, trail);
    var member := if v.sticky.Some? then None else Advanced(cfg, v.retry, v.abandoned, env.cooling(|trail|));
    var modelName, allowed := ModelAfter(member, v.model), AllowedAfter(member, v.allowed);
    var s := Asked(cfg, env, |trail|, modelName, allowed, v.group, v.retry);
    var b := Attempt(v.retry, v.group, v.abandoned, v.sticky, member, modelName, allowed,
                     if v.sticky.Some? then None else Some(s), channel,
                     env.setup(|trail|, channel, TriedOn(trail, channel)), ReplyTo(env, |trail|));
    assert !Follows(cfg, env, trail, b);
  }

  // ---------- retries, groups, rotations and abandonments ----------

  /** What a fresh selection leaves of the group index and the retry counter. */
  ghost predicate Climbs(env: Env, retryTimes: int, b: Attempt, s: Selection) {
    if env.groups.Auto? then
      && b.group <= s.group && b.group < env.groups.count
      && (if s.group == b.group then s.retry == b.retry && !s.exempt else s.retry == 0)
      && Height(b.group, b.retry, retryTimes) <= Height(s.group, s.retry, retryTimes)
      && Height(b.group, b.retry, retryTimes) + 1 <= Height(s.group, NextRetry(s), retryTimes)
    else s.group == b.group && s.retry == b.retry && !s.exempt
  }

  /** An attempt that rotates a key of the one before, or that follows its abandonment. */
  ghost predicate Shifts(cfg: Config, env: Env, before: seq<Attempt>, b: Attempt)
    requires before != []
  {
    var a := before[|before| - 1];
    && b.group == GroupDuring(a) && b.retry == RetryAfter(a, b.sticky.Some?)
    && if b.sticky.Some? then
         b.sticky == Some(a.channel) && b.channel == a.channel && b.abandoned == a.abandoned && b.selection.None?
         && RotationsOn(before, a.channel) < RotationCap(cfg)
       else
         && b.abandoned == a.abandoned + [a.channel] && b.selection.Some?
         && Climbs(env, cfg.retryTimes, b, b.selection.value)
  }

  ghost predicate Shaped(cfg: Config, env: Env, trail: seq<Attempt>) {
    trail != [] ==>
      var before, b := trail[..|trail| - 1], trail[|trail| - 1];
      && Shaped(cfg, env, before) && 0 <= b.retry <= cfg.retryTimes
      && if before == [] then b.retry == 0 && b.group == env.firstGroup && b.abandoned == [] && b.sticky.None?
        && b.selection.None?
         else Shifts(cfg, env, before, b)
  }

  lemma FollowsShifts(cfg: Config, env: Env, before: seq<Attempt>, b: Attempt)
    requires before != [] && Follows(cfg, env, before, b) && 0 <= b.retry <= cfg.retryTimes
    ensures Shifts(cfg, env, before, b)
  {
    if b.selection.Some? && env.groups.Auto? {
      ChooseClimbs(env.offers, |before|, b.model, b.allowed, env.groups, cfg.retryTimes, b.group, b.retry);
    }
  }

  lemma RetryNotNegative(cfg: Config, env: Env, trail: seq<Attempt>)
    requires trail != [] && Shaped(cfg, env, trail)
    ensures RetryDuring(trail[|trail| - 1]) >= 0
  {
  }

  lemma {:induction false} TrailShaped(cfg: Config, env: Env, model: string, trail: seq<Attempt>)
    requires TrailOk(cfg, env, model, trail)
    ensures Shaped(cfg, env, trail)
  {
    if trail != [] {
      var before, b := trail[..|trail| - 1], trail[|trail| - 1];
      TrailShaped(cfg, env, model, before);
      if before != [] {
        RetryNotNegative(cfg, env, before);
        FollowsShifts(cfg, env, before, b);
      }
    }
  }

  lemma {:induction false} CappedIfShaped(cfg: Config, env: Env, trail: seq<Attempt>, channel: int)
    requires Shaped(cfg, env, trail)
    ensures RotationsOn(trail, channel) <= RotationCap(cfg)
  {
    if trail != [] { CappedIfShaped(cfg, env, trail[..|trail| - 1], channel); }
  }

  /** The per-channel budget of extra keys is kept. */
  lemma RotationsCapped(cfg: Config, env: Env, model: string, trail: seq<Attempt>, channel: int)
    requires TrailOk(cfg, env, model, trail)
    ensures RotationsOn(trail, channel) <= RotationCap(cfg)
  {
    TrailShaped(cfg, env, model, trail);
    CappedIfShaped(cfg, env, trail, channel);
  }

  /** How the counter of an attempt compares with the abandonments before it. */
  ghost predicate Counted(env: Env, retry: int, abandoned: nat, group: nat) {
    0 <= retry <= abandoned && env.firstGroup <= group && (retry == abandoned <==> group == env.firstGroup)
  }

  lemma {:induction false} CountedIfShaped(cfg: Config, env: Env, trail: seq<Attempt>)
    requires Shaped(cfg, env, trail) && trail != []
    ensures var a := trail[|trail| - 1];
      && Counted(env, a.retry, |a.abandoned|, a.group)
      && Counted(env, RetryAfter(a, false), |a.abandoned| + 1, GroupDuring(a))
      && Counted(env, RetryAfter(a, true), |a.abandoned|, GroupDuring(a))
  {
    var before := trail[..|trail| - 1];
    if before != [] { CountedIfShaped(cfg, env, before); }
  }

  /** The retry counter never exceeds the number of abandonments, and equals it exactly as long as
      the request is in the group it began with. */
  lemma RetryCountsAbandonmentsIff(cfg: Config, env: Env, model: string, trail: seq<Attempt>)
    requires TrailOk(cfg, env, model, trail)
    ensures var v := VarsAfter(cfg, env, model, trail);
      && 0 <= v.retry <= |v.abandoned| && env.firstGroup <= v.group
      && (v.retry == |v.abandoned| <==> v.group == env.firstGroup)
  {
    TrailShaped(cfg, env, model, trail);
    if trail != [] { CountedIfShaped(cfg, env, trail); }
  }

  // ---------- the number of attempts ----------

  /** The groups a request can go through. */
  function Rounds(env: Env): nat {
    if env.groups.Auto? && env.groups.count > env.firstGroup then env.groups.count - env.firstGroup else 1
  }

  lemma HeightBound(first: nat, group: nat, count: nat, retry: int, retryTimes: int, abandoned: nat)
    requires first <= group < count && 0 <= retry <= retryTimes
    requires abandoned + Height(first, 0, retryTimes) <= Height(group, retry, retryTimes)
    ensures abandoned + 1 <= (count - first) * (retryTimes + 1)
  {
    assert (count - first) * (retryTimes + 1) == count * (retryTimes + 1) - first * (retryTimes + 1);
    NextGroup(group, count, retry, retryTimes);
  }

  /** How high a request stands above where it began bounds its abandonments. */
  lemma {:induction false} AbandonedBelowHeight(cfg: Config, env: Env, trail: seq<Attempt>)
    requires Shaped(cfg, env, trail) && trail != [] && env.groups.Auto?
    ensures var a, first := trail[|trail| - 1], Height(env.firstGroup, 0, cfg.retryTimes);
      && (a.sticky.None? ==> |a.abandoned| + first <= Height(a.group, a.retry, cfg.retryTimes))
      && |a.abandoned| + first <= Height(GroupDuring(a), RetryDuring(a), cfg.retryTimes)
      && |a.abandoned| + 1 + first <= Height(GroupDuring(a), RetryAfter(a, false), cfg.retryTimes)
  {
    var before := trail[..|trail| - 1];
    if before != [] { AbandonedBelowHeight(cfg, env, before); }
  }

  lemma {:induction false} AbandonmentsBounded(cfg: Config, env: Env, trail: seq<Attempt>)
    requires Shaped(cfg, env, trail) && trail != []
    ensures |trail[|trail| - 1].abandoned| + 1 <= Rounds(env) * (cfg.retryTimes + 1)
  {
    var before, b := trail[..|trail| - 1], trail[|trail| - 1];
    if before == [] {
      assert Rounds(env) * (cfg.retryTimes + 1) >= cfg.retryTimes + 1;
    } else if b.sticky.Some? {
      AbandonmentsBounded(cfg, env, before);
    } else {
      CountedIfShaped(cfg, env, trail);
      if env.groups.Auto? {
        AbandonedBelowHeight(cfg, env, trail);
        HeightBound(env.firstGroup, b.group, env.groups.count, b.retry, cfg.retryTimes, |b.abandoned|);
      } else {
        OneGroupStays(cfg, env, trail);
      }
    }
  }

  lemma {:induction false} OneGroupStays(cfg: Config, env: Env, trail: seq<Attempt>)
    requires Shaped(cfg, env, trail) && trail != [] && env.groups.OneGroup?
    ensures trail[|trail| - 1].group == GroupDuring(trail[|trail| - 1]) == env.firstGroup
  {
    var before := trail[..|trail| - 1];
    if before != [] { OneGroupStays(cfg, env, before); }
  }

  lemma OneMore(n: int, cap: int)
    ensures (n + 1) * (cap + 1) == n * (cap + 1) + cap + 1
  {
  }

  lemma {:induction false} AttemptsPerAbandonment(cfg: Config, env: Env, trail: seq<Attempt>)
    requires Shaped(cfg, env, trail) && trail != []
    ensures var a := trail[|trail| - 1];
      |trail| <= |a.abandoned| * (RotationCap(cfg) + 1) + 1
                 + if a.sticky.Some? then RotationsOn(trail, a.channel) else 0
  {
    var before, b := trail[..|trail| - 1], trail[|trail| - 1];
    if before != [] {
      var a := before[|before| - 1];
      AttemptsPerAbandonment(cfg, env, before);
      CappedIfShaped(cfg, env, before, a.channel);
      OneMore(|a.abandoned|, RotationCap(cfg));
    }
  }

  lemma CeilingKept(cfg: Config, env: Env, model: string, trail: seq<Attempt>)
    requires TrailOk(cfg, env, model, trail) && trail != []
    ensures |trail| <= MaxTotal(cfg) && cfg.retryTimes >= 0
  {
    TrailShaped(cfg, env, model, trail);
  }

  /** The retry budget with the keys that may be tried within each retry. */
  function Budget(cfg: Config): int { (cfg.retryTimes + 1) * (RotationCap(cfg) + 1) }

  lemma WithinRounds(abandoned: nat, rounds: nat, retries: nat, keys: nat, total: int, extra: int)
    requires abandoned + 1 <= rounds * retries && extra < keys && total <= abandoned * keys + 1 + extra
    ensures total <= rounds * (retries * keys)
  {
    assert (abandoned + 1) * keys == abandoned * keys + keys;
    TimesMonotone(abandoned + 1, rounds * retries, keys);
    TimesAssociative(rounds, retries, keys);
  }

  /** Both ceilings on the number of attempts: the configured one, and the retry budget once for
      every group the request may go through. */
  lemma AttemptsBounded(cfg: Config, env: Env, model: string, trail: seq<Attempt>)
    requires TrailOk(cfg, env, model, trail) && trail != []
    ensures |trail| <= MaxTotal(cfg) && |trail| <= Rounds(env) * Budget(cfg)
  {
    CeilingKept(cfg, env, model, trail);
    TrailShaped(cfg, env, model, trail);
    BoundedIfShaped(cfg, env, trail);
  }

  lemma BoundedIfShaped(cfg: Config, env: Env, trail: seq<Attempt>)
    requires Shaped(cfg, env, trail) && trail != []
    ensures |trail| <= Rounds(env) * Budget(cfg)
  {
    var a := trail[|trail| - 1];
    AbandonmentsBounded(cfg, env, trail);
    AttemptsPerAbandonment(cfg, env, trail);
    CappedIfShaped(cfg, env, trail, a.channel);
    WithinRounds(|a.abandoned|, Rounds(env), cfg.retryTimes + 1, RotationCap(cfg) + 1, |trail|,
                 if a.sticky.Some? then RotationsOn(trail, a.channel) else 0);
  }

  /** Without retries, or without any group, no channel is ever given up on before an attempt. */
  lemma {:induction false} NoAbandonment(cfg: Config, env: Env, trail: seq<Attempt>, i: nat)
    requires Shaped(cfg, env, trail) && i < |trail|
      && (cfg.retryTimes <= 0 || (env.groups.Auto? && env.groups.count == 0))
    ensures trail[i].abandoned == [] && trail[i].selection.None?
  {
    var before := trail[..|trail| - 1];
    if before != [] {
      NoAbandonment(cfg, env, before, |before| - 1);
      if i < |before| { NoAbandonment(cfg, env, before, i); }
    }
  }

  // ---------- when the budget is exceeded ----------

  /** A request that this configuration and these groups admit. */
  ghost predicate Possible(cfg: Config, groups: Groups, members: seq<Member>, model: string, env: Env,
                           trail: seq<Attempt>)
  {
    env.groups == groups && EnvOk(env) && TrailOk(cfg.(members := members), env, model, trail) && trail != []
  }

  ghost function Status(cfg: Config): int {
    if s :| s in cfg.keyScoped then s else 500
  }

  lemma StatusIsScoped(cfg: Config)
    ensures cfg.keyScoped == {} || Status(cfg) in cfg.keyScoped
  {
    if Status(cfg) !in cfg.keyScoped {
      assert forall s :: s !in cfg.keyScoped;
      assert cfg.keyScoped == {};
    }
  }

  ghost function Persistent(cfg: Config): ApiError { ApiError(Status(cfg), true, false, false) }

  /** Every attempt fails with a key-scoped channel error, every channel has one more key, and in
      every attempt there is a channel that was not there before; but the first group is out of
      channels by the time its retries are used up. */
  ghost function Stubborn(cfg: Config, groups: Groups): Env {
    Env(0, Multi(0), groups, 0,
        (n, g, p, m, allowed: Option<set<int>>) =>
          if (g == 0 && p >= cfg.retryTimes) || allowed.Some? then NO_OFFER else Offer([Channel(n, 1)], {}, 0),
        (n, c, tried) => if n in tried then NoKey else Multi(n),
        n => true, n => Some(Persistent(cfg)), n => true, (n, c, tried) => true, n => false, n => {})
  }

  /** Key `i` is tried in attempt `i`, and channels are numbered by the attempt that found them. */
  ghost predicate Numbered(trail: seq<Attempt>) {
    forall i | 0 <= i < |trail| ::
      trail[i].setup == Multi(i) && 0 <= trail[i].channel < |trail| && trail[i].sticky in {None, Some(trail[i].channel)}
  }

  lemma {:induction false} NewChannel(trail: seq<Attempt>, c: int)
    requires Numbered(trail) && c >= |trail|
    ensures RotationsOn(trail, c) == 0
  {
    NeverSticky(trail, c, |trail|);
    assert trail[..|trail|] == trail;
  }

  lemma {:induction false} NeverSticky(trail: seq<Attempt>, c: int, n: nat)
    requires Numbered(trail) && c >= |trail| && n <= |trail|
    ensures RotationsOn(trail[..n], c) == 0
  {
    if n > 0 {
      NeverSticky(trail, c, n - 1);
      assert trail[..n][..n - 1] == trail[..n - 1];
    }
  }

  /** The variables after `j` channels were given up on and `pos` keys of another were tried. */
  ghost predicate Stage(cfg: Config, trail: seq<Attempt>, v: Vars, j: nat, pos: nat) {
    && |trail| == j * (RotationCap(cfg) + 1) + pos && pos <= RotationCap(cfg)
    && |v.abandoned| == j && v.allowed == None && v.model == "m"
    && (v.sticky.Some? <==> pos > 0)
    && (pos > 0 ==> RotationsOn(trail, v.sticky.value) == pos - 1 && 0 <= v.sticky.value < |trail|)
    && v.retry == (if j < cfg.retryTimes then j else if j == cfg.retryTimes then (if pos == 0 then j else 0) else 1)
    && v.group == (if j < cfg.retryTimes || (j == cfg.retryTimes && pos == 0) then 0 else 1)
  }

  /** The next attempt of the stubborn request. */
  ghost function Again(cfg: Config, groups: Groups, trail: seq<Attempt>, v: Vars): Attempt {
    var env, n := Stubborn(cfg, groups), |trail|;
    Attempt(v.retry, v.group, v.abandoned, v.sticky, None, "m", None,
            if n == 0 || v.sticky.Some? then None else Some(Asked(cfg, env, n, "m", None, v.group, v.retry)),
            if v.sticky.Some? then v.sticky.value else n, Multi(n), Failed(Persistent(cfg)))
  }

  ghost predicate Exceeding(cfg: Config, groups: Groups) {
    cfg.members == [] && groups.Auto? && groups.count >= 2 && cfg.retryTimes >= 1
  }

  /** There is always a new channel; the second group is reached when the retries are used up. */
  lemma NewOffer(cfg: Config, groups: Groups, n: nat, group: nat, retry: int)
    requires Exceeding(cfg, groups) && (if group == 0 then 0 <= retry <= cfg.retryTimes else group == retry == 1)
    ensures var s := Asked(cfg, Stubborn(cfg, groups), n, "m", None, group, retry);
      && s.offer == Offer([Channel(n, 1)], {}, 0)
      && (group == 0 ==> !s.exempt && s.group == (if retry < cfg.retryTimes then 0 else 1)
                         && s.retry == (if retry < cfg.retryTimes then retry else 0))
  {
    var env := Stubborn(cfg, groups);
    if group == 0 && retry == cfg.retryTimes {
      assert env.offers(n, 0, retry, "m", None).tier == [];
      assert Asked(cfg, env, n, "m", None, 0, retry) == Asked(cfg, env, n, "m", None, 1, 0);
    }
  }

  lemma OnlyOffer(n: nat, s: Selection, abandoned: seq<int>)
    requires s.offer == Offer([Channel(n, 1)], {}, 0)
    ensures Drawn(s, abandoned, n)
  {
    var pool := Selectable(s.offer.tier, Ids(abandoned), s.offer.cooling);
    SelectableNonEmpty(s.offer.tier, Ids(abandoned), s.offer.cooling);
    SelectableRelaxes(s.offer.tier, Ids(abandoned), s.offer.cooling, pool[s.offer.choice % |pool|]);
  }

  lemma AgainMade(cfg: Config, groups: Groups, trail: seq<Attempt>, v: Vars, j: nat, pos: nat)
    requires Exceeding(cfg, groups) && Numbered(trail) && Stage(cfg, trail, v, j, pos) && |trail| <= Budget(cfg)
    ensures Made(cfg, Stubborn(cfg, groups), trail, v, Again(cfg, groups, trail, v))
    ensures v.retry <= cfg.retryTimes
  {
    var env, n, a := Stubborn(cfg, groups), |trail|, Again(cfg, groups, trail, v);
    StageInBudget(cfg, trail, v, j, pos);
    assert n !in TriedOn(trail, a.channel);
    if v.sticky.None? {
      NewOffer(cfg, groups, n, v.group, v.retry);
      if n > 0 { OnlyOffer(n, a.selection.value, v.abandoned); }
    }
  }

  lemma StageInBudget(cfg: Config, trail: seq<Attempt>, v: Vars, j: nat, pos: nat)
    requires cfg.retryTimes >= 1 && Stage(cfg, trail, v, j, pos) && |trail| <= Budget(cfg)
    ensures j <= cfg.retryTimes || (j == cfg.retryTimes + 1 && pos == 0 && |trail| == Budget(cfg))
  {
    var keys := RotationCap(cfg) + 1;
    if j > cfg.retryTimes { TimesMonotone(cfg.retryTimes + 1, j, keys); }
    if j > cfg.retryTimes + 1 {
      TimesMonotone(cfg.retryTimes + 2, j, keys);
      OneMore(cfg.retryTimes + 1, RotationCap(cfg));
    }
  }

  lemma AgainNumbered(cfg: Config, groups: Groups, trail: seq<Attempt>, v: Vars, j: nat, pos: nat)
    requires Numbered(trail) && Stage(cfg, trail, v, j, pos)
    ensures var a := Again(cfg, groups, trail, v); Numbered(trail + [a]) && RotationsOn(trail + [a], a.channel) == pos
  {
    var a := Again(cfg, groups, trail, v);
    AppendedRotation(trail, a, a.channel);
    if v.sticky.None? { NewChannel(trail, |trail|); }
  }

  /** After that attempt the key is rotated exactly while the channel has rotations left. */
  lemma AgainRotates(cfg: Config, groups: Groups, trail: seq<Attempt>, v: Vars, j: nat, pos: nat)
    requires Numbered(trail) && Stage(cfg, trail, v, j, pos) && |trail| + 1 < MaxTotal(cfg)
    ensures MayRotate(cfg, Stubborn(cfg, groups), trail + [Again(cfg, groups, trail, v)]) <==> pos < RotationCap(cfg)
  {
    var a := Again(cfg, groups, trail, v);
    AgainNumbered(cfg, groups, trail, v, j, pos);
    assert (trail + [a])[|trail|] == a;
    StatusIsScoped(cfg);
  }

  /** A channel error may always be retried on another channel. */
  lemma AgainRetryable(cfg: Config, groups: Groups, trail: seq<Attempt>, v: Vars)
    ensures Retryable(cfg, Stubborn(cfg, groups), trail + [Again(cfg, groups, trail, v)])
  {
  }

  lemma StageGrows(cfg: Config, groups: Groups, trail: seq<Attempt>, v: Vars, j: nat, pos: nat)
    returns (j': nat, pos': nat)
    requires Exceeding(cfg, groups) && Numbered(trail) && Stage(cfg, trail, v, j, pos)
    requires |trail| < Budget(cfg) < MaxTotal(cfg)
    ensures var env, longer := Stubborn(cfg, groups), trail + [Again(cfg, groups, trail, v)];
      Stage(cfg, longer, VarsAfter(cfg, env, "m", longer), j', pos') && GoesOn(cfg, env, longer)
  {
    var env, a := Stubborn(cfg, groups), Again(cfg, groups, trail, v);
    var longer := trail + [a];
    assert longer[|longer| - 1] == a;
    StageInBudget(cfg, trail, v, j, pos);
    AgainNumbered(cfg, groups, trail, v, j, pos);
    AgainRotates(cfg, groups, trail, v, j, pos);
    if v.sticky.None? { NewOffer(cfg, groups, |trail|, v.group, v.retry); }
    AgainRetryable(cfg, groups, trail, v);
    if pos < RotationCap(cfg) {
      j', pos' := j, pos + 1;
    } else {
      j', pos' := j + 1, 0;
      OneMore(j, RotationCap(cfg));
    }
  }

  lemma {:induction false} Grown(cfg: Config, groups: Groups, n: nat) returns (trail: seq<Attempt>, j: nat, pos: nat)
    requires Exceeding(cfg, groups) && n <= Budget(cfg) < MaxTotal(cfg)
    ensures var env := Stubborn(cfg, groups);
      && |trail| == n && TrailOk(cfg, env, "m", trail) && Numbered(trail)
      && (trail != [] ==> GoesOn(cfg, env, trail)) && Stage(cfg, trail, VarsAfter(cfg, env, "m", trail), j, pos)
  {
    var env := Stubborn(cfg, groups);
    if n == 0 {
      trail, j, pos := [], 0, 0;
    } else {
      var before, i, p := Grown(cfg, groups, n - 1);
      var v := VarsAfter(cfg, env, "m", before);
      trail := GrownOnce(cfg, groups, before, i, p);
      j, pos := StageGrows(cfg, groups, before, v, i, p);
    }
  }

  lemma GrownOnce(cfg: Config, groups: Groups, trail: seq<Attempt>, j: nat, pos: nat) returns (longer: seq<Attempt>)
    requires Exceeding(cfg, groups) && |trail| <= Budget(cfg) < MaxTotal(cfg)
    requires var env := Stubborn(cfg, groups);
      && TrailOk(cfg, env, "m", trail) && Numbered(trail) && (trail != [] ==> GoesOn(cfg, env, trail))
      && Stage(cfg, trail, VarsAfter(cfg, env, "m", trail), j, pos)
    ensures var env := Stubborn(cfg, groups);
      && longer == trail + [Again(cfg, groups, trail, VarsAfter(cfg, env, "m", trail))]
      && TrailOk(cfg, env, "m", longer) && Numbered(longer)
  {
    var env := Stubborn(cfg, groups);
    var v := VarsAfter(cfg, env, "m", trail);
    AgainMade(cfg, groups, trail, v, j, pos);
    AgainNumbered(cfg, groups, trail, v, j, pos);
    Extend(cfg, env, "m", trail, Again(cfg, groups, trail, v));
    longer := trail + [Again(cfg, groups, trail, v)];
  }

  /** With two groups, one retry, and a ceiling above the budget, some request exceeds the budget. */
  lemma BudgetExceeded(cfg: Config, groups: Groups) returns (trail: seq<Attempt>)
    requires Exceeding(cfg, groups) && MaxTotal(cfg) > Budget(cfg)
    ensures TrailOk(cfg, Stubborn(cfg, groups), "m", trail) && |trail| == Budget(cfg) + 1
  {
    assert Budget(cfg) >= 0;
    var before, j, pos := Grown(cfg, groups, Budget(cfg));
    trail := GrownOnce(cfg, groups, before, j, pos);
  }

  lemma StubbornOk(cfg: Config, groups: Groups)
    ensures EnvOk(Stubborn(cfg, groups))
  {
  }

  /** Without retries, with no second group to go to, or under a ceiling that is no higher. */
  predicate BudgetBinds(cfg: Config, groups: Groups) {
    cfg.retryTimes <= 0 || groups.OneGroup? || groups.count <= 1 || MaxTotal(cfg) <= Budget(cfg)
  }

  lemma BudgetKept(cfg: Config, env: Env, model: string, trail: seq<Attempt>)
    requires BudgetBinds(cfg, env.groups) && TrailOk(cfg, env, model, trail) && trail != []
    ensures |trail| <= Budget(cfg)
  {
    CeilingKept(cfg, env, model, trail);
    TrailShaped(cfg, env, model, trail);
    BudgetIfShaped(cfg, env, trail);
  }

  lemma BudgetIfShaped(cfg: Config, env: Env, trail: seq<Attempt>)
    requires BudgetBinds(cfg, env.groups) && Shaped(cfg, env, trail) && trail != []
    requires cfg.retryTimes >= 0 && |trail| <= MaxTotal(cfg)
    ensures |trail| <= Budget(cfg)
  {
    BoundedIfShaped(cfg, env, trail);
    assert env.groups.OneGroup? || env.groups.count <= 1 ==> Rounds(env) == 1;
    if cfg.retryTimes == 0 { NoRetryBudget(cfg, env, trail); }
  }

  lemma NoRetryBudget(cfg: Config, env: Env, trail: seq<Attempt>)
    requires cfg.retryTimes == 0 && Shaped(cfg, env, trail) && trail != []
    ensures |trail| <= Budget(cfg)
  {
    NoAbandonment(cfg, env, trail, |trail| - 1);
    AttemptsPerAbandonment(cfg, env, trail);
    CappedIfShaped(cfg, env, trail, trail[|trail| - 1].channel);
  }

  lemma SameBudget(cfg: Config, c: Config)
    requires c == cfg.(members := c.members)
    ensures Budget(c) == Budget(cfg) && MaxTotal(c) == MaxTotal(cfg) && c.retryTimes == cfg.retryTimes
  {
  }

  lemma BudgetBroken(cfg: Config, groups: Groups) returns (env: Env, trail: seq<Attempt>)
    requires !BudgetBinds(cfg, groups)
    ensures Possible(cfg, groups, [], "m", env, trail) && |trail| == Budget(cfg) + 1
  {
    var plain := cfg.(members := []);
    SameBudget(cfg, plain);
    trail := BudgetExceeded(plain, groups);
    env := Stubborn(plain, groups);
    StubbornOk(plain, groups);
  }

  /** Exactly when no request takes more attempts than the retry budget allows. */
  lemma BudgetHoldsIff(cfg: Config, groups: Groups)
    ensures (forall members, model, env, trail: seq<Attempt> | Possible(cfg, groups, members, model, env, trail) ::
              |trail| <= Budget(cfg))
      <==> BudgetBinds(cfg, groups)
  {
    if BudgetBinds(cfg, groups) {
      forall members, model, env, trail: seq<Attempt> | Possible(cfg, groups, members, model, env, trail)
        ensures |trail| <= Budget(cfg)
      {
        var c := cfg.(members := members);
        SameBudget(cfg, c);
        BudgetKept(c, env, model, trail);
      }
    } else {
      var env, trail := BudgetBroken(cfg, groups);
    }
  }

  // ---------- when an abandoned channel is drawn again ----------

  ghost predicate DrawsAbandoned(trail: seq<Attempt>) {
    exists i :: 0 <= i < |trail| && trail[i].channel in trail[i].abandoned
  }

  /** One channel only, with one key, failing with an error that may be retried. */
  ghost function Alone(groups: Groups): Env {
    Env(0, SingleKey, groups, 0,
        (n, g, p, m, allowed: Option<set<int>>) => if allowed.Some? then NO_OFFER else Offer([Channel(0, 1)], {}, 0),
        (n, c, tried) => SingleKey, n => true, n => Some(ApiError(500, true, false, false)), n => true,
        (n, c, tried) => true, n => false, n => {})
  }

  lemma AloneOk(groups: Groups)
    ensures EnvOk(Alone(groups))
  {
    var env := Alone(groups);
    forall n, g, p, m, allowed: Option<set<int>> | allowed.Some? ensures env.offers(n, g, p, m, allowed).tier == [] {}
  }

  /** The retry draws the channel again that was given up on. */
  lemma DrawnAgain(cfg: Config, groups: Groups) returns (trail: seq<Attempt>)
    requires cfg.retryTimes >= 1 && MaxTotal(cfg) >= 2 && (groups.Auto? ==> groups.count >= 1)
    ensures Possible(cfg, groups, [], "m", Alone(groups), trail) && DrawsAbandoned(trail)
  {
    var c, env := cfg.(members := []), Alone(groups);
    AloneOk(groups);
    var error := ApiError(500, true, false, false);
    var a := Attempt(0, 0, [], None, None, "m", None, None, 0, SingleKey, Failed(error));
    assert Starts(c, env, "m", a) && [a][..0] == [];
    assert TrailOk(c, env, "m", [a]);
    assert !MayRotate(c, env, [a]) && GoesOn(c, env, [a]);
    var s := Asked(c, env, 1, "m", None, 0, 1);
    assert env.offers(1, 0, 1, "m", None) == Offer([Channel(0, 1)], {}, 0);
    var b := Attempt(1, 0, [0], None, None, "m", None, Some(s), 0, SingleKey, Failed(error));
    OnlyOffer(0, s, [0]);
    assert Follows(c, env, [a], b);
    trail := [a, b];
    assert trail[..|trail| - 1] == [a];
    assert TrailOk(c, env, "m", trail);
    assert trail[1].channel in trail[1].abandoned;
  }

  /** Exactly when no request ever draws a channel again that it has given up on. */
  lemma NeverDrawnAgainIff(cfg: Config, groups: Groups)
    ensures (forall members, model, env, trail: seq<Attempt> | Possible(cfg, groups, members, model, env, trail) ::
      !DrawsAbandoned(trail))
      <==> cfg.retryTimes <= 0 || MaxTotal(cfg) <= 1 || (groups.Auto? && groups.count == 0)
  {
    if cfg.retryTimes <= 0 || MaxTotal(cfg) <= 1 || (groups.Auto? && groups.count == 0) {
      forall members, model, env, trail: seq<Attempt> | Possible(cfg, groups, members, model, env, trail)
        ensures !DrawsAbandoned(trail)
      {
        var c := cfg.(members := members);
        TrailShaped(c, env, model, trail);
        CeilingKept(c, env, model, trail);
        forall i | 0 <= i < |trail| ensures trail[i].abandoned == [] {
          if MaxTotal(cfg) > 1 { NoAbandonment(c, env, trail, i); }
        }
      }
    } else {
      var trail := DrawnAgain(cfg, groups);
    }
  }
}
