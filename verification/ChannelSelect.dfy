/**
How a relayed request gets a channel and a key: the filter that prefers fresh channels but relaxes
rather than fail, the weighted pick among what is left, the pick of a model-group member, and the
choice of a key of a multi-key channel.
*/
module ChannelSelect {
  import opened Basics

  datatype Channel = Channel(id: int, weight: nat)

  // ---------- preferring channels that were not given up on ----------

  function Fresh(channels: seq<Channel>, exclude: set<int>): seq<Channel> {
    if channels == [] then []
    else (if channels[0].id in exclude then [] else [channels[0]]) + Fresh(channels[1..], exclude)
  }

  /** The channels the pick is made from: fresh and not cooling down, else fresh, else all. */
  function Selectable(channels: seq<Channel>, exclude: set<int>, cooling: set<int>): seq<Channel> {
    if Fresh(channels, exclude + cooling) != [] then Fresh(channels, exclude + cooling)
    else if Fresh(channels, exclude) != [] then Fresh(channels, exclude)
    else channels
  }

  lemma {:induction false} FreshMembers(channels: seq<Channel>, exclude: set<int>)
    ensures forall c :: c in Fresh(channels, exclude) <==> c in channels && c.id !in exclude
  {
    if channels != [] { FreshMembers(channels[1..], exclude); }
  }

  lemma {:induction false} FreshPrefix(channels: seq<Channel>, exclude: set<int>, n: nat)
    requires n < |channels|
    ensures Fresh(channels[..n + 1], exclude)
         == Fresh(channels[..n], exclude) + if channels[n].id in exclude then [] else [channels[n]]
  {
    if n == 0 {
      assert channels[..1] == [channels[0]];
    } else {
      assert channels[..n + 1][1..] == channels[1..][..n];
      assert channels[..n][1..] == channels[1..][..n - 1];
      FreshPrefix(channels[1..], exclude, n - 1);
    }
  }

  method FilterSelectable(channels: seq<Channel>, exclude: set<int>, cooling: set<int>) returns (filtered: seq<Channel>)
    ensures filtered == Selectable(channels, exclude, cooling)
  {
    filtered := [];
    for i := 0 to |channels|
      invariant filtered == Fresh(channels[..i], exclude + cooling)
    {
      FreshPrefix(channels, exclude + cooling, i);
      var ch := channels[i];
      if ch.id in exclude || ch.id in cooling {
        continue;
      }
      filtered := filtered + [ch];
    }
    assert channels[..|channels|] == channels;
    if |filtered| > 0 {
      return filtered;
    }
    for i := 0 to |channels|
      invariant filtered == Fresh(channels[..i], exclude)
    {
      FreshPrefix(channels, exclude, i);
      var ch := channels[i];
      if ch.id in exclude {
        continue;
      }
      filtered := filtered + [ch];
    }
    if |filtered| > 0 {
      return filtered;
    }
    return channels;
  }

  /** Selection never fails on a non-empty tier, only offers channels of the tier, and offers a
      channel that was given up on exactly when the whole tier was given up on. */
  lemma SelectableRelaxes(channels: seq<Channel>, exclude: set<int>, cooling: set<int>, picked: Channel)
    requires picked in Selectable(channels, exclude, cooling)
    ensures picked in channels
    ensures picked.id in exclude <==> forall c | c in channels :: c.id in exclude
    ensures picked.id in exclude + cooling <==> forall c | c in channels :: c.id in exclude + cooling
  {
    FreshMembers(channels, exclude + cooling);
    FreshMembers(channels, exclude);
    if Fresh(channels, exclude + cooling) == [] {
      forall c | c in channels ensures c.id in exclude + cooling {
        assert c.id !in exclude + cooling ==> c in Fresh(channels, exclude + cooling);
      }
      if Fresh(channels, exclude) == [] {
        forall c | c in channels ensures c.id in exclude {
          assert c.id !in exclude ==> c in Fresh(channels, exclude);
        }
      }
    }
  }

  lemma {:induction false} FreshCount(channels: seq<Channel>, exclude: set<int>, c: Channel)
    ensures multiset(Fresh(channels, exclude))[c] == if c.id in exclude then 0 else multiset(channels)[c]
  {
    if channels != [] {
      FreshCount(channels[1..], exclude, c);
      assert channels == [channels[0]] + channels[1..];
    }
  }

  /** Exactly which channels are offered, each as often as it is in the tier: those that are neither
      given up on nor cooling down; if there are none, those not given up on; if there are none, all. */
  lemma SelectableIs(channels: seq<Channel>, exclude: set<int>, cooling: set<int>, c: Channel)
    ensures var best := exists d :: d in channels && d.id !in exclude && d.id !in cooling;
      var untried := exists d :: d in channels && d.id !in exclude;
      var offered := if best then c.id !in exclude && c.id !in cooling else untried ==> c.id !in exclude;
      multiset(Selectable(channels, exclude, cooling))[c] == if offered then multiset(channels)[c] else 0
  {
    FreshMembers(channels, exclude + cooling);
    FreshMembers(channels, exclude);
    FreshCount(channels, exclude + cooling, c);
    FreshCount(channels, exclude, c);
    var one, two := Fresh(channels, exclude + cooling), Fresh(channels, exclude);
    assert one != [] ==> one[0] in one;
    assert two != [] ==> two[0] in two;
    assert forall d | d in channels && d.id !in exclude && d.id !in cooling :: d in one;
    assert forall d | d in channels && d.id !in exclude :: d in two;
  }

  lemma SelectableNonEmpty(channels: seq<Channel>, exclude: set<int>, cooling: set<int>)
    requires channels != []
    ensures Selectable(channels, exclude, cooling) != []
  {
  }

  // ---------- the weighted pick ----------

  function SumWeight(channels: seq<Channel>): nat {
    if channels == [] then 0 else channels[0].weight + SumWeight(channels[1..])
  }

  /** The share of the random range given to the first `n` channels. */
  function Share(channels: seq<Channel>, n: nat, factor: nat, extra: nat): nat
    requires n <= |channels|
  {
    if n == 0 then 0 else Share(channels, n - 1, factor, extra) + channels[n - 1].weight * factor + extra
  }

  function Factor(channels: seq<Channel>): nat
    requires channels != []
  {
    if SumWeight(channels) != 0 && SumWeight(channels) / |channels| < 10 then 100 else 1
  }

  function Extra(channels: seq<Channel>): nat {
    if SumWeight(channels) == 0 then 100 else 0
  }

  /** What the random number is drawn below. */
  function TotalWeight(channels: seq<Channel>): nat
    requires channels != []
  {
    if SumWeight(channels) == 0 then |channels| * 100 else SumWeight(channels) * Factor(channels)
  }

  lemma {:induction false} SumWeightPrefix(channels: seq<Channel>, n: nat)
    requires n < |channels|
    ensures SumWeight(channels[..n + 1]) == SumWeight(channels[..n]) + channels[n].weight
  {
    if n == 0 {
      assert channels[..1] == [channels[0]];
    } else {
      assert channels[..n + 1][1..] == channels[1..][..n];
      assert channels[..n][1..] == channels[1..][..n - 1];
      SumWeightPrefix(channels[1..], n - 1);
    }
  }

  lemma {:induction false} ShareIsSum(channels: seq<Channel>, n: nat, factor: nat, extra: nat)
    requires n <= |channels|
    ensures Share(channels, n, factor, extra) == SumWeight(channels[..n]) * factor + n * extra
  {
    if n > 0 {
      ShareIsSum(channels, n - 1, factor, extra);
      SumWeightPrefix(channels, n - 1);
      OneMoreShare(SumWeight(channels[..n - 1]), channels[n - 1].weight, n - 1, factor, extra);
    }
  }

  lemma OneMoreShare(sum: nat, weight: nat, n: nat, factor: nat, extra: nat)
    ensures (sum + weight) * factor + (n + 1) * extra == sum * factor + n * extra + (weight * factor + extra)
  {
  }

  lemma SharesCoverRange(channels: seq<Channel>)
    requires channels != []
    ensures Share(channels, |channels|, Factor(channels), Extra(channels)) == TotalWeight(channels) > 0
  {
    ShareIsSum(channels, |channels|, Factor(channels), Extra(channels));
    assert channels[..|channels|] == channels;
    if SumWeight(channels) != 0 { assert Factor(channels) == 100 || Factor(channels) == 1; }
  }

  /** The random number falls into the share of the channel at this position. */
  predicate InShare(channels: seq<Channel>, random: nat, at: nat)
    requires channels != [] && at < |channels|
  {
    && Share(channels, at, Factor(channels), Extra(channels)) <= random
    && random < Share(channels, at + 1, Factor(channels), Extra(channels))
  }

  lemma {:induction false} SharesGrow(channels: seq<Channel>, i: nat, j: nat, factor: nat, extra: nat)
    requires i <= j <= |channels|
    ensures Share(channels, i, factor, extra) <= Share(channels, j, factor, extra)
  {
    if i < j { SharesGrow(channels, i, j - 1, factor, extra); }
  }

  /** The shares do not overlap. */
  lemma OneShare(channels: seq<Channel>, random: nat, i: nat, j: nat)
    requires i < |channels| && j < |channels| && InShare(channels, random, i) && InShare(channels, random, j)
    ensures i == j
  {
    if i < j { SharesGrow(channels, i + 1, j, Factor(channels), Extra(channels)); }
    if j < i { SharesGrow(channels, j + 1, i, Factor(channels), Extra(channels)); }
  }

  /** Shares are in proportion to the weights, and equal when all weights are zero. */
  lemma SharesProportional(channels: seq<Channel>, at: nat)
    requires at < |channels|
    ensures var f, x := Factor(channels), Extra(channels);
      var share := Share(channels, at + 1, f, x) - Share(channels, at, f, x);
      if SumWeight(channels) == 0 then share * |channels| == TotalWeight(channels)
      else share * SumWeight(channels) == channels[at].weight * TotalWeight(channels)
  {
    var f, w, sum := Factor(channels), channels[at].weight, SumWeight(channels);
    if sum == 0 {
      WeightAtMost(channels, at);
    } else {
      TimesAssociative(w, f, sum);
      TimesAssociative(w, sum, f);
    }
  }

  lemma AverageBelow(sum: nat, n: nat)
    requires n > 0
    ensures sum / n < 10 <==> sum < 10 * n
  {
    assert sum == sum / n * n + sum % n;
    if sum / n < 10 { TimesMonotone(sum / n, 9, n); } else { TimesMonotone(10, sum / n, n); }
  }

  /** The numbers that are drawn from: as many as the weights add up to, scaled up when these are small. */
  lemma TotalIs(channels: seq<Channel>)
    requires channels != []
    ensures var sum, n := SumWeight(channels), |channels|;
      TotalWeight(channels) == if sum == 0 then n * 100 else if sum < 10 * n then sum * 100 else sum
  {
    AverageBelow(SumWeight(channels), |channels|);
  }

  lemma {:induction false} WeightAtMost(channels: seq<Channel>, at: nat)
    requires at < |channels|
    ensures channels[at].weight <= SumWeight(channels)
  {
    if at > 0 { WeightAtMost(channels[1..], at - 1); }
  }

  /** Whatever the random number, some channel is picked, and each channel is picked for exactly
      its own share of the random numbers (the error return at the end is never reached). */
  method WeightedPick(channels: seq<Channel>, random: nat) returns (picked: Channel)
    requires channels != [] && random < TotalWeight(channels)
    ensures picked in channels
    ensures |channels| > 1 ==> exists at: nat ::
      at < |channels| && InShare(channels, random, at) && picked == channels[at]
  {
    picked := channels[0];
    if |channels| == 1 {
      return;
    }
    var sumWeight := 0;
    for i := 0 to |channels|
      invariant sumWeight == SumWeight(channels[..i])
    {
      SumWeightPrefix(channels, i);
      sumWeight := sumWeight + channels[i].weight;
    }
    assert channels[..|channels|] == channels;
    var factor, extra := 1, 0;
    if sumWeight == 0 {
      sumWeight := |channels| * 100;
      extra := 100;
    } else if sumWeight / |channels| < 10 {
      factor := 100;
    }
    var randomWeight: int := random;
    for i := 0 to |channels|
      invariant randomWeight == random - Share(channels, i, factor, extra) >= 0
      invariant factor == Factor(channels) && extra == Extra(channels)
    {
      randomWeight := randomWeight - (channels[i].weight * factor + extra);
      if randomWeight < 0 {
        assert InShare(channels, random, i);
        return channels[i];
      }
    }
    SharesCoverRange(channels);
    assert false;
  }

  // ---------- the members of a model group ----------

  datatype Member = Member(channelId: int, modelName: string)

  function FirstOutside(members: seq<Member>, exclude: set<int>): Option<nat> {
    if members == [] then None
    else if members[0].channelId !in exclude then Some(0)
    else match FirstOutside(members[1..], exclude) case None => None case Some(i) => Some(i + 1)
  }

  /** The first untried member that is not cooling down, else the first untried, else the first. */
  function GroupPick(members: seq<Member>, exclude: set<int>, cooling: set<int>): Option<nat> {
    if members == [] then None
    else if FirstOutside(members, exclude + cooling).Some? then FirstOutside(members, exclude + cooling)
    else if FirstOutside(members, exclude).Some? then FirstOutside(members, exclude)
    else Some(0)
  }

  lemma {:induction false} FirstOutsideAt(members: seq<Member>, exclude: set<int>, i: nat)
    requires i <= |members| && forall j | 0 <= j < i :: members[j].channelId in exclude
    ensures i == |members| ==> FirstOutside(members, exclude) == None
    ensures i < |members| && members[i].channelId !in exclude ==> FirstOutside(members, exclude) == Some(i)
  {
    if i > 0 {
      assert forall j | 0 <= j < i - 1 :: members[1..][j] == members[j + 1];
      FirstOutsideAt(members[1..], exclude, i - 1);
    }
  }

  lemma {:induction false} FirstOutsideMeans(members: seq<Member>, exclude: set<int>)
    ensures match FirstOutside(members, exclude)
      case None => forall m | m in members :: m.channelId in exclude
      case Some(i) =>
        && i < |members| && members[i].channelId !in exclude
        && forall j | 0 <= j < i :: members[j].channelId in exclude
  {
    if members != [] {
      FirstOutsideMeans(members[1..], exclude);
      assert forall j | 0 < j < |members| :: members[j] == members[1..][j - 1];
    }
  }

  /** A retry goes back to a member that was given up on exactly when all members were, and to one
      that is cooling down only when every other was given up on or cools down as well. It takes the
      first member of the best kind. */
  lemma GroupPickPrefers(members: seq<Member>, exclude: set<int>, cooling: set<int>)
    requires members != []
    ensures var i := GroupPick(members, exclude, cooling).value;
      && i < |members|
      && (members[i].channelId in exclude <==> forall m | m in members :: m.channelId in exclude)
      && (members[i].channelId in exclude + cooling <==> forall m | m in members :: m.channelId in exclude + cooling)
      && (members[i].channelId in exclude ==> i == 0)
      && (forall j | 0 <= j < i :: members[j].channelId in exclude
           || (members[i].channelId !in cooling && members[j].channelId in cooling))
  {
    FirstOutsideMeans(members, exclude + cooling);
    FirstOutsideMeans(members, exclude);
    assert members[0] in members;
  }

  method PickModelGroupMember(members: seq<Member>, exclude: set<int>, cooling: set<int>) returns (picked: Option<nat>)
    ensures picked == GroupPick(members, exclude, cooling)
    ensures picked.Some? ==> picked.value < |members|
  {
    if |members| == 0 {
      return None;
    }
    for i := 0 to |members|
      invariant forall j | 0 <= j < i :: members[j].channelId in exclude + cooling
    {
      if members[i].channelId !in exclude && members[i].channelId !in cooling {
        FirstOutsideAt(members, exclude + cooling, i);
        return Some(i);
      }
    }
    FirstOutsideAt(members, exclude + cooling, |members|);
    for i := 0 to |members|
      invariant forall j | 0 <= j < i :: members[j].channelId in exclude
    {
      if members[i].channelId !in exclude {
        FirstOutsideAt(members, exclude, i);
        return Some(i);
      }
    }
    FirstOutsideAt(members, exclude, |members|);
    return Some(0);
  }

  // ---------- the key of a multi-key channel ----------

  datatype Mode = Random | Polling | Other

  const ENABLED := 1

  predicate KeyEnabled(status: map<int, int>, i: int) {
    i !in status || status[i] == ENABLED
  }

  ghost predicate Eligible(n: nat, status: map<int, int>, exclude: set<int>, i: int) {
    0 <= i < n && i !in exclude && KeyEnabled(status, i)
  }

  /** Does the channel still have an enabled key that was not tried? */
  method HasUntriedEnabledKey(n: nat, status: map<int, int>, exclude: set<int>) returns (b: bool)
    ensures b <==> exists i :: 0 <= i < n && i !in exclude && (i in status ==> status[i] == 1)
  {
    for i := 0 to n
      invariant forall j | 0 <= j < i :: !Eligible(n, status, exclude, j)
    {
      if i in exclude {
        continue;
      }
      if KeyEnabled(status, i) {
        assert Eligible(n, status, exclude, i);
        return true;
      }
    }
    forall i | 0 <= i < n ensures i in exclude || (i in status && status[i] != 1) {
      assert !Eligible(n, status, exclude, i);
    }
    return false;
  }

  /** The `j`-th key position from `start` on, wrapping around. */
  function Cyclic(n: nat, start: nat, j: nat): nat
    requires n > 0
  {
    (start + j) % n
  }

  lemma CyclicReach(n: nat, start: nat, target: nat)
    requires start < n && target < n
    ensures exists j: nat :: j < n && Cyclic(n, start, j) == target
  {
    var j := if target >= start then target - start else target + n - start;
    assert Cyclic(n, start, j) == target;
  }

  ghost predicate Ascending(s: seq<nat>) { forall i, j | 0 <= i < j < |s| :: s[i] < s[j] }

  /** The usable key positions, in order. */
  method EnabledKeys(n: nat, status: map<int, int>, exclude: set<int>) returns (enabledIdx: seq<nat>)
    ensures forall j :: j in enabledIdx <==> Eligible(n, status, exclude, j)
    ensures Ascending(enabledIdx)
  {
    enabledIdx := [];
    for i := 0 to n
      invariant forall j :: j in enabledIdx <==> j < i && Eligible(n, status, exclude, j)
      invariant Ascending(enabledIdx) && forall k | 0 <= k < |enabledIdx| :: enabledIdx[k] < i
    {
      if i in exclude {
        continue;
      }
      if KeyEnabled(status, i) {
        enabledIdx := enabledIdx + [i];
      }
    }
  }

  /** Of the given keys, those not cooling down; all of them if there are none. */
  method PreferAvailable(enabledIdx: seq<nat>, cooling: set<int>) returns (availIdx: seq<nat>)
    requires enabledIdx != [] && Ascending(enabledIdx)
    ensures availIdx != [] && Ascending(availIdx)
    ensures if forall j | j in enabledIdx :: j in cooling then availIdx == enabledIdx
            else forall j :: j in availIdx <==> j in enabledIdx && j !in cooling
  {
    availIdx := [];
    for i := 0 to |enabledIdx|
      invariant forall j :: j in availIdx <==> j in enabledIdx[..i] && j !in cooling
      invariant Ascending(availIdx) && forall k | 0 <= k < |availIdx| && i < |enabledIdx| :: availIdx[k] < enabledIdx[i]
    {
      if enabledIdx[i] !in cooling {
        availIdx := availIdx + [enabledIdx[i]];
      }
    }
    assert enabledIdx[..|enabledIdx|] == enabledIdx;
    if |availIdx| == 0 {
      assert forall j | j in enabledIdx :: j !in cooling ==> j in availIdx;
      return enabledIdx;
    }
    assert availIdx[0] in availIdx;
  }

  /** `idx` is met after `steps` positions, and none of the given keys before it. */
  ghost predicate FirstAt(n: nat, availIdx: seq<nat>, start: nat, steps: nat, idx: nat) {
    steps < n && idx == Cyclic(n, start, steps) && forall j: nat | j < steps :: Cyclic(n, start, j) !in availIdx
  }

  /** The first position from `saved` on whose key is available; the fallback after the loop is
      never reached. */
  method Poll(n: nat, status: map<int, int>, availIdx: seq<nat>, saved: int) returns (idx: nat)
    requires availIdx != [] && forall j | j in availIdx :: j < n && KeyEnabled(status, j)
    ensures var start := if saved < 0 || saved >= n then 0 else saved;
      idx in availIdx && exists steps: nat :: FirstAt(n, availIdx, start, steps, idx)
  {
    var start := if saved < 0 || saved >= n then 0 else saved;
    var target := availIdx[0];
    assert target in availIdx;
    idx := target;
    for i := 0 to n
      invariant forall j: nat | j < i :: Cyclic(n, start, j) !in availIdx
    {
      if KeyEnabled(status, Cyclic(n, start, i)) && Cyclic(n, start, i) in availIdx {
        assert FirstAt(n, availIdx, start, i, Cyclic(n, start, i));
        return Cyclic(n, start, i);
      }
    }
    CyclicReach(n, start, target);
    assert false;
  }

  /** The keys to pick from, in order: enabled, not tried, and not cooling down if there are any such. */
  ghost predicate KeysToPick(n: nat, status: map<int, int>, exclude: set<int>, cooling: set<int>, keys: seq<nat>) {
    && Ascending(keys)
    && forall j :: j in keys <==>
         && Eligible(n, status, exclude, j)
         && (j !in cooling || forall i | Eligible(n, status, exclude, i) :: i in cooling)
  }

  /** Picks an enabled key that was not tried, one that is not cooling down if there is any; it
      fails exactly when `HasUntriedEnabledKey` is false. Polling takes the first such key from the
      saved position on, cyclically; the random mode takes any of them, other modes the first. */
  method NextEnabledKeyExcluding(n: nat, status: map<int, int>, exclude: set<int>, cooling: set<int>,
                                 mode: Mode, saved: int, random: nat) returns (picked: Option<nat>)
    ensures picked.None? <==> forall i | 0 <= i < n :: i in exclude || (i in status && status[i] != 1)
    ensures picked.Some? ==>
      && picked.value < n && picked.value !in exclude
      && (picked.value in status ==> status[picked.value] == 1)
    ensures picked.Some? ==> exists keys ::
      && KeysToPick(n, status, exclude, cooling, keys) && picked.value in keys
      && (mode == Random ==> picked.value == keys[random % |keys|]) && (mode == Other ==> picked.value == keys[0])
    ensures picked.Some? && picked.value in cooling ==> forall i | Eligible(n, status, exclude, i) :: i in cooling
    ensures picked.Some? && mode == Polling ==>
      var start := if saved < 0 || saved >= n then 0 else saved;
      exists steps: nat :: steps < n && picked.value == Cyclic(n, start, steps)
        && forall j: nat | j < steps && Eligible(n, status, exclude, Cyclic(n, start, j)) ::
             Cyclic(n, start, j) in cooling && picked.value !in cooling
  {
    if n == 0 {
      return None;
    }
    var enabledIdx := EnabledKeys(n, status, exclude);
    if |enabledIdx| == 0 {
      assert forall i :: Eligible(n, status, exclude, i) ==> i in enabledIdx;
      forall i | 0 <= i < n ensures i in exclude || (i in status && status[i] != 1) {
        assert !Eligible(n, status, exclude, i);
      }
      return None;
    }
    assert enabledIdx[0] in enabledIdx;
    var availIdx := PreferAvailable(enabledIdx, cooling);
    assert forall i :: Eligible(n, status, exclude, i) ==> i in enabledIdx;
    assert forall i | i in availIdx :: i in enabledIdx;
    assert KeysToPick(n, status, exclude, cooling, availIdx);
    assert Eligible(n, status, exclude, enabledIdx[0]);
    match mode
    case Random =>
      assert availIdx[random % |availIdx|] in availIdx;
      return Some(availIdx[random % |availIdx|]);
    case Polling =>
      var idx := Poll(n, status, availIdx, saved);
      return Some(idx);
    case Other =>
      assert availIdx[0] in availIdx;
      return Some(availIdx[0]);
  }
}
