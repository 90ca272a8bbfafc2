/**
Which token group a fresh channel is asked from. A token of the "auto" group goes through a list of
groups: it stays with a group until that has no channel, or, with cross-group retry, until the
retries are used up in it; each time it moves on, the retry counter starts again at zero.
*/
module GroupSelect {
  import opened Basics
  import opened ChannelSelect

  datatype Groups = OneGroup | Auto(count: nat, cross: bool)

  /** A candidate tier with its cooling channels; `choice` stands for the weighted draw. An empty
      tier is the "no channel" answer. */
  datatype Offer = Offer(tier: seq<Channel>, cooling: set<int>, choice: nat)

  const NO_OFFER := Offer([], {}, 0)

  /** What a group offers: attempt, group index, priority retry, model, allowed channels. */
  type Offers = (nat, nat, int, string, Option<set<int>>) -> Offer

  /** An offer, with the group index and the retry counter it leaves; `exempt`: the next increment
      of the counter is left out. */
  datatype Selection = Selection(offer: Offer, group: nat, retry: int, exempt: bool)

  /** The selection from `group` on, with the retry counter at `retry`. */
  function Choose(offers: Offers, n: nat, model: string, allowed: Option<set<int>>, groups: Groups, retryTimes: int,
                  group: nat, retry: int): Selection
    decreases if groups.Auto? then groups.count - group else 0
  {
    match groups
    case OneGroup => Selection(offers(n, group, retry, model, allowed), group, retry, false)
    case Auto(count, cross) =>
      if group >= count then Selection(NO_OFFER, group, retry, false)
      else
        var o := offers(n, group, retry, model, allowed);
        if o.tier == [] then Choose(offers, n, model, allowed, groups, retryTimes, group + 1, 0)
        else if cross && retry >= retryTimes then Selection(o, group + 1, 0, true)
        else Selection(o, group, retry, false)
  }

  /** `CacheGetRandomSatisfiedChannel` */
  method SelectChannel(offers: Offers, n: nat, model: string, allowed: Option<set<int>>, groups: Groups,
                       retryTimes: int, startGroup: nat, startRetry: int) returns (s: Selection)
    ensures s == Choose(offers, n, model, allowed, groups, retryTimes, startGroup, startRetry)
  {
    if groups.OneGroup? {
      return Selection(offers(n, startGroup, startRetry, model, allowed), startGroup, startRetry, false);
    }
    var groupIndex, retry := startGroup, startRetry;
    var i := startGroup;
    while i < groups.count
      invariant i == groupIndex && (i > startGroup ==> retry == 0)
      invariant Choose(offers, n, model, allowed, groups, retryTimes, i, retry)
             == Choose(offers, n, model, allowed, groups, retryTimes, startGroup, startRetry)
    {
      var priorityRetry := if i > startGroup then 0 else retry;
      var offer := offers(n, i, priorityRetry, model, allowed);
      if |offer.tier| == 0 {
        groupIndex, retry := i + 1, 0;
        i := i + 1;
        continue;
      }
      if groups.cross && priorityRetry >= retryTimes {
        return Selection(offer, i + 1, 0, true);
      }
      return Selection(offer, i, retry, false);
    }
    return Selection(NO_OFFER, groupIndex, retry, false);
  }

  /** What is offered: by the one group of the token, or else by the first group from the current one on
      that has a channel to offer, the later ones being asked with a fresh counter. The request stays
      with that group, unless it may change groups and has used up the retries in this one. */
  lemma {:induction false} ChooseTakesFirst(offers: Offers, n: nat, model: string, allowed: Option<set<int>>,
                                            groups: Groups, retryTimes: int, group: nat, retry: int)
    returns (g: nat)
    ensures var s := Choose(offers, n, model, allowed, groups, retryTimes, group, retry);
      && (groups.OneGroup? ==> s == Selection(offers(n, group, retry, model, allowed), group, retry, false))
      && (groups.Auto? ==>
            && group <= g
            && (group < g && group < groups.count ==> offers(n, group, retry, model, allowed).tier == [])
            && (forall h: nat | group < h < g && h < groups.count :: offers(n, h, 0, model, allowed).tier == [])
            && if g >= groups.count
               then s == Selection(Offer([], {}, 0), g, if g == group then retry else 0, false)
               else
                 var asked := if g == group then retry else 0;
                 && offers(n, g, asked, model, allowed).tier != [] && s.offer == offers(n, g, asked, model, allowed)
                 && if groups.cross && asked >= retryTimes then s.group == g + 1 && s.retry == 0 && s.exempt
                    else s.group == g && s.retry == asked && !s.exempt)
    decreases if groups.Auto? then groups.count - group else 0
  {
    g := group;
    if groups.Auto? && group < groups.count && offers(n, group, retry, model, allowed).tier == [] {
      g := ChooseTakesFirst(offers, n, model, allowed, groups, retryTimes, group + 1, 0);
    }
  }

  function NextRetry(s: Selection): int { if s.exempt then s.retry else s.retry + 1 }

  /** How far a request has come through its groups. */
  function Height(group: int, retry: int, retryTimes: int): int { group * (retryTimes + 1) + retry }

  lemma NextGroup(group: int, higher: int, retry: int, retryTimes: int)
    requires group < higher && 0 <= retry <= retryTimes
    ensures Height(group, retry, retryTimes) + 1 <= Height(higher, 0, retryTimes)
  {
    TimesMonotone(group + 1, higher, retryTimes + 1);
    assert (group + 1) * (retryTimes + 1) == group * (retryTimes + 1) + retryTimes + 1;
  }

  /** A selection moves to a later group exactly when it starts the counter again; every selection
      comes closer to the end of the groups. */
  lemma {:induction false} ChooseClimbs(offers: Offers, n: nat, model: string, allowed: Option<set<int>>,
                                        groups: Groups, retryTimes: int, group: nat, retry: int)
    requires groups.Auto? && 0 <= retry <= retryTimes
    requires Choose(offers, n, model, allowed, groups, retryTimes, group, retry).offer.tier != []
    ensures var s := Choose(offers, n, model, allowed, groups, retryTimes, group, retry);
      && group <= s.group && group < groups.count
      && (if s.group == group then s.retry == retry && !s.exempt else s.retry == 0)
      && Height(group, retry, retryTimes) <= Height(s.group, s.retry, retryTimes)
      && Height(group, retry, retryTimes) + 1 <= Height(s.group, NextRetry(s), retryTimes)
    decreases groups.count - group
  {
    var s := Choose(offers, n, model, allowed, groups, retryTimes, group, retry);
    if offers(n, group, retry, model, allowed).tier == [] {
      ChooseClimbs(offers, n, model, allowed, groups, retryTimes, group + 1, 0);
      NextGroup(group, group + 1, retry, retryTimes);
      assert s.group >= group + 1;
    } else if s.exempt {
      NextGroup(group, group + 1, retry, retryTimes);
    }
  }

  /** What is offered keeps within the allowed channels. */
  ghost predicate Constrained(offers: Offers) {
    forall n, g, p, m, allowed: Option<set<int>> {:trigger offers(n, g, p, m, allowed)} :: allowed.Some? ==>
      forall c | c in offers(n, g, p, m, allowed).tier :: c.id in allowed.value
  }

  lemma {:induction false} ChooseConstrained(offers: Offers, n: nat, model: string, allowed: Option<set<int>>,
                                             groups: Groups, retryTimes: int, group: nat, retry: int)
    requires Constrained(offers) && allowed.Some?
    ensures forall c | c in Choose(offers, n, model, allowed, groups, retryTimes, group, retry).offer.tier ::
      c.id in allowed.value
    decreases if groups.Auto? then groups.count - group else 0
  {
    if groups.Auto? && group < groups.count && offers(n, group, retry, model, allowed).tier == [] {
      ChooseConstrained(offers, n, model, allowed, groups, retryTimes, group + 1, 0);
    }
  }
}
