/**
Reconciling a channel's models with what its upstream offers: detecting additions and removals,
applying the selected ones, synchronizing automatically, and the scan over all channels.

`re(body, name)` stands for the regular-expression match of an ignore rule.
*/
module UpstreamUpdate {
  import opened ModelNames

  const REGEX := "regex:"

  predicate HasRegexPrefix(rule: string) {
    REGEX <= rule
  }

  predicate Matches(re: (string, string) -> bool, rule: string, name: string) {
    if HasRegexPrefix(rule) then re(Trim(rule[|REGEX|..]), name) else rule == name
  }

  predicate Ignored(re: (string, string) -> bool, rules: seq<string>, name: string) {
    exists rule :: rule in rules && Matches(re, rule, name)
  }

  lemma RegexPrefixIs(rule: string)
    ensures HasRegexPrefix(rule) <==> exists body :: rule == "regex:" + body
    ensures HasRegexPrefix(rule) ==> rule == "regex:" + rule[6..]
  {
    if HasRegexPrefix(rule) {
      var body := rule[6..];
      assert rule == "regex:" + body;
    }
    if body :| rule == "regex:" + body { assert rule[..6] == "regex:"; }
  }

  /** A name is ignored by a rule that is this name, or by one that begins with `regex:` and whose rest,
      without outer spaces, matches it. */
  lemma IgnoredIff(re: (string, string) -> bool, rules: seq<string>, name: string)
    ensures Ignored(re, rules, name)
      <==> || (exists body, r :: r in rules && r == "regex:" + body && re(Trim(body), name))
           || (name in rules && !(exists body :: name == "regex:" + body))
  {
    RegexPrefixIs(name);
    if rule :| rule in rules && Matches(re, rule, name) { RegexPrefixIs(rule); }
    if body, r :| r in rules && r == "regex:" + body && re(Trim(body), name) {
      assert r[6..] == body && Matches(re, r, name);
    }
    if name in rules && !HasRegexPrefix(name) { assert Matches(re, name, name); }
  }

  /** The names of `s` that some rule ignores. */
  function IgnoredIn(re: (string, string) -> bool, rules: seq<string>, s: seq<string>): set<string> {
    set x | x in s && Ignored(re, rules, x)
  }

  // ---------- detection ----------

  function PendingAdd(local: seq<string>, upstream: seq<string>, ignored: seq<string>, mapping: map<string, string>,
                      re: (string, string) -> bool): seq<string>
  {
    var u := Normalize(upstream);
    Normalize(Without(u, Names(Normalize(local)) + mapping.Values + IgnoredIn(re, Normalize(ignored), u)))
  }

  function PendingRemove(local: seq<string>, upstream: seq<string>, mapping: map<string, string>): seq<string> {
    Normalize(Without(Normalize(local), mapping.Keys + Names(Normalize(upstream))))
  }

  function ApplySelected(origin: seq<string>, add: seq<string>, remove: seq<string>): seq<string> {
    var a := Normalize(add);
    Subtract(Merge(origin, a), Subtract(Normalize(remove), a))
  }

  /** Exactly what is added and removed: removal spares what is added at the same time, what stays
      keeps its order, and what is new follows in the order it was asked for. */
  lemma ApplySelectedIs(origin: seq<string>, add: seq<string>, remove: seq<string>)
    ensures var o, a, r := Normalize(origin), Normalize(add), Names(Normalize(remove)) - Names(Normalize(add));
      && ApplySelected(origin, add, remove) == Without(o, r) + Without(a, Names(o))
      && Normalized(ApplySelected(origin, add, remove))
  {
    var o, a := Normalize(origin), Normalize(add);
    NormalizeIsNormalized(add);
    NormalizeIsNormalized(remove);
    NormalizeNormalized(a);
    NormalizeNormalized(Normalize(remove));
    MergeIs(origin, a);
    NormalizeNormalized(Merge(origin, a));
    SubtractIs(Normalize(remove), a);
    NormalizeNormalized(Subtract(Normalize(remove), a));
    var r := Names(Subtract(Normalize(remove), a));
    SubtractIs(Merge(origin, a), Subtract(Normalize(remove), a));
    WithoutConcat(o, Without(a, Names(o)), r);
    WithoutMembers(a, Names(o));
    WithoutNone(Without(a, Names(o)), r);
  }

  // ---------- a channel ----------

  datatype Fetch = Fetched(models: seq<string>) | FetchFailed

  class Channel {
    var models: string  // comma-separated
    const mapping: map<string, string>
    var ignored: seq<string>
    var lastDetected: seq<string>
    var lastRemoved: seq<string>
    var lastCheckTime: int
    const autoSync: bool

    constructor (models: string, mapping: map<string, string>, ignored: seq<string>, autoSync: bool)
      ensures this.models == models && this.mapping == mapping && this.ignored == ignored && this.autoSync == autoSync
      ensures lastDetected == [] && lastRemoved == [] && lastCheckTime == 0
    {
      this.models, this.mapping, this.ignored, this.autoSync := models, mapping, ignored, autoSync;
      lastDetected, lastRemoved, lastCheckTime := [], [], 0;
    }

    /** `checkAndPersistChannelUpstreamModelUpdates`; what is persisted is these fields. */
    method CheckAndPersist(fetch: Fetch, re: (string, string) -> bool, now: int, minInterval: int, force: bool,
                           allowAutoApply: bool)
      returns (modelsChanged: bool, autoAdded: nat, failed: bool)
      modifies this`models, this`lastDetected, this`lastRemoved, this`lastCheckTime
      ensures var skipped := !force && old(lastCheckTime) > 0 && now - old(lastCheckTime) < minInterval;
        var local := GetModels(old(models));
        && (skipped ==> unchanged(this) && !modelsChanged && autoAdded == 0 && !failed)
        && (!skipped ==> lastCheckTime == now && (failed <==> fetch.FetchFailed?))
        && (!skipped && fetch.FetchFailed? ==>
              models == old(models) && lastDetected == old(lastDetected) && lastRemoved == old(lastRemoved)
              && !modelsChanged && autoAdded == 0)
        && (!skipped && fetch.Fetched? ==>
              var adds := PendingAdd(local, fetch.models, ignored, mapping, re);
              && lastRemoved == PendingRemove(local, fetch.models, mapping)
              && if allowAutoApply && autoSync && adds != [] then
                   models == Join(Normalize(local) + adds) && modelsChanged && autoAdded == |adds| && lastDetected == []
                 else models == old(models) && !modelsChanged && autoAdded == 0 && lastDetected == adds)
    {
      modelsChanged, autoAdded, failed := false, 0, false;
      if !force && lastCheckTime > 0 && now - lastCheckTime < minInterval {
        return;
      }
      lastCheckTime := now;
      if fetch.FetchFailed? {
        failed := true;
        return;
      }
      var pendingAdd := PendingAdd(GetModels(models), fetch.models, ignored, mapping, re);
      var pendingRemove := PendingRemove(GetModels(models), fetch.models, mapping);
      if allowAutoApply && autoSync && |pendingAdd| > 0 {
        var origin := Normalize(GetModels(models));
        NewNamesExtend(GetModels(models), fetch.models, ignored, mapping, re);
        var merged := MergeModelNames(origin, pendingAdd);
        if |merged| > |origin| {
          models := Join(merged);
          autoAdded := |merged| - |origin|;
          modelsChanged := true;
        }
        lastDetected := [];
      } else {
        lastDetected := pendingAdd;
      }
      lastRemoved := pendingRemove;
    }

    /** `applyChannelUpstreamModelUpdates` */
    method Apply(addInput: seq<string>, ignoreInput: seq<string>, removeInput: seq<string>, now: int)
      returns (added: seq<string>, removed: seq<string>, remaining: seq<string>, remainingRemove: seq<string>,
               modelsChanged: bool)
      modifies this`models, this`ignored, this`lastDetected, this`lastRemoved, this`lastCheckTime
      ensures lastCheckTime == now && lastDetected == remaining && lastRemoved == remainingRemove
      ensures added == Intersect(addInput, Normalize(old(lastDetected)))
      ensures removed == Subtract(Intersect(removeInput, Normalize(old(lastRemoved))), added)
      ensures var ignoring := Intersect(ignoreInput, Normalize(old(lastDetected)));
        && ignored == IgnoredAfter(old(ignored), ignoring, added)
        && remaining == Subtract(Normalize(old(lastDetected)), added + ignoring)
      ensures remainingRemove == Subtract(Normalize(old(lastRemoved)), removed)
      ensures var origin := Normalize(GetModels(old(models))); var next := ApplySelected(origin, added, removed);
        && (modelsChanged <==> origin != next)
        && models == if modelsChanged then Join(next) else old(models)
    {
      var pendingAdd := Normalize(lastDetected);
      var pendingRemove := Normalize(lastRemoved);
      added := Intersect(addInput, pendingAdd);
      var ignoring := Intersect(ignoreInput, pendingAdd);
      removed := Intersect(removeInput, pendingRemove);
      removed := Subtract(removed, added);
      var origin := Normalize(GetModels(models));
      var next := ApplySelected(origin, added, removed);
      modelsChanged := origin != next;
      if modelsChanged {
        models := Join(next);
      }
      var rules := MergeModelNames(ignored, ignoring);
      if |added| > 0 {
        rules := Subtract(rules, added);
      }
      ignored := rules;
      remaining := Subtract(pendingAdd, added + ignoring);
      remainingRemove := Subtract(pendingRemove, removed);
      lastDetected, lastRemoved, lastCheckTime := remaining, remainingRemove, now;
    }
  }

  function IgnoredAfter(ignored: seq<string>, ignoring: seq<string>, added: seq<string>): seq<string> {
    if |added| > 0 then Subtract(Merge(ignored, ignoring), added) else Merge(ignored, ignoring)
  }

  /** Pending additions are new, so synchronizing appends all of them to the models as they are. */
  lemma NewNamesExtend(local: seq<string>, upstream: seq<string>, ignored: seq<string>, mapping: map<string, string>,
                       re: (string, string) -> bool)
    ensures var adds := PendingAdd(local, upstream, ignored, mapping, re);
      Merge(Normalize(local), adds) == Normalize(local) + adds
  {
    var u := Normalize(upstream);
    var out := Names(Normalize(local)) + mapping.Values + IgnoredIn(re, Normalize(ignored), u);
    NormalizeIsNormalized(upstream);
    NormalizeIsNormalized(local);
    WithoutNormalized(u, out);
    NormalizeNormalized(Without(u, out));
    NormalizeNormalized(Normalize(local));
    WithoutMembers(u, out);
    WithoutNone(Without(u, out), Names(Normalize(local)));
  }

  // ---------- detecting again after applying ----------

  lemma PendingAddIs(local: seq<string>, upstream: seq<string>, ignored: seq<string>, mapping: map<string, string>,
                     re: (string, string) -> bool)
    ensures var adds := PendingAdd(local, upstream, ignored, mapping, re); var u := Normalize(upstream);
      && Normalized(adds)
      && adds == Without(u, Names(Normalize(local)) + mapping.Values + IgnoredIn(re, Normalize(ignored), u))
      && forall x ::
        x in adds <==> x in u && x !in Normalize(local) && x !in mapping.Values && !Ignored(re, Normalize(ignored), x)
  {
    var u := Normalize(upstream);
    var out := Names(Normalize(local)) + mapping.Values + IgnoredIn(re, Normalize(ignored), u);
    NormalizeIsNormalized(upstream);
    WithoutNormalized(u, out);
    NormalizeNormalized(Without(u, out));
    WithoutMembers(u, out);
  }

  lemma PendingRemoveIs(local: seq<string>, upstream: seq<string>, mapping: map<string, string>)
    ensures var removes := PendingRemove(local, upstream, mapping);
      && Normalized(removes)
      && removes == Without(Normalize(local), mapping.Keys + Names(Normalize(upstream)))
      && forall x :: x in removes <==> x in Normalize(local) && x !in mapping.Keys && x !in Normalize(upstream)
  {
    var l, out := Normalize(local), mapping.Keys + Names(Normalize(upstream));
    NormalizeIsNormalized(local);
    WithoutNormalized(l, out);
    NormalizeNormalized(Without(l, out));
    WithoutMembers(l, out);
  }

  lemma IgnoredAfterIs(ignored: seq<string>, ignoring: seq<string>, added: seq<string>)
    requires Normalized(ignoring) && Normalized(added)
    ensures Normalized(IgnoredAfter(ignored, ignoring, added))
    ensures forall x ::
      x in IgnoredAfter(ignored, ignoring, added) <==> (x in Normalize(ignored) || x in ignoring) && x !in added
  {
    NormalizeNormalized(ignoring);
    NormalizeNormalized(added);
    MergeIs(ignored, ignoring);
    var merged := Merge(ignored, ignoring);
    NormalizeNormalized(merged);
    SubtractIs(merged, added);
    assert forall x :: x in merged <==> x in Names(merged);
    assert forall x :: x in Subtract(merged, added) <==> x in Names(Subtract(merged, added));
  }

  /** Ignoring plain names adds exactly those names to what is ignored. */
  lemma RulesAfter(re: (string, string) -> bool, ignored: seq<string>, ignoring: seq<string>, added: seq<string>,
                   name: string)
    requires Normalized(ignoring) && Normalized(added) && name !in added
    requires forall x | x in ignoring || x in added :: !HasRegexPrefix(x)
    ensures Ignored(re, IgnoredAfter(ignored, ignoring, added), name)
      <==> Ignored(re, Normalize(ignored), name) || name in ignoring
  {
    IgnoredAfterIs(ignored, ignoring, added);
    var after := IgnoredAfter(ignored, ignoring, added);
    if rule :| rule in Normalize(ignored) && Matches(re, rule, name) { assert rule in after; }
    if name in ignoring { assert name in after && Matches(re, name, name); }
    if rule :| rule in after && Matches(re, rule, name) { assert rule in ignoring ==> rule == name; }
  }

  /** A choice among the pending changes. */
  datatype Choice = Choice(added: seq<string>, ignoring: seq<string>, removed: seq<string>, next: seq<string>,
                           ignored: seq<string>)

  function Chosen(local: seq<string>, ignored: seq<string>, adds: seq<string>, removes: seq<string>,
                  addInput: seq<string>, ignoreInput: seq<string>, removeInput: seq<string>): Choice
  {
    var added, ignoring := Intersect(addInput, adds), Intersect(ignoreInput, adds);
    var removed := Subtract(Intersect(removeInput, removes), added);
    Choice(added, ignoring, removed, ApplySelected(Normalize(local), added, removed),
           IgnoredAfter(ignored, ignoring, added))
  }

  lemma ChosenIs(local: seq<string>, ignored: seq<string>, adds: seq<string>, removes: seq<string>,
                 addInput: seq<string>, ignoreInput: seq<string>, removeInput: seq<string>)
    requires Normalized(adds) && Normalized(removes)
    ensures var c := Chosen(local, ignored, adds, removes, addInput, ignoreInput, removeInput);
      var l := Normalize(local);
      && Normalized(c.added) && Normalized(c.ignoring) && Normalized(c.removed) && Normalized(c.next)
        && Normalized(c.ignored)
      && Names(c.added) <= Names(adds) && Names(c.ignoring) <= Names(adds) && Names(c.removed) <= Names(removes)
      && Names(c.removed) !! Names(c.added)
      && c.next == Without(l, Names(c.removed)) + Without(c.added, Names(l))
  {
    var c := Chosen(local, ignored, adds, removes, addInput, ignoreInput, removeInput);
    NormalizeNormalized(adds);
    NormalizeNormalized(removes);
    IntersectIs(addInput, adds);
    IntersectIs(ignoreInput, adds);
    IntersectIs(removeInput, removes);
    NormalizeNormalized(c.added);
    NormalizeNormalized(Intersect(removeInput, removes));
    SubtractIs(Intersect(removeInput, removes), c.added);
    NormalizeNormalized(c.removed);
    NormalizeIsNormalized(local);
    NormalizeNormalized(Normalize(local));
    ApplySelectedIs(Normalize(local), c.added, c.removed);
    assert Names(c.removed) - Names(c.added) == Names(c.removed);
    IgnoredAfterIs(ignored, c.ignoring, c.added);
  }

  lemma NextMembers(l: seq<string>, added: seq<string>, removed: seq<string>, next: seq<string>, x: string)
    requires next == Without(l, Names(removed)) + Without(added, Names(l))
    ensures x in next <==> (x in l && x !in removed) || (x in added && x !in l)
  {
    WithoutMembers(l, Names(removed));
    WithoutMembers(added, Names(l));
  }

  lemma SubtractNormalized(s: seq<string>, t: seq<string>)
    requires Normalized(s)
    ensures Subtract(s, t) == Without(s, Names(Normalize(t)))
  {
    NormalizeNormalized(s);
  }

  lemma NormalizeConcatNames(s: seq<string>, t: seq<string>)
    requires Normalized(s) && Normalized(t)
    ensures Names(Normalize(s + t)) == Names(s) + Names(t)
  {
    NormalizeIsNormalized(s + t);
    forall x | x in s + t ensures Trim(x) == x && x != "" { TrimIsTrimmed(x); }
    forall x | x in Names(s) + Names(t) ensures x in Normalize(s + t) { assert x in s + t && Trim(x) == x; }
  }

  /** What a choice is made of. */
  ghost predicate ChoiceOk(local: seq<string>, ignored: seq<string>, adds: seq<string>, removes: seq<string>,
                           c: Choice, u: seq<string>)
  {
    && Normalized(c.added) && Normalized(c.ignoring) && Normalized(c.removed) && Normalized(c.next)
      && Normalized(c.ignored)
    && Names(c.added) <= Names(adds) && Names(c.ignoring) <= Names(adds) && Names(c.removed) <= Names(removes)
    && c.ignored == IgnoredAfter(ignored, c.ignoring, c.added)
    && c.next == Without(Normalize(local), Names(c.removed)) + Without(c.added, Names(Normalize(local)))
    && (forall r | r in removes :: r !in u) && (forall a | a in adds :: a in u && a !in Normalize(local))
  }

  lemma ChoiceIsOk(local: seq<string>, upstream: seq<string>, ignored: seq<string>, mapping: map<string, string>,
                   re: (string, string) -> bool,
                   addInput: seq<string>, ignoreInput: seq<string>, removeInput: seq<string>)
    ensures var adds := PendingAdd(local, upstream, ignored, mapping, re);
      var removes := PendingRemove(local, upstream, mapping);
      ChoiceOk(local, ignored, adds, removes,
               Chosen(local, ignored, adds, removes, addInput, ignoreInput, removeInput), Normalize(upstream))
  {
    var adds, removes := PendingAdd(local, upstream, ignored, mapping, re), PendingRemove(local, upstream, mapping);
    PendingAddIs(local, upstream, ignored, mapping, re);
    PendingRemoveIs(local, upstream, mapping);
    ChosenIs(local, ignored, adds, removes, addInput, ignoreInput, removeInput);
  }

  /** One upstream name, before and after the choice. */
  lemma ChosenAt(local: seq<string>, ignored: seq<string>, adds: seq<string>, removes: seq<string>, c: Choice,
                 re: (string, string) -> bool, u: seq<string>, x: string)
    requires x in u && ChoiceOk(local, ignored, adds, removes, c, u)
    requires forall a | a in adds :: !HasRegexPrefix(a)
    ensures (x in c.next || Ignored(re, c.ignored, x))
       <==> (x in Normalize(local) || Ignored(re, Normalize(ignored), x) || x in c.added || x in c.ignoring)
  {
    NextMembers(Normalize(local), c.added, c.removed, c.next, x);
    assert x in c.removed ==> x in Names(removes);
    assert forall a | a in c.added || a in c.ignoring :: a in Names(adds);
    if x !in c.added { RulesAfter(re, ignored, c.ignoring, c.added, x); }
  }

  lemma WithoutShift(s: seq<string>, before: set<string>, after: set<string>, done: set<string>)
    requires forall x | x in s :: x in after <==> x in before || x in done
    ensures Without(s, after) == Without(Without(s, before), done)
  {
    WithoutAgrees(s, after, before + done);
    WithoutTwice(s, before, done);
  }

  lemma AddsAfterChoice(local: seq<string>, upstream: seq<string>, ignored: seq<string>, mapping: map<string, string>,
                        re: (string, string) -> bool,
                        adds: seq<string>, removes: seq<string>, c: Choice)
    requires ChoiceOk(local, ignored, adds, removes, c, Normalize(upstream))
    requires adds == PendingAdd(local, upstream, ignored, mapping, re) && forall x | x in adds :: !HasRegexPrefix(x)
    ensures PendingAdd(c.next, upstream, c.ignored, mapping, re) == Without(adds, Names(c.added) + Names(c.ignoring))
  {
    var u := Normalize(upstream);
    var before := Names(Normalize(local)) + mapping.Values + IgnoredIn(re, Normalize(ignored), u);
    var after := Names(c.next) + mapping.Values + IgnoredIn(re, c.ignored, u);
    forall x | x in u ensures x in after <==> x in before || x in Names(c.added) + Names(c.ignoring) {
      ChosenAt(local, ignored, adds, removes, c, re, u, x);
    }
    WithoutShift(u, before, after, Names(c.added) + Names(c.ignoring));
    NormalizeNormalized(c.next);
    NormalizeNormalized(c.ignored);
    PendingAddIs(local, upstream, ignored, mapping, re);
    PendingAddIs(c.next, upstream, c.ignored, mapping, re);
  }

  /** Whatever subsets of the pending changes are added, ignored and removed: detecting again against
      the same upstream yields exactly the additions that were left, in the same order. */
  lemma RemainingAdds(local: seq<string>, upstream: seq<string>, ignored: seq<string>, mapping: map<string, string>,
                      re: (string, string) -> bool,
                      addInput: seq<string>, ignoreInput: seq<string>, removeInput: seq<string>)
    requires forall x | x in PendingAdd(local, upstream, ignored, mapping, re) :: !HasRegexPrefix(x)
    ensures var adds := PendingAdd(local, upstream, ignored, mapping, re);
      var removes := PendingRemove(local, upstream, mapping);
      var c := Chosen(local, ignored, adds, removes, addInput, ignoreInput, removeInput);
      PendingAdd(c.next, upstream, c.ignored, mapping, re) == Subtract(adds, c.added + c.ignoring)
  {
    var adds, removes := PendingAdd(local, upstream, ignored, mapping, re), PendingRemove(local, upstream, mapping);
    var c := Chosen(local, ignored, adds, removes, addInput, ignoreInput, removeInput);
    ChoiceIsOk(local, upstream, ignored, mapping, re, addInput, ignoreInput, removeInput);
    AddsAfterChoice(local, upstream, ignored, mapping, re, adds, removes, c);
    NormalizeConcatNames(c.added, c.ignoring);
    NormalizeNormalized(adds) by { PendingAddIs(local, upstream, ignored, mapping, re); }
  }

  lemma RemovesAfterChoice(local: seq<string>, upstream: seq<string>, ignored: seq<string>,
                           mapping: map<string, string>,
                           adds: seq<string>, removes: seq<string>, c: Choice)
    requires ChoiceOk(local, ignored, adds, removes, c, Normalize(upstream))
    requires removes == PendingRemove(local, upstream, mapping)
    ensures PendingRemove(c.next, upstream, mapping) == Without(removes, Names(c.removed))
  {
    var l, out, gone := Normalize(local), mapping.Keys + Names(Normalize(upstream)), Names(c.removed);
    var extra := Without(c.added, Names(l));
    WithoutConcat(Without(l, gone), extra, out);
    WithoutMembers(c.added, Names(l));
    assert forall x | x in c.added :: x in Names(adds);
    WithoutAll(extra, out);
    WithoutTwice(l, gone, out);
    WithoutTwice(l, out, gone);
    assert gone + out == out + gone;
    NormalizeNormalized(c.next);
    PendingRemoveIs(local, upstream, mapping);
    PendingRemoveIs(c.next, upstream, mapping);
  }

  /** ... and exactly the removals that were left, in the same order. */
  lemma RemainingRemoves(local: seq<string>, upstream: seq<string>, ignored: seq<string>,
                         mapping: map<string, string>, re: (string, string) -> bool,
                         addInput: seq<string>, ignoreInput: seq<string>, removeInput: seq<string>)
    ensures var adds := PendingAdd(local, upstream, ignored, mapping, re);
      var removes := PendingRemove(local, upstream, mapping);
      var c := Chosen(local, ignored, adds, removes, addInput, ignoreInput, removeInput);
      PendingRemove(c.next, upstream, mapping) == Subtract(removes, c.removed)
  {
    var adds, removes := PendingAdd(local, upstream, ignored, mapping, re), PendingRemove(local, upstream, mapping);
    var c := Chosen(local, ignored, adds, removes, addInput, ignoreInput, removeInput);
    ChoiceIsOk(local, upstream, ignored, mapping, re, addInput, ignoreInput, removeInput);
    RemovesAfterChoice(local, upstream, ignored, mapping, adds, removes, c);
    NormalizeNormalized(c.removed);
    NormalizeNormalized(removes) by { PendingRemoveIs(local, upstream, mapping); }
  }

  lemma SubtractAll(s: seq<string>, t: seq<string>)
    requires Normalized(s) && Normalized(t) && Names(s) <= Names(t)
    ensures Subtract(s, t) == []
  {
    NormalizeNormalized(s);
    NormalizeNormalized(t);
    forall x | x in s ensures x in Names(t) { assert x in Names(s); }
    WithoutAll(s, Names(t));
  }

  /** Applying everything leaves nothing pending. */
  lemma ApplyingAllIsFixpoint(local: seq<string>, upstream: seq<string>, ignored: seq<string>,
                              mapping: map<string, string>, re: (string, string) -> bool)
    requires forall x | x in PendingAdd(local, upstream, ignored, mapping, re) :: !HasRegexPrefix(x)
    ensures var adds := PendingAdd(local, upstream, ignored, mapping, re);
      var removes := PendingRemove(local, upstream, mapping);
      var c := Chosen(local, ignored, adds, removes, adds, [], removes);
      PendingAdd(c.next, upstream, c.ignored, mapping, re) == [] && PendingRemove(c.next, upstream, mapping) == []
  {
    var adds, removes := PendingAdd(local, upstream, ignored, mapping, re), PendingRemove(local, upstream, mapping);
    var c := Chosen(local, ignored, adds, removes, adds, [], removes);
    RemainingAdds(local, upstream, ignored, mapping, re, adds, [], removes);
    RemainingRemoves(local, upstream, ignored, mapping, re, adds, [], removes);
    PendingAddIs(local, upstream, ignored, mapping, re);
    PendingRemoveIs(local, upstream, mapping);
    ChosenIs(local, ignored, adds, removes, adds, [], removes);
    NormalizeNormalized(adds);
    NormalizeNormalized(removes);
    IntersectIs(adds, adds);
    IntersectIs(removes, removes);
    NormalizeNormalized(Intersect(removes, removes));
    NormalizeNormalized(c.added);
    SubtractIs(Intersect(removes, removes), c.added);
    assert Names(removes) !! Names(adds);
    NormalizeConcatNames(c.added, c.ignoring);
    NormalizeIsNormalized(c.added + c.ignoring);
    SubtractNormalized(adds, c.added + c.ignoring);
    forall x | x in adds ensures x in Names(c.added) + Names(c.ignoring) { assert x in Names(adds); }
    WithoutAll(adds, Names(c.added) + Names(c.ignoring));
    SubtractAll(removes, c.removed);
  }

  lemma EmptyOrInhabited(s: seq<string>)
    ensures s == [] || exists x :: x in s
  {
    if |s| > 0 { assert s[0] in s; }
  }

  /** Automatic synchronization takes in every pending addition at once and changes no removal. */
  lemma AutoSyncLeavesNothing(local: seq<string>, upstream: seq<string>, ignored: seq<string>,
                              mapping: map<string, string>, re: (string, string) -> bool)
    ensures var adds := PendingAdd(local, upstream, ignored, mapping, re); var synced := Normalize(local) + adds;
      && Normalized(synced)
      && PendingAdd(synced, upstream, ignored, mapping, re) == []
      && PendingRemove(synced, upstream, mapping) == PendingRemove(local, upstream, mapping)
  {
    var adds, l := PendingAdd(local, upstream, ignored, mapping, re), Normalize(local);
    var synced, out := l + adds, mapping.Keys + Names(Normalize(upstream));
    NormalizeIsNormalized(local);
    PendingAddIs(local, upstream, ignored, mapping, re);
    DistinctConcat(l, adds);
    NormalizeNormalized(synced);
    PendingAddIs(synced, upstream, ignored, mapping, re);
    var left := PendingAdd(synced, upstream, ignored, mapping, re);
    EmptyOrInhabited(left);
    PendingRemoveIs(local, upstream, mapping);
    PendingRemoveIs(synced, upstream, mapping);
    WithoutConcat(l, adds, out);
    WithoutAll(adds, out);
  }

  lemma ChoiceCommaFree(models: string, ignored: seq<string>, adds: seq<string>, removes: seq<string>, c: Choice,
                        u: seq<string>)
    requires ChoiceOk(GetModels(models), ignored, adds, removes, c, u) && CommaFree(u)
    ensures CommaFree(c.next) && GetModels(Join(c.next)) == c.next
  {
    StoredNamesCommaFree(models);
    forall x | x in c.next ensures ',' !in x {
      NextMembers(Normalize(GetModels(models)), c.added, c.removed, c.next, x);
      assert x in c.added ==> x in Names(adds);
    }
    StoredNamesReadBack(c.next);
  }

  /** Detection looks at the normalized local names only. */
  lemma LocalNormalized(local: seq<string>, upstream: seq<string>, ignored: seq<string>, mapping: map<string, string>,
                        re: (string, string) -> bool)
    ensures PendingAdd(Normalize(local), upstream, ignored, mapping, re)
      == PendingAdd(local, upstream, ignored, mapping, re)
    ensures PendingRemove(Normalize(local), upstream, mapping) == PendingRemove(local, upstream, mapping)
  {
    NormalizeIsNormalized(local);
    NormalizeNormalized(Normalize(local));
  }

  /** What one round of detecting and applying comes to. */
  lemma RoundFacts(models: string, upstream: seq<string>, ignored: seq<string>, mapping: map<string, string>,
                   re: (string, string) -> bool,
                   addInput: seq<string>, ignoreInput: seq<string>, removeInput: seq<string>)
    requires CommaFree(Normalize(upstream)) && forall x | x in Normalize(upstream) :: !HasRegexPrefix(x)
    ensures var local := GetModels(models);
      var adds, removes := PendingAdd(local, upstream, ignored, mapping, re), PendingRemove(local, upstream, mapping);
      var c := Chosen(local, ignored, adds, removes, addInput, ignoreInput, removeInput);
      && Normalize(adds) == adds && Normalize(removes) == removes
      && GetModels(Join(c.next)) == c.next == Normalize(c.next)
      && PendingAdd(c.next, upstream, c.ignored, mapping, re) == Subtract(adds, c.added + c.ignoring)
      && PendingRemove(c.next, upstream, mapping) == Subtract(removes, c.removed)
  {
    var local := GetModels(models);
    var adds, removes := PendingAdd(local, upstream, ignored, mapping, re), PendingRemove(local, upstream, mapping);
    var c := Chosen(local, ignored, adds, removes, addInput, ignoreInput, removeInput);
    PendingAddIs(local, upstream, ignored, mapping, re);
    PendingRemoveIs(local, upstream, mapping);
    NormalizeNormalized(adds);
    NormalizeNormalized(removes);
    ChoiceIsOk(local, upstream, ignored, mapping, re, addInput, ignoreInput, removeInput);
    ChoiceCommaFree(models, ignored, adds, removes, c, Normalize(upstream));
    ChosenIs(local, ignored, adds, removes, addInput, ignoreInput, removeInput);
    NormalizeNormalized(c.next);
    RemainingAdds(local, upstream, ignored, mapping, re, addInput, ignoreInput, removeInput);
    RemainingRemoves(local, upstream, ignored, mapping, re, addInput, ignoreInput, removeInput);
  }

  /** What a channel holds after a detection and an application of this choice. */
  ghost predicate Applied(ch: Channel, adds: seq<string>, removes: seq<string>, c: Choice)
    reads ch
  {
    && Normalize(GetModels(ch.models)) == c.next && ch.ignored == c.ignored
    && ch.lastDetected == Subtract(adds, c.added + c.ignoring) && ch.lastRemoved == Subtract(removes, c.removed)
  }

  /** Detecting again would find what is recorded. */
  ghost predicate Settled(ch: Channel, upstream: seq<string>, re: (string, string) -> bool)
    reads ch
  {
    var local := Normalize(GetModels(ch.models));
    && ch.lastDetected == PendingAdd(local, upstream, ch.ignored, ch.mapping, re)
    && ch.lastRemoved == PendingRemove(local, upstream, ch.mapping)
  }

  method DetectAgain(ch: Channel, upstream: seq<string>, re: (string, string) -> bool, now: int)
    requires Settled(ch, upstream, re)
    modifies ch
    ensures ch.models == old(ch.models) && ch.ignored == old(ch.ignored)
    ensures ch.lastDetected == old(ch.lastDetected) && ch.lastRemoved == old(ch.lastRemoved)
  {
    LocalNormalized(GetModels(ch.models), upstream, ch.ignored, ch.mapping, re);
    var _, _, _ := ch.CheckAndPersist(Fetched(upstream), re, now, 0, true, false);
  }

  method DetectApply(ch: Channel, upstream: seq<string>, re: (string, string) -> bool, now: int,
                     addInput: seq<string>, ignoreInput: seq<string>, removeInput: seq<string>)
    requires CommaFree(Normalize(upstream)) && forall x | x in Normalize(upstream) :: !HasRegexPrefix(x)
    modifies ch
    ensures var local, ignored := GetModels(old(ch.models)), old(ch.ignored);
      var adds := PendingAdd(local, upstream, ignored, ch.mapping, re);
      var removes := PendingRemove(local, upstream, ch.mapping);
      Applied(ch, adds, removes, Chosen(local, ignored, adds, removes, addInput, ignoreInput, removeInput))
    ensures Settled(ch, upstream, re)
  {
    RoundFacts(ch.models, upstream, ch.ignored, ch.mapping, re, addInput, ignoreInput, removeInput);
    var _, _, _ := ch.CheckAndPersist(Fetched(upstream), re, now, 0, true, false);
    var _, _, _, _, _ := ch.Apply(addInput, ignoreInput, removeInput, now);
  }

  /** End to end, through the comma-separated form in which a channel stores its models: after a
      detection, applying any selection and detecting again reports what the application said would
      remain, and changes nothing. */
  method DetectApplyDetect(ch: Channel, upstream: seq<string>, re: (string, string) -> bool, now: int,
                           addInput: seq<string>, ignoreInput: seq<string>, removeInput: seq<string>)
    returns (remaining: seq<string>, remainingRemove: seq<string>)
    requires CommaFree(Normalize(upstream)) && forall x | x in Normalize(upstream) :: !HasRegexPrefix(x)
    modifies ch
    ensures var local, ignored := GetModels(old(ch.models)), old(ch.ignored);
      var adds := PendingAdd(local, upstream, ignored, ch.mapping, re);
      var removes := PendingRemove(local, upstream, ch.mapping);
      var c := Chosen(local, ignored, adds, removes, addInput, ignoreInput, removeInput);
      && remaining == Subtract(adds, c.added + c.ignoring) && remainingRemove == Subtract(removes, c.removed)
      && Applied(ch, adds, removes, c)
    ensures ch.lastDetected == remaining && ch.lastRemoved == remainingRemove
  {
    DetectApply(ch, upstream, re, now, addInput, ignoreInput, removeInput);
    remaining, remainingRemove := ch.lastDetected, ch.lastRemoved;
    DetectAgain(ch, upstream, re, now);
  }
}
