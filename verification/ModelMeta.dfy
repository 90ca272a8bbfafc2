/**
Filling in what the model list shows about each model: one batched query for the exact models, one
for all models matched by a rule, and one pass over the prices, instead of queries for each model.
*/
module ModelMeta {
  import opened Basics

  datatype Rule = Exact | Prefix | Contains | Suffix | Unknown

  datatype BoundChannel = BoundChannel(id: int, name: string, kind: int)

  /** One row of the join of channels and their models. */
  datatype Row = Row(model: string, channel: BoundChannel)

  /** The id determines the channel. */
  ghost predicate Consistent(rows: seq<Row>) {
    forall r, t | r in rows && t in rows && r.channel.id == t.channel.id :: r.channel == t.channel
  }

  /** Endpoints as given, or as the JSON text of a list. */
  datatype Endpoints = Text(s: string) | Json(list: seq<string>)

  datatype Model = Model(name: string, rule: Rule, endpoints: Endpoints, boundChannels: seq<BoundChannel>,
                         enableGroups: seq<string>, quotaTypes: seq<int>, matchedModels: seq<string>, matchedCount: int)

  datatype Pricing = Pricing(name: string, endpoints: seq<string>, groups: seq<string>, quotaType: int)

  /** What is cached about a model name; a missing entry reads as an empty list. */
  datatype Cache = Cache(endpoints: map<string, seq<string>>, groups: map<string, seq<string>>,
      quotaTypes: map<string, seq<int>>)

  function At<T>(m: map<string, seq<T>>, name: string): seq<T> { if name in m then m[name] else [] }

  const NO_ENDPOINTS := Text("")

  // ---------- what is to be filled in, model by model ----------

  predicate InfixAt(s: string, t: string, i: nat) { i + |t| <= |s| && s[i..i + |t|] == t }

  predicate HasInfix(s: string, t: string) { exists i: nat | i <= |s| - |t| :: InfixAt(s, t, i) }

  predicate Matches(m: Model, name: string) {
    match m.rule
    case Prefix => m.name <= name
    case Suffix => |m.name| <= |name| && name[|name| - |m.name|..] == m.name
    case Contains => HasInfix(name, m.name)
    case _ => false
  }

  /** Which names a rule matches. */
  lemma MatchesIff(m: Model, name: string)
    ensures Matches(m, name) <==>
      || (m.rule == Prefix && exists more :: name == m.name + more)
      || (m.rule == Suffix && exists more :: name == more + m.name)
      || (m.rule == Contains && exists front, more :: name == front + m.name + more)
  {
    match m.rule
    case Prefix =>
      if Matches(m, name) { assert name == m.name + name[|m.name|..]; }
    case Suffix =>
      if Matches(m, name) { assert name == name[..|name| - |m.name|] + m.name; }
      if more :| name == more + m.name { assert name[|name| - |m.name|..] == m.name; }
    case Contains =>
      if i: nat :| i <= |name| - |m.name| && InfixAt(name, m.name, i) {
        assert name == name[..i] + m.name + name[i + |m.name|..];
      }
      if front, more :| name == front + m.name + more { assert InfixAt(name, m.name, |front|); }
    case _ =>
  }

  function MatchedNames(m: Model, pricings: seq<Pricing>): seq<string> {
    if pricings == [] then []
    else
      var p := pricings[|pricings| - 1];
      MatchedNames(m, pricings[..|pricings| - 1]) + if Matches(m, p.name) then [p.name] else []
  }

  function EndpointUnion(m: Model, pricings: seq<Pricing>): set<string> {
    set p, e | p in pricings && Matches(m, p.name) && e in p.endpoints :: e
  }

  function GroupUnion(m: Model, pricings: seq<Pricing>): set<string> {
    set p, g | p in pricings && Matches(m, p.name) && g in p.groups :: g
  }

  function QuotaUnion(m: Model, pricings: seq<Pricing>): set<int> {
    set p | p in pricings && Matches(m, p.name) :: p.quotaType
  }

  /** The channels bound to a model name, as a query for this name alone lists them. */
  function Bound(rows: seq<Row>, name: string): seq<BoundChannel> {
    if rows == [] then []
    else var r := rows[|rows| - 1]; Bound(rows[..|rows| - 1], name) + if r.model == name then [r.channel] else []
  }

  function ChannelUnion(names: seq<string>, rows: seq<Row>): set<BoundChannel> {
    set r | r in rows && r.model in names :: r.channel
  }

  ghost predicate Lists<T(!new)>(list: seq<T>, s: set<T>) {
    && (forall i, j | 0 <= i < j < |list| :: list[i] != list[j])
    && forall x :: x in list <==> x in s
  }

  ghost predicate Ascending(list: seq<int>) {
    forall i, j | 0 <= i < j < |list| :: list[i] < list[j]
  }

  ghost predicate AscendingIds(list: seq<BoundChannel>) {
    forall i, j | 0 <= i < j < |list| :: list[i].id < list[j].id
  }

  /** The exact models: everything is looked up under the name of the model. */
  function ExactFilled(m: Model, rows: seq<Row>, cache: Cache): Model {
    m.(endpoints := if m.endpoints == NO_ENDPOINTS then Json(At(cache.endpoints, m.name)) else m.endpoints,
       boundChannels := Bound(rows, m.name),
       enableGroups := At(cache.groups, m.name),
       quotaTypes := At(cache.quotaTypes, m.name))
  }

  /** The other models: unions over the matched prices and over the channels of the matched names.
      Quota types and channels come in ascending order, endpoints and groups in any order. */
  ghost predicate RuleFilled(m: Model, n: Model, pricings: seq<Pricing>, rows: seq<Row>) {
    var names := MatchedNames(m, pricings);
    && n.name == m.name && n.rule == m.rule && n.matchedModels == names && n.matchedCount == |names|
    && (if names != [] && m.endpoints == NO_ENDPOINTS then n.endpoints.Json?
      && Lists(n.endpoints.list, EndpointUnion(m, pricings))
        else n.endpoints == m.endpoints)
    && (if names == [] then n.enableGroups == m.enableGroups && n.quotaTypes == m.quotaTypes
        else Lists(n.enableGroups, GroupUnion(m, pricings))
             && Ascending(n.quotaTypes) && Lists(n.quotaTypes, QuotaUnion(m, pricings)))
    && (if ChannelUnion(names, rows) == {} then n.boundChannels == m.boundChannels
        else AscendingIds(n.boundChannels) && Lists(n.boundChannels, ChannelUnion(names, rows)))
  }

  /** Every model is filled in as if it had been looked up by itself. */
  ghost predicate Filled(before: Option<Model>, after: Option<Model>, pricings: seq<Pricing>, exactRows: seq<Row>,
                         ruleRows: seq<Row>, cache: Cache)
  {
    match before
    case None => after.None?
    case Some(m) => after.Some? && if m.rule == Exact then after.value == ExactFilled(m, exactRows, cache)
                                   else RuleFilled(m, after.value, pricings, ruleRows)
  }

  /** Where the rows of a model name are. */
  function RowsOf(rows: seq<Row>, name: string): set<nat> { set j: nat | j < |rows| && rows[j].model == name }

  lemma OneMoreRowOf(rows: seq<Row>, last: Row, name: string)
    ensures RowsOf(rows + [last], name) == RowsOf(rows, name) + if last.model == name then {|rows|} else {}
  {
  }

  lemma {:induction false} BoundCount(rows: seq<Row>, name: string)
    ensures |Bound(rows, name)| == |RowsOf(rows, name)|
  {
    if rows != [] {
      BoundCount(rows[..|rows| - 1], name);
      OneMoreRowOf(rows[..|rows| - 1], rows[|rows| - 1], name);
      assert rows == rows[..|rows| - 1] + [rows[|rows| - 1]];
    }
  }

  /** The channels of a name: one for each row of this name, in the order of the rows. */
  lemma {:induction false} BoundAt(rows: seq<Row>, name: string, i: nat)
    requires i < |rows| && rows[i].model == name
    ensures |Bound(rows, name)| == |RowsOf(rows, name)|
    ensures var k := |RowsOf(rows[..i], name)|; k < |Bound(rows, name)| && Bound(rows, name)[k] == rows[i].channel
  {
    BoundCount(rows, name);
    var init := rows[..|rows| - 1];
    if i < |init| {
      BoundAt(init, name, i);
      assert init[..i] == rows[..i];
    } else {
      BoundCount(init, name);
    }
  }

  /** What an exact model is filled with: its own rows, and what is cached under its name; endpoints that
      were given stay, and so does everything else. */
  lemma ExactMeans(m: Model, rows: seq<Row>, cache: Cache)
    ensures var n := ExactFilled(m, rows, cache);
      && n.name == m.name && n.rule == m.rule
      && n.matchedModels == m.matchedModels && n.matchedCount == m.matchedCount
      && n.endpoints == (if m.endpoints != Text("") then m.endpoints
                         else Json(if m.name in cache.endpoints then cache.endpoints[m.name] else []))
      && n.enableGroups == (if m.name in cache.groups then cache.groups[m.name] else [])
      && n.quotaTypes == (if m.name in cache.quotaTypes then cache.quotaTypes[m.name] else [])
      && forall c :: c in n.boundChannels <==> Row(m.name, c) in rows
  {
    BoundMembers(rows, m.name);
  }

  /** The names a rule model matches: one for each price whose name it matches, in the order of the prices. */
  lemma {:induction false} MatchedCount(m: Model, pricings: seq<Pricing>)
    ensures |MatchedNames(m, pricings)| == |MatchedAt(m, pricings)|
  {
    if pricings != [] {
      var init, last := pricings[..|pricings| - 1], pricings[|pricings| - 1];
      MatchedCount(m, init);
      OneMoreMatched(m, init, last);
      assert pricings == init + [last];
    }
  }

  lemma OneMoreMatched(m: Model, pricings: seq<Pricing>, p: Pricing)
    ensures MatchedAt(m, pricings + [p]) == MatchedAt(m, pricings) + if Matches(m, p.name) then {|pricings|} else {}
  {
  }

  function MatchedAt(m: Model, pricings: seq<Pricing>): set<nat> {
    set j: nat | j < |pricings| && Matches(m, pricings[j].name)
  }

  lemma {:induction false} MatchedInOrder(m: Model, pricings: seq<Pricing>, i: nat)
    requires i < |pricings| && Matches(m, pricings[i].name)
    ensures |MatchedNames(m, pricings)| == |MatchedAt(m, pricings)|
    ensures var k := |MatchedAt(m, pricings[..i])|;
      k < |MatchedNames(m, pricings)| && MatchedNames(m, pricings)[k] == pricings[i].name
  {
    MatchedCount(m, pricings);
    var init := pricings[..|pricings| - 1];
    if i < |init| {
      MatchedInOrder(m, init, i);
      assert init[..i] == pricings[..i];
    } else {
      MatchedCount(m, init);
    }
  }

  /** What a rule model that matches some name is filled with: the endpoints, unless some were given, the
      groups and the quota types of the prices it matches, and the channels bound to their names. */
  lemma RuleMeans(m: Model, n: Model, pricings: seq<Pricing>, rows: seq<Row>)
    requires RuleFilled(m, n, pricings, rows) && exists p :: p in pricings && Matches(m, p.name)
    ensures n.name == m.name && n.rule == m.rule && n.matchedCount == |n.matchedModels|
    ensures m.endpoints != Text("") ==> n.endpoints == m.endpoints
    ensures m.endpoints == Text("") ==>
      && n.endpoints.Json?
      && forall e :: e in n.endpoints.list <==> exists p :: p in pricings && Matches(m, p.name) && e in p.endpoints
    ensures forall g :: g in n.enableGroups <==> exists p :: p in pricings && Matches(m, p.name) && g in p.groups
    ensures forall q :: q in n.quotaTypes <==> exists p :: p in pricings && Matches(m, p.name) && p.quotaType == q
    ensures (exists r :: r in rows && r.model in n.matchedModels) ==>
      forall c :: c in n.boundChannels <==> exists r :: r in rows && r.model in n.matchedModels && r.channel == c
    ensures !(exists r :: r in rows && r.model in n.matchedModels) ==> n.boundChannels == m.boundChannels
    ensures forall x :: x in n.matchedModels <==> exists p :: p in pricings && Matches(m, p.name) && p.name == x
  {
    var p :| p in pricings && Matches(m, p.name);
    MatchIsNamed(m, pricings, p);
    MatchedMembers(m, pricings);
    if r :| r in rows && r.model in n.matchedModels {
      assert r.channel in ChannelUnion(n.matchedModels, rows);
    }
  }

  lemma {:induction false} MatchedMembers(m: Model, pricings: seq<Pricing>)
    ensures forall x ::
      x in MatchedNames(m, pricings) <==> exists p :: p in pricings && Matches(m, p.name) && p.name == x
  {
    if pricings != [] {
      var init, last := pricings[..|pricings| - 1], pricings[|pricings| - 1];
      MatchedMembers(m, init);
      assert forall p :: p in pricings <==> p in init || p == last;
    }
  }

  /** ... each once, quota types in ascending order and channels in the order of their ids. */
  lemma RuleOrder(m: Model, n: Model, pricings: seq<Pricing>, rows: seq<Row>, i: nat, j: nat)
    requires RuleFilled(m, n, pricings, rows) && exists p :: p in pricings && Matches(m, p.name)
    requires i < j
    ensures m.endpoints == Text("") ==>
      n.endpoints.Json? && (j < |n.endpoints.list| ==> n.endpoints.list[i] != n.endpoints.list[j])
    ensures j < |n.enableGroups| ==> n.enableGroups[i] != n.enableGroups[j]
    ensures j < |n.quotaTypes| ==> n.quotaTypes[i] < n.quotaTypes[j]
    ensures (exists r :: r in rows && r.model in n.matchedModels) && j < |n.boundChannels| ==>
      n.boundChannels[i].id < n.boundChannels[j].id
  {
    var p :| p in pricings && Matches(m, p.name);
    MatchIsNamed(m, pricings, p);
    if r :| r in rows && r.model in n.matchedModels {
      assert r.channel in ChannelUnion(n.matchedModels, rows);
    }
  }

  /** A rule model that matches no name keeps everything but the list of matched names. */
  lemma UnmatchedMeans(m: Model, n: Model, pricings: seq<Pricing>, rows: seq<Row>)
    requires RuleFilled(m, n, pricings, rows) && forall p | p in pricings :: !Matches(m, p.name)
    ensures n == m.(matchedModels := [], matchedCount := 0)
  {
    NothingMatched(m, pricings);
  }

  lemma {:induction false} NothingMatched(m: Model, pricings: seq<Pricing>)
    requires forall p | p in pricings :: !Matches(m, p.name)
    ensures MatchedNames(m, pricings) == []
  {
    if pricings != [] { NothingMatched(m, pricings[..|pricings| - 1]); }
  }

  /** Exact models are filled as such, all others by their rule, and missing ones stay missing. */
  lemma FilledMeans(before: Option<Model>, after: Option<Model>, pricings: seq<Pricing>, exactRows: seq<Row>,
                    ruleRows: seq<Row>, cache: Cache)
    requires Filled(before, after, pricings, exactRows, ruleRows, cache)
    ensures after.Some? <==> before.Some?
    ensures before.Some? && before.value.rule == Exact ==> after.value == ExactFilled(before.value, exactRows, cache)
    ensures before.Some? && before.value.rule != Exact ==> RuleFilled(before.value, after.value, pricings, ruleRows)
  {
  }

  // ---------- splitting the list ----------

  predicate IsExact(o: Option<Model>) { o.Some? && o.value.rule == Exact }
  predicate IsRule(o: Option<Model>) { o.Some? && o.value.rule != Exact }

  /** `indices` are the exact models of this name among the first `n`. */
  ghost predicate Indexes(models: seq<Option<Model>>, n: nat, name: string, indices: seq<int>) {
    && n <= |models| && Ascending(indices)
    && forall i | i in indices :: 0 <= i < n && IsExact(models[i]) && models[i].value.name == name
  }

  ghost predicate ExactSplit(models: seq<Option<Model>>, n: nat, exactIdx: map<string, seq<int>>) {
    && n <= |models| && (forall name | name in exactIdx :: Indexes(models, n, name, exactIdx[name]))
    && forall i | 0 <= i < n && IsExact(models[i]) ::
        models[i].value.name in exactIdx && i in exactIdx[models[i].value.name]
  }

  ghost predicate RuleSplit(models: seq<Option<Model>>, n: nat, ruleIndices: seq<int>) {
    && n <= |models| && Ascending(ruleIndices)
    && forall i :: i in ruleIndices <==> 0 <= i < n && IsRule(models[i])
  }

  method Split(models: seq<Option<Model>>)
    returns (exactNames: seq<string>, exactIdx: map<string, seq<int>>, ruleIndices: seq<int>)
    ensures ExactSplit(models, |models|, exactIdx) && RuleSplit(models, |models|, ruleIndices)
    ensures forall name :: name in exactNames <==> name in exactIdx
  {
    exactNames, exactIdx, ruleIndices := [], map[], [];
    for i := 0 to |models|
      invariant ExactSplit(models, i, exactIdx) && RuleSplit(models, i, ruleIndices)
      invariant forall name :: name in exactNames <==> name in exactIdx
    {
      if models[i].None? {
        continue;
      }
      var m := models[i].value;
      if m.rule == Exact {
        exactNames := exactNames + [m.name];
        AddExact(models, i, exactIdx);
        exactIdx := exactIdx[m.name := At(exactIdx, m.name) + [i]];
      } else {
        AppendAscending(ruleIndices, i);
        ruleIndices := ruleIndices + [i];
      }
    }
  }

  lemma AppendAscending(list: seq<int>, x: int)
    requires Ascending(list) && forall y | y in list :: y < x
    ensures Ascending(list + [x])
  {
    forall j | 0 <= j < |list| ensures list[j] < x { assert list[j] in list; }
  }

  lemma AddExact(models: seq<Option<Model>>, i: nat, exactIdx: map<string, seq<int>>)
    requires i < |models| && ExactSplit(models, i, exactIdx) && IsExact(models[i])
    ensures var name := models[i].value.name; ExactSplit(models, i + 1, exactIdx[name := At(exactIdx, name) + [i]])
  {
    var name := models[i].value.name;
    var was, now := At(exactIdx, name), exactIdx[name := At(exactIdx, name) + [i]];
    assert name in exactIdx ==> Indexes(models, i, name, exactIdx[name]);
    AppendAscending(was, i);
    forall x | x in now ensures Indexes(models, i + 1, x, now[x]) {
      assert x in exactIdx ==> Indexes(models, i, x, exactIdx[x]);
    }
    forall j | 0 <= j < i + 1 && IsExact(models[j]) ensures models[j].value.name in now
      && j in now[models[j].value.name] {
      assert j == i ==> (was + [i])[|was|] == i;
    }
  }

  // ---------- the batched query ----------

  /** `GetBoundChannelsByModelsMap`: the rows of these names, grouped by name. */
  method GetBoundChannels(names: seq<string>, rows: seq<Row>) returns (result: map<string, seq<BoundChannel>>)
    ensures forall n | n in names :: At(result, n) == Bound(rows, n)
  {
    result := map[];
    for i := 0 to |rows|
      invariant forall n | n in names :: At(result, n) == Bound(rows[..i], n)
    {
      assert rows[..i + 1][..i] == rows[..i];
      if rows[i].model in names {
        result := result[rows[i].model := At(result, rows[i].model) + [rows[i].channel]];
      }
    }
    assert rows[..|rows|] == rows;
  }

  lemma {:induction false} BoundMembers(rows: seq<Row>, name: string)
    ensures forall c :: c in Bound(rows, name) <==> Row(name, c) in rows
  {
    if rows != [] { BoundMembers(rows[..|rows| - 1], name); }
  }

  // ---------- exact models ----------

  method FillExact(models: array<Option<Model>>, exactIdx: map<string, seq<int>>,
                   channels: map<string, seq<BoundChannel>>, ghost rows: seq<Row>, cache: Cache)
    requires ExactSplit(models[..], models.Length, exactIdx)
    requires forall name | name in exactIdx :: At(channels, name) == Bound(rows, name)
    modifies models
    ensures forall i | 0 <= i < models.Length ::
      models[i] == if IsExact(old(models[i])) then Some(ExactFilled(old(models[i]).value, rows, cache))
          else old(models[i])
  {
    ghost var before := models[..];
    var todo := exactIdx.Keys;
    while exists name :: name in todo
      invariant todo <= exactIdx.Keys
      invariant forall i | 0 <= i < models.Length ::
        models[i] == if Reached(before[i], todo) then Some(ExactFilled(before[i].value, rows, cache)) else before[i]
      decreases |todo|
    {
      var name :| name in todo;
      var indices := exactIdx[name];
      assert Indexes(before, |before|, name, indices);
      forall i | i in indices ensures models[i] == before[i] { assert name in todo; }
      FillNamed(models, name, indices, At(channels, name), cache, rows);
      todo := todo - {name};
    }
  }

  /** The models of one name. */
  method FillNamed(models: array<Option<Model>>, name: string, indices: seq<int>, chs: seq<BoundChannel>,
                   cache: Cache, ghost rows: seq<Row>)
    requires Indexes(models[..], models.Length, name, indices) && chs == Bound(rows, name)
    modifies models
    ensures forall i | 0 <= i < models.Length ::
      models[i] == if i in indices then Some(ExactFilled(old(models[i]).value, rows, cache)) else old(models[i])
  {
    assert forall t | 0 <= t < |indices| :: indices[t] in indices;
    for j := 0 to |indices|
      invariant forall t | 0 <= t < j ::
        models[indices[t]] == Some(ExactFilled(old(models[indices[t]]).value, rows, cache))
      invariant forall t | j <= t < |indices| :: models[indices[t]] == old(models[indices[t]])
      invariant forall i | 0 <= i < models.Length && i !in indices :: models[i] == old(models[i])
    {
      var mm := models[indices[j]].value;
      var endpoints := if mm.endpoints == NO_ENDPOINTS then Json(At(cache.endpoints, mm.name)) else mm.endpoints;
      models[indices[j]] := Some(mm.(endpoints := endpoints, boundChannels := chs,
                                     enableGroups := At(cache.groups, mm.name),
                                     quotaTypes := At(cache.quotaTypes, mm.name)));
    }
  }

  /** An exact model whose name has been dealt with. */
  predicate Reached(o: Option<Model>, todo: set<string>) { IsExact(o) && o.value.name !in todo }

  // ---------- rule models ----------

  /** What is gathered for each rule model, by its position. */
  datatype Gathered = Gathered(names: map<int, seq<string>>, endpoints: map<int, set<string>>,
      groups: map<int, set<string>>, quotas: map<int, set<int>>)

  ghost predicate GatheredFor(g: Gathered, i: int, m: Model, pricings: seq<Pricing>) {
    var names := MatchedNames(m, pricings);
    if names == [] then i !in g.names && i !in g.endpoints && i !in g.groups && i !in g.quotas
    else
      && i in g.names && g.names[i] == names && i in g.endpoints && g.endpoints[i] == EndpointUnion(m, pricings)
      && i in g.groups && g.groups[i] == GroupUnion(m, pricings) && i in g.quotas
        && g.quotas[i] == QuotaUnion(m, pricings)
  }

  ghost predicate SameAt(g: Gathered, h: Gathered, i: int) {
    && (i in g.names <==> i in h.names) && (i in g.names ==> g.names[i] == h.names[i])
    && (i in g.endpoints <==> i in h.endpoints) && (i in g.endpoints ==> g.endpoints[i] == h.endpoints[i])
    && (i in g.groups <==> i in h.groups) && (i in g.groups ==> g.groups[i] == h.groups[i])
    && (i in g.quotas <==> i in h.quotas) && (i in g.quotas ==> g.quotas[i] == h.quotas[i])
  }

  lemma UnionsGrow(m: Model, pricings: seq<Pricing>, p: Pricing)
    ensures var more := pricings + [p]; var hit := Matches(m, p.name);
      && MatchedNames(m, more) == MatchedNames(m, pricings) + (if hit then [p.name] else [])
      && EndpointUnion(m, more) == EndpointUnion(m, pricings) + (if hit then set e | e in p.endpoints else {})
      && GroupUnion(m, more) == GroupUnion(m, pricings) + (if hit then set e | e in p.groups else {})
      && QuotaUnion(m, more) == QuotaUnion(m, pricings) + (if hit then {p.quotaType} else {})
  {
    assert (pricings + [p])[..|pricings|] == pricings;
  }

  lemma {:induction false} MatchIsNamed(m: Model, pricings: seq<Pricing>, p: Pricing)
    requires p in pricings && Matches(m, p.name)
    ensures p.name in MatchedNames(m, pricings)
  {
    if p != pricings[|pricings| - 1] { MatchIsNamed(m, pricings[..|pricings| - 1], p); }
  }

  lemma NoMatches(m: Model, pricings: seq<Pricing>)
    requires MatchedNames(m, pricings) == []
    ensures EndpointUnion(m, pricings) == {} && GroupUnion(m, pricings) == {} && QuotaUnion(m, pricings) == {}
  {
    forall p | p in pricings ensures !Matches(m, p.name) {
      if Matches(m, p.name) { MatchIsNamed(m, pricings, p); }
    }
  }

  method Collect(s: set<string>, list: seq<string>) returns (t: set<string>)
    ensures t == s + set e | e in list
  {
    t := s;
    for i := 0 to |list|
      invariant t == s + set e | e in list[..i]
    {
      assert list[..i + 1] == list[..i] + [list[i]];
      t := t + {list[i]};
    }
    assert list[..|list|] == list;
  }

  /** A price matches the model at position `i`. */
  method AddMatch(g: Gathered, i: int, p: Pricing, ghost m: Model, ghost pricings: seq<Pricing>) returns (h: Gathered)
    requires GatheredFor(g, i, m, pricings) && Matches(m, p.name)
    ensures GatheredFor(h, i, m, pricings + [p]) && forall j | j != i :: SameAt(g, h, j)
  {
    UnionsGrow(m, pricings, p);
    if MatchedNames(m, pricings) == [] { NoMatches(m, pricings); }
    var names := (if i in g.names then g.names[i] else []) + [p.name];
    var es := Collect(if i in g.endpoints then g.endpoints[i] else {}, p.endpoints);
    var gs := Collect(if i in g.groups then g.groups[i] else {}, p.groups);
    var qs := (if i in g.quotas then g.quotas[i] else {}) + {p.quotaType};
    h := Gathered(g.names[i := names], g.endpoints[i := es], g.groups[i := gs], g.quotas[i := qs]);
  }

  ghost predicate RuleIndices(models: seq<Option<Model>>, ruleIndices: seq<int>) {
    Ascending(ruleIndices) && forall t | 0 <= t < |ruleIndices| ::
        0 <= ruleIndices[t] < |models| && IsRule(models[ruleIndices[t]])
  }

  ghost predicate AllGathered(g: Gathered, models: seq<Option<Model>>, ruleIndices: seq<int>, pricings: seq<Pricing>)
    requires RuleIndices(models, ruleIndices)
  {
    forall t | 0 <= t < |ruleIndices| :: GatheredFor(g, ruleIndices[t], models[ruleIndices[t]].value, pricings)
  }

  method Gather(models: seq<Option<Model>>, ruleIndices: seq<int>, pricings: seq<Pricing>) returns (g: Gathered)
    requires RuleIndices(models, ruleIndices)
    ensures AllGathered(g, models, ruleIndices, pricings)
  {
    g := Gathered(map[], map[], map[], map[]);
    for k := 0 to |pricings|
      invariant AllGathered(g, models, ruleIndices, pricings[..k])
    {
      g := GatherOne(g, models, ruleIndices, pricings[k], pricings[..k]);
      assert pricings[..k + 1] == pricings[..k] + [pricings[k]];
    }
    assert pricings[..|pricings|] == pricings;
  }

  /** At place `t` the prices `pricings` have been gathered. */
  ghost predicate GatheredAt(g: Gathered, models: seq<Option<Model>>, ruleIndices: seq<int>, t: nat,
                             pricings: seq<Pricing>)
    requires RuleIndices(models, ruleIndices) && t < |ruleIndices|
  {
    GatheredFor(g, ruleIndices[t], models[ruleIndices[t]].value, pricings)
  }

  /** The first `j` places have taken the price in, the others have not. */
  ghost predicate GatheredUpTo(g: Gathered, models: seq<Option<Model>>, ruleIndices: seq<int>, j: int,
                               before: seq<Pricing>, p: Pricing)
    requires RuleIndices(models, ruleIndices)
  {
    && (forall t: nat | t < j && t < |ruleIndices| :: GatheredAt(g, models, ruleIndices, t, before + [p]))
    && (forall t: nat | j <= t < |ruleIndices| :: GatheredAt(g, models, ruleIndices, t, before))
  }

  method GatherOne(was: Gathered, models: seq<Option<Model>>, ruleIndices: seq<int>, p: Pricing,
                   ghost before: seq<Pricing>) returns (g: Gathered)
    requires RuleIndices(models, ruleIndices) && AllGathered(was, models, ruleIndices, before)
    ensures AllGathered(g, models, ruleIndices, before + [p])
  {
    g := was;
    for j := 0 to |ruleIndices|
      invariant GatheredUpTo(g, models, ruleIndices, j, before, p)
    {
      g := GatherAt(g, models, ruleIndices, j, p, before);
    }
    forall t | 0 <= t < |ruleIndices|
      ensures GatheredFor(g, ruleIndices[t], models[ruleIndices[t]].value, before + [p])
    {
      assert GatheredAt(g, models, ruleIndices, t, before + [p]);
    }
  }

  /** One price and one rule model. */
  method GatherAt(g: Gathered, models: seq<Option<Model>>, ruleIndices: seq<int>, j: nat, p: Pricing,
                  ghost before: seq<Pricing>)
    returns (h: Gathered)
    requires RuleIndices(models, ruleIndices) && j < |ruleIndices| && GatheredUpTo(g, models, ruleIndices, j, before, p)
    ensures GatheredUpTo(h, models, ruleIndices, j + 1, before, p)
  {
    var idx := ruleIndices[j];
    var mm := models[idx].value;
    assert GatheredAt(g, models, ruleIndices, j, before);
    if !Matches(mm, p.name) {
      UnionsGrow(mm, before, p);
      assert GatheredAt(g, models, ruleIndices, j, before + [p]);
      return g;
    }
    h := AddMatch(g, idx, p, mm, before);
    assert GatheredAt(h, models, ruleIndices, j, before + [p]);
    forall t: nat | t < j ensures GatheredAt(h, models, ruleIndices, t, before + [p]) {
      OtherKeeps(g, h, models, ruleIndices, t, before + [p]);
    }
    forall t: nat | j < t < |ruleIndices| ensures GatheredAt(h, models, ruleIndices, t, before) {
      OtherKeeps(g, h, models, ruleIndices, t, before);
    }
  }

  lemma OtherKeeps(g: Gathered, h: Gathered, models: seq<Option<Model>>, ruleIndices: seq<int>, t: nat,
                   pricings: seq<Pricing>)
    requires RuleIndices(models, ruleIndices) && t < |ruleIndices| && SameAt(g, h, ruleIndices[t])
    ensures GatheredAt(g, models, ruleIndices, t, pricings) ==> GatheredAt(h, models, ruleIndices, t, pricings)
  {
  }

  // ---------- sets as lists ----------

  /** The elements of a set, in whatever order they come. */
  method ListOf(s: set<string>) returns (list: seq<string>)
    ensures Lists(list, s)
  {
    list := [];
    var todo := s;
    while exists x :: x in todo
      invariant todo <= s && Lists(list, s - todo)
      decreases |todo|
    {
      var x :| x in todo;
      list := list + [x];
      todo := todo - {x};
    }
    assert s - todo == s;
  }

  function Insert(list: seq<int>, x: int): seq<int> {
    if list == [] || x < list[0] then [x] + list else [list[0]] + Insert(list[1..], x)
  }

  lemma {:induction false} InsertSorts(list: seq<int>, x: int)
    requires Ascending(list) && x !in list
    ensures Ascending(Insert(list, x)) && forall y :: y in Insert(list, x) <==> y in list || y == x
  {
    if list != [] && x >= list[0] {
      InsertSorts(list[1..], x);
      var rest := Insert(list[1..], x);
      forall i | 0 <= i < |rest| ensures rest[i] > list[0] { assert rest[i] in list[1..] || rest[i] == x; }
    }
  }

  /** The elements of a set in ascending order, in whatever order they come. */
  method SortedListOf(s: set<int>) returns (list: seq<int>)
    ensures Ascending(list) && Lists(list, s)
  {
    list := [];
    var todo := s;
    while exists x :: x in todo
      invariant todo <= s && Ascending(list) && forall x :: x in list <==> x in s - todo
      decreases |todo|
    {
      var x :| x in todo;
      InsertSorts(list, x);
      list := Insert(list, x);
      todo := todo - {x};
    }
  }

  lemma TailMembers(a: seq<int>, x: int)
    requires a != [] && Ascending(a)
    ensures x in a[1..] <==> x in a && x != a[0]
  {
    if x in a && x != a[0] {
      var i :| 0 <= i < |a| && a[i] == x;
      assert a[1..][i - 1] == x;
    }
  }

  /** An ascending list is determined by its elements: the order of iteration does not show. */
  lemma {:induction false} AscendingUnique(a: seq<int>, b: seq<int>)
    requires Ascending(a) && Ascending(b) && forall x :: x in a <==> x in b
    ensures a == b
  {
    assert a != [] ==> a[0] in a;
    assert b != [] ==> b[0] in b;
    if a != [] && b != [] {
      assert a[0] == b[0];
      forall x ensures x in a[1..] <==> x in b[1..] {
        TailMembers(a, x);
        TailMembers(b, x);
      }
      AscendingUnique(a[1..], b[1..]);
      assert a == [a[0]] + a[1..] && b == [b[0]] + b[1..];
    }
  }

  // ---------- filling in rule models ----------

  /** The map holds exactly these channels under their ids. */
  ghost predicate ById(m: map<int, BoundChannel>, s: set<BoundChannel>) {
    (forall id | id in m :: m[id] in s && m[id].id == id) && forall c | c in s :: c.id in m && m[c.id] == c
  }

  ghost predicate InRows(c: BoundChannel, rows: seq<Row>) { exists r :: r in rows && r.channel == c }

  lemma AddById(m: map<int, BoundChannel>, s: set<BoundChannel>, c: BoundChannel, rows: seq<Row>)
    requires ById(m, s) && Consistent(rows) && InRows(c, rows) && forall d | d in s :: InRows(d, rows)
    ensures ById(m[c.id := c], s + {c})
  {
    forall d | d in s && d.id == c.id ensures d == c { assert InRows(d, rows); }
  }

  lemma UnionGrows(names: seq<string>, i: nat, rows: seq<Row>)
    requires i < |names|
    ensures ChannelUnion(names[..i + 1], rows) == ChannelUnion(names[..i], rows) + set c | c in Bound(rows, names[i])
    ensures forall d | d in ChannelUnion(names[..i + 1], rows) :: InRows(d, rows)
  {
    assert names[..i + 1] == names[..i] + [names[i]];
    BoundMembers(rows, names[i]);
  }

  method AddChannels(was: map<int, BoundChannel>, list: seq<BoundChannel>, ghost s: set<BoundChannel>,
                     ghost rows: seq<Row>)
    returns (channelSet: map<int, BoundChannel>)
    requires ById(was, s) && Consistent(rows) && forall d | d in s || d in list :: InRows(d, rows)
    ensures ById(channelSet, s + set c | c in list)
  {
    channelSet := was;
    ghost var seen := s;
    for j := 0 to |list|
      invariant ById(channelSet, seen) && seen == s + set c | c in list[..j]
    {
      assert list[j] in list && list[..j + 1] == list[..j] + [list[j]];
      AddById(channelSet, seen, list[j], rows);
      channelSet := channelSet[list[j].id := list[j]];
      seen := seen + {list[j]};
    }
    assert list[..|list|] == list;
  }

  method CollectChannels(names: seq<string>, channels: map<string, seq<BoundChannel>>, ghost rows: seq<Row>)
    returns (channelSet: map<int, BoundChannel>)
    requires Consistent(rows) && forall n | n in names :: At(channels, n) == Bound(rows, n)
    ensures ById(channelSet, ChannelUnion(names, rows))
  {
    channelSet := map[];
    for i := 0 to |names|
      invariant ById(channelSet, ChannelUnion(names[..i], rows))
    {
      assert names[i] in names;
      UnionGrows(names, i, rows);
      UnionShrinks(names, i, rows);
      channelSet := AddChannels(channelSet, At(channels, names[i]), ChannelUnion(names[..i], rows), rows);
    }
    assert names[..|names|] == names;
  }

  lemma UnionShrinks(names: seq<string>, i: nat, rows: seq<Row>)
    requires i < |names|
    ensures forall d | d in ChannelUnion(names[..i], rows) || d in Bound(rows, names[i]) :: InRows(d, rows)
  {
    BoundMembers(rows, names[i]);
  }

  /** The channels of a map, in order of their ids. */
  method InOrder(channelSet: map<int, BoundChannel>, ghost s: set<BoundChannel>) returns (chs: seq<BoundChannel>)
    requires ById(channelSet, s)
    ensures AscendingIds(chs) && Lists(chs, s)
  {
    var ids := SortedListOf(channelSet.Keys);
    chs := [];
    for i := 0 to |ids|
      invariant |chs| == i && forall k | 0 <= k < i ::
        ids[k] in channelSet && chs[k] == channelSet[ids[k]] && chs[k].id == ids[k]
    {
      assert ids[i] in ids;
      chs := chs + [channelSet[ids[i]]];
    }
    ListedById(channelSet, s, ids, chs);
  }

  /** The channels of the matched names, without repetitions, in order of their ids. */
  method ChannelsOf(names: seq<string>, channels: map<string, seq<BoundChannel>>, ghost rows: seq<Row>)
    returns (chs: seq<BoundChannel>)
    requires Consistent(rows) && forall n | n in names :: At(channels, n) == Bound(rows, n)
    ensures AscendingIds(chs) && Lists(chs, ChannelUnion(names, rows))
  {
    var channelSet := CollectChannels(names, channels, rows);
    chs := InOrder(channelSet, ChannelUnion(names, rows));
  }

  lemma ListedById(m: map<int, BoundChannel>, s: set<BoundChannel>, ids: seq<int>, chs: seq<BoundChannel>)
    requires ById(m, s) && Ascending(ids) && Lists(ids, m.Keys) && |chs| == |ids|
    requires forall k | 0 <= k < |ids| :: ids[k] in m && chs[k] == m[ids[k]] && chs[k].id == ids[k]
    ensures AscendingIds(chs) && Lists(chs, s)
  {
    forall c ensures c in chs <==> c in s {
      if c in s {
        assert c.id in ids;
        var k :| 0 <= k < |ids| && ids[k] == c.id;
        assert chs[k] == c;
      }
    }
  }

  method FillRule(mm: Model, idx: int, g: Gathered, channels: map<string, seq<BoundChannel>>,
                  ghost pricings: seq<Pricing>, ghost rows: seq<Row>)
    returns (n: Model)
    requires GatheredFor(g, idx, mm, pricings) && Consistent(rows)
    requires ChannelsFor(channels, mm, pricings, rows)
    ensures RuleFilled(mm, n, pricings, rows)
  {
    n := mm;
    if idx in g.endpoints && mm.endpoints == NO_ENDPOINTS {
      var eps := ListOf(g.endpoints[idx]);
      n := n.(endpoints := Json(eps));
    }
    if idx in g.groups {
      var groups := ListOf(g.groups[idx]);
      n := n.(enableGroups := groups);
    }
    if idx in g.quotas {
      var arr := SortedListOf(g.quotas[idx]);
      n := n.(quotaTypes := arr);
    }
    var names := if idx in g.names then g.names[idx] else [];
    var chs := ChannelsOf(names, channels, rows);
    if |chs| > 0 {
      assert chs[0] in chs;
      n := n.(boundChannels := chs);
    }
    n := n.(matchedModels := names, matchedCount := |names|);
  }

  ghost predicate ChannelsFor(channels: map<string, seq<BoundChannel>>, m: Model, pricings: seq<Pricing>,
                              rows: seq<Row>)
  {
    forall n | n in MatchedNames(m, pricings) :: At(channels, n) == Bound(rows, n)
  }

  /** One query for all names matched by any rule model. */
  method QueryMatched(models: seq<Option<Model>>, ruleIndices: seq<int>, pricings: seq<Pricing>, rows: seq<Row>,
                      g: Gathered)
    returns (channels: map<string, seq<BoundChannel>>)
    requires RuleIndices(models, ruleIndices) && AllGathered(g, models, ruleIndices, pricings)
    ensures forall t | 0 <= t < |ruleIndices| :: ChannelsFor(channels, models[ruleIndices[t]].value, pricings, rows)
  {
    var allMatchedSet := set i, n | i in g.names && n in g.names[i] :: n;
    var allMatched := ListOf(allMatchedSet);
    channels := GetBoundChannels(allMatched, rows);
    forall t | 0 <= t < |ruleIndices| ensures ChannelsFor(channels, models[ruleIndices[t]].value, pricings, rows) {
      assert GatheredFor(g, ruleIndices[t], models[ruleIndices[t]].value, pricings);
    }
  }

  /** The rule model at a position before and after. */
  ghost predicate RuleFilledAt(before: seq<Option<Model>>, after: Option<Model>, i: int, pricings: seq<Pricing>,
                               rows: seq<Row>)
  {
    0 <= i < |before| && before[i].Some? && after.Some? && RuleFilled(before[i].value, after.value, pricings, rows)
  }

  method WriteBack(models: array<Option<Model>>, ruleIndices: seq<int>, g: Gathered,
                   channels: map<string, seq<BoundChannel>>,
                   ghost pricings: seq<Pricing>, ghost rows: seq<Row>)
    requires RuleIndices(models[..], ruleIndices) && AllGathered(g, models[..], ruleIndices, pricings)
      && Consistent(rows)
    requires forall t | 0 <= t < |ruleIndices| :: ChannelsFor(channels, models[ruleIndices[t]].value, pricings, rows)
    modifies models
    ensures WrittenBack(old(models[..]), models[..], ruleIndices, |ruleIndices|, pricings, rows)
  {
    ghost var before := models[..];
    for j := 0 to |ruleIndices|
      invariant WrittenBack(before, models[..], ruleIndices, j, pricings, rows)
    {
      var idx := ruleIndices[j];
      assert models[..][idx] == before[idx];
      var mm := models[idx].value;
      var n := FillRule(mm, idx, g, channels, pricings, rows);
      ghost var now := models[..];
      models[idx] := Some(n);
      assert models[..] == now[idx := Some(n)];
      WrittenOneMore(before, now, ruleIndices, j, pricings, rows, n);
    }
  }

  /** The rule models at the first `j` places are filled in, everything else is as before. */
  ghost predicate WrittenBack(before: seq<Option<Model>>, now: seq<Option<Model>>, ruleIndices: seq<int>, j: int,
                              pricings: seq<Pricing>, rows: seq<Row>)
  {
    && |now| == |before| && RuleIndices(before, ruleIndices) && 0 <= j <= |ruleIndices|
    && (forall t | 0 <= t < j :: RuleFilledAt(before, now[ruleIndices[t]], ruleIndices[t], pricings, rows))
    && (forall t | j <= t < |ruleIndices| :: now[ruleIndices[t]] == before[ruleIndices[t]])
    && (forall i | 0 <= i < |now| && i !in ruleIndices :: now[i] == before[i])
  }

  lemma WrittenOneMore(before: seq<Option<Model>>, now: seq<Option<Model>>, ruleIndices: seq<int>, j: nat,
                       pricings: seq<Pricing>, rows: seq<Row>, n: Model)
    requires j < |ruleIndices| && WrittenBack(before, now, ruleIndices, j, pricings, rows)
    requires RuleFilled(before[ruleIndices[j]].value, n, pricings, rows)
    ensures WrittenBack(before, now[ruleIndices[j] := Some(n)], ruleIndices, j + 1, pricings, rows)
  {
    assert RuleFilledAt(before, Some(n), ruleIndices[j], pricings, rows);
    assert forall t | 0 <= t < |ruleIndices| && t != j :: ruleIndices[t] != ruleIndices[j];
    assert ruleIndices[j] in ruleIndices;
  }

  method FillRules(models: array<Option<Model>>, ruleIndices: seq<int>, pricings: seq<Pricing>, rows: seq<Row>)
    requires RuleSplit(models[..], models.Length, ruleIndices) && Consistent(rows)
    modifies models
    ensures forall i | 0 <= i < models.Length && !IsRule(old(models[i])) :: models[i] == old(models[i])
    ensures forall i | 0 <= i < models.Length && IsRule(old(models[i])) ::
      RuleFilledAt(old(models[..]), models[i], i, pricings, rows)
  {
    assert forall t | 0 <= t < |ruleIndices| :: ruleIndices[t] in ruleIndices;
    var g := Gather(models[..], ruleIndices, pricings);
    var channels := QueryMatched(models[..], ruleIndices, pricings, rows, g);
    WriteBack(models, ruleIndices, g, channels, pricings, rows);
  }

  /** The batched enrichment. Each of the two queries may fail and then yields nothing. */
  method EnrichModels(models: array<Option<Model>>, pricings: seq<Pricing>, rows: seq<Row>, fails: (bool, bool),
                      cache: Cache)
    requires Consistent(rows)
    modifies models
    ensures forall i | 0 <= i < models.Length ::
      Filled(old(models[i]), models[i], pricings, if fails.0 then [] else rows, if fails.1 then [] else rows, cache)
  {
    var exactNames, exactIdx, ruleIndices := Split(models[..]);
    var exactRows := if fails.0 then [] else rows;
    var channelsByModel := GetBoundChannels(exactNames, exactRows);
    ghost var before := models[..];
    FillExact(models, exactIdx, channelsByModel, exactRows, cache);
    if |ruleIndices| == 0 {
      assert forall i | 0 <= i < models.Length :: IsRule(before[i]) ==> i in ruleIndices;
      return;
    }
    FillRules(models, ruleIndices, pricings, if fails.1 then [] else rows);
  }
}
