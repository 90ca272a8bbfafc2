/**
Ordered lists of model names: trimming, removing duplicates, union, difference and intersection as
the upstream reconciliation uses them, and the comma-separated form in which a channel stores them.
*/
module ModelNames {
  import opened Separated

  // ---------- trimming ----------

  predicate IsSpace(c: char) {
    || c in " \t\n\r" || c == '\U{0B}' || c == '\U{0C}' || c == '\U{85}' || c == '\U{A0}' || c == '\U{1680}'
    || '\U{2000}' <= c <= '\U{200A}' || c == '\U{2028}' || c == '\U{2029}' || c == '\U{202F}' || c == '\U{205F}'
      || c == '\U{3000}'
  }

  function TrimLeft(s: string): string {
    if s != [] && IsSpace(s[0]) then TrimLeft(s[1..]) else s
  }

  function TrimRight(s: string): string {
    if s != [] && IsSpace(s[|s| - 1]) then TrimRight(s[..|s| - 1]) else s
  }

  function Trim(s: string): string {
    TrimRight(TrimLeft(s))
  }

  predicate Trimmed(s: string) {
    s != [] ==> !IsSpace(s[0]) && !IsSpace(s[|s| - 1])
  }

  lemma {:induction false} TrimRightKeepsFirst(s: string)
    requires s != [] ==> !IsSpace(s[0])
    ensures Trimmed(TrimRight(s))
  {
    if s != [] && IsSpace(s[|s| - 1]) { TrimRightKeepsFirst(s[..|s| - 1]); }
  }

  lemma {:induction false} TrimLeftFirst(s: string)
    ensures TrimLeft(s) != [] ==> !IsSpace(TrimLeft(s)[0])
  {
    if s != [] && IsSpace(s[0]) { TrimLeftFirst(s[1..]); }
  }

  /** Trimming leaves no outer space, and nothing to trim. */
  lemma TrimIsTrimmed(s: string)
    ensures Trimmed(Trim(s))
    ensures Trimmed(s) ==> Trim(s) == s
  {
    TrimLeftFirst(s);
    TrimRightKeepsFirst(TrimLeft(s));
  }

  ghost predicate Spaces(s: string) { forall c | c in s :: IsSpace(c) }

  lemma {:induction false} TrimLeftIs(s: string) returns (left: string)
    ensures s == left + TrimLeft(s) && Spaces(left)
  {
    left := "";
    if s != [] && IsSpace(s[0]) {
      left := TrimLeftIs(s[1..]);
      left := [s[0]] + left;
    }
  }

  lemma {:induction false} TrimRightIs(s: string) returns (right: string)
    ensures s == TrimRight(s) + right && Spaces(right)
  {
    right := "";
    if s != [] && IsSpace(s[|s| - 1]) {
      right := TrimRightIs(s[..|s| - 1]);
      right := right + [s[|s| - 1]];
    }
  }

  /** Trimming takes off spaces at both ends and nothing else. */
  lemma TrimIs(s: string) returns (left: string, right: string)
    ensures s == left + Trim(s) + right && Spaces(left) && Spaces(right) && Trimmed(Trim(s))
  {
    left := TrimLeftIs(s);
    right := TrimRightIs(TrimLeft(s));
    TrimIsTrimmed(s);
  }

  lemma {:induction false} TrimChars(s: string, c: char)
    requires c in Trim(s)
    ensures c in s
  {
    TrimRightChars(TrimLeft(s), c);
    TrimLeftChars(s, c);
  }

  lemma {:induction false} TrimLeftChars(s: string, c: char)
    requires c in TrimLeft(s)
    ensures c in s
  {
    if s != [] && IsSpace(s[0]) { TrimLeftChars(s[1..], c); }
  }

  lemma {:induction false} TrimRightChars(s: string, c: char)
    requires c in TrimRight(s)
    ensures c in s
  {
    if s != [] && IsSpace(s[|s| - 1]) { TrimRightChars(s[..|s| - 1], c); }
  }

  // ---------- lists of distinct names ----------

  function Names(s: seq<string>): set<string> {
    set x | x in s
  }

  ghost predicate Distinct(s: seq<string>) {
    forall i, j | 0 <= i < j < |s| :: s[i] != s[j]
  }

  /** What normalizing yields: distinct, trimmed, non-empty names. */
  ghost predicate Normalized(s: seq<string>) {
    Distinct(s) && forall x | x in s :: Trimmed(x) && x != ""
  }

  /** The trimmed names, without the empty ones and without repetitions, in order of first occurrence. */
  function Normalize(models: seq<string>): seq<string> {
    if models == [] then []
    else
      var before := Normalize(models[..|models| - 1]);
      var name := Trim(models[|models| - 1]);
      if name == "" || name in before then before else before + [name]
  }

  /** `s` without the names in `a`. */
  function Without(s: seq<string>, a: set<string>): seq<string> {
    if s == [] then []
    else Without(s[..|s| - 1], a) + if s[|s| - 1] in a then [] else [s[|s| - 1]]
  }

  lemma {:induction false} NormalizeIsNormalized(models: seq<string>)
    ensures Normalized(Normalize(models))
    ensures forall x :: x in Normalize(models) <==> x != "" && exists m :: m in models && Trim(m) == x
  {
    if models != [] {
      NormalizeIsNormalized(models[..|models| - 1]);
      TrimIsTrimmed(models[|models| - 1]);
      assert models == models[..|models| - 1] + [models[|models| - 1]];
    }
  }

  /** The name occurs here for the first time. */
  ghost predicate FirstAt(models: seq<string>, m: nat, name: string) {
    m < |models| && Trim(models[m]) == name && forall l | 0 <= l < m :: Trim(models[l]) != name
  }

  lemma FirstAtLonger(init: seq<string>, last: string, m: nat, name: string)
    requires FirstAt(init, m, name)
    ensures FirstAt(init + [last], m, name)
  {
    forall l | 0 <= l < m ensures Trim((init + [last])[l]) != name { assert (init + [last])[l] == init[l]; }
  }

  lemma {:induction false} NothingForgotten(models: seq<string>, l: nat)
    requires l < |models| && Trim(models[l]) != ""
    ensures Trim(models[l]) in Normalize(models)
  {
    if l < |models| - 1 { NothingForgotten(models[..|models| - 1], l); }
  }

  lemma NewName(init: seq<string>, last: string)
    requires Trim(last) != "" && Trim(last) !in Normalize(init)
    ensures FirstAt(init + [last], |init|, Trim(last))
  {
    forall l | 0 <= l < |init| ensures Trim((init + [last])[l]) != Trim(last) {
      if Trim(init[l]) == Trim(last) { NothingForgotten(init, l); }
    }
  }

  lemma {:induction false} FirstOccurrence(models: seq<string>, name: string) returns (m: nat)
    requires name in Normalize(models)
    ensures FirstAt(models, m, name)
  {
    var init, last := models[..|models| - 1], models[|models| - 1];
    assert models == init + [last];
    if name in Normalize(init) {
      m := FirstOccurrence(init, name);
      FirstAtLonger(init, last, m, name);
    } else {
      m := |init|;
      NewName(init, last);
    }
  }

  /** The names stand in order of their first occurrence. */
  lemma {:induction false} NormalizeOrder(models: seq<string>, i: nat, j: nat) returns (m: nat, n: nat)
    requires i < j < |Normalize(models)|
    ensures m < n && FirstAt(models, m, Normalize(models)[i]) && FirstAt(models, n, Normalize(models)[j])
  {
    var init, last := models[..|models| - 1], models[|models| - 1];
    assert models == init + [last];
    if j < |Normalize(init)| {
      m, n := NormalizeOrder(init, i, j);
      FirstAtLonger(init, last, n, Normalize(init)[j]);
    } else {
      m := FirstOccurrence(init, Normalize(init)[i]);
      n := |init|;
      NewName(init, last);
    }
    FirstAtLonger(init, last, m, Normalize(init)[i]);
  }

  lemma {:induction false} NormalizeNormalized(models: seq<string>)
    requires Normalized(models)
    ensures Normalize(models) == models
  {
    if models != [] {
      var before, last := models[..|models| - 1], models[|models| - 1];
      NormalizeNormalized(before);
      assert last in models;
      TrimIsTrimmed(last);
      assert models == before + [last];
    }
  }

  lemma {:induction false} WithoutMembers(s: seq<string>, a: set<string>)
    ensures forall x :: x in Without(s, a) <==> x in s && x !in a
  {
    if s != [] {
      WithoutMembers(s[..|s| - 1], a);
      assert s == s[..|s| - 1] + [s[|s| - 1]];
    }
  }

  ghost predicate Before(s: seq<string>, x: string, y: string) {
    exists i, j :: 0 <= i < j < |s| && s[i] == x && s[j] == y
  }

  /** What is left keeps its order. */
  lemma {:induction false} WithoutOrder(s: seq<string>, a: set<string>, x: string, y: string)
    requires Before(Without(s, a), x, y)
    ensures Before(s, x, y)
  {
    var init, rest := s[..|s| - 1], Without(s, a);
    var i, j :| 0 <= i < j < |rest| && rest[i] == x && rest[j] == y;
    if j < |Without(init, a)| {
      assert Without(init, a)[i] == x && Without(init, a)[j] == y;
      WithoutOrder(init, a, x, y);
      var k, l :| 0 <= k < l < |init| && init[k] == x && init[l] == y;
      assert s[k] == x && s[l] == y;
    } else {
      WithoutMembers(init, a);
      assert x in Without(init, a);
      var k :| 0 <= k < |init| && init[k] == x;
      assert s[k] == x && s[|s| - 1] == y;
    }
  }

  lemma {:induction false} WithoutNormalized(s: seq<string>, a: set<string>)
    requires Normalized(s)
    ensures Normalized(Without(s, a))
  {
    if s != [] {
      WithoutNormalized(s[..|s| - 1], a);
      WithoutMembers(s[..|s| - 1], a);
      assert forall i | 0 <= i < |s| - 1 :: s[i] != s[|s| - 1];
    }
  }

  lemma {:induction false} WithoutTwice(s: seq<string>, a: set<string>, b: set<string>)
    ensures Without(Without(s, a), b) == Without(s, a + b)
  {
    if s != [] {
      WithoutTwice(s[..|s| - 1], a, b);
      var kept := Without(s[..|s| - 1], a);
      if s[|s| - 1] in a {
        assert kept + [] == kept && Without(kept, b) + [] == Without(kept, b);
      } else {
        assert (kept + [s[|s| - 1]])[..|kept|] == kept;
      }
    }
  }

  lemma {:induction false} WithoutAgrees(s: seq<string>, a: set<string>, b: set<string>)
    requires forall x | x in s :: x in a <==> x in b
    ensures Without(s, a) == Without(s, b)
  {
    if s != [] {
      WithoutAgrees(s[..|s| - 1], a, b);
      assert s[|s| - 1] in s;
    }
  }

  lemma {:induction false} WithoutConcat(s: seq<string>, t: seq<string>, a: set<string>)
    ensures Without(s + t, a) == Without(s, a) + Without(t, a)
  {
    if t == [] {
      assert s + t == s;
    } else {
      assert (s + t)[..|s + t| - 1] == s + t[..|t| - 1];
      WithoutConcat(s, t[..|t| - 1], a);
    }
  }

  lemma {:induction false} WithoutNone(s: seq<string>, a: set<string>)
    requires forall x | x in s :: x !in a
    ensures Without(s, a) == s
  {
    if s != [] {
      assert s[|s| - 1] in s;
      WithoutNone(s[..|s| - 1], a);
    }
  }

  lemma {:induction false} WithoutAll(s: seq<string>, a: set<string>)
    requires forall x | x in s :: x in a
    ensures Without(s, a) == []
  {
    if s != [] {
      assert s[|s| - 1] in s;
      WithoutAll(s[..|s| - 1], a);
    }
  }

  // ---------- the list operations ----------

  function Merge(s: seq<string>, t: seq<string>): seq<string> {
    Normalize(s) + Without(Normalize(t), Names(Normalize(s)))
  }

  function Subtract(s: seq<string>, t: seq<string>): seq<string> {
    Without(Normalize(s), Names(Normalize(t)))
  }

  function Intersect(s: seq<string>, t: seq<string>): seq<string> {
    Without(Normalize(s), Names(Normalize(s)) - Names(Normalize(t)))
  }

  lemma DistinctConcat(s: seq<string>, t: seq<string>)
    requires Distinct(s) && Distinct(t) && forall x | x in t :: x !in s
    ensures Distinct(s + t)
  {
    forall i, j | 0 <= i < j < |s + t| ensures (s + t)[i] != (s + t)[j] {
      if i < |s| <= j { assert t[j - |s|] in t; }
    }
  }

  /** Ordered union: what was there stays where it was, what is new follows in its own order; and it is
      exactly that. */
  lemma MergeIs(s: seq<string>, t: seq<string>)
    ensures Normalized(Merge(s, t)) && Normalize(s) <= Merge(s, t)
    ensures Names(Merge(s, t)) == Names(Normalize(s)) + Names(Normalize(t))
    ensures forall x, y | Before(Merge(s, t)[|Normalize(s)|..], x, y) :: Before(Normalize(t), x, y)
  {
    var added := Without(Normalize(t), Names(Normalize(s)));
    assert Merge(s, t)[|Normalize(s)|..] == added;
    forall x, y | Before(added, x, y) ensures Before(Normalize(t), x, y) {
      WithoutOrder(Normalize(t), Names(Normalize(s)), x, y);
    }
    NormalizeIsNormalized(s);
    NormalizeIsNormalized(t);
    WithoutNormalized(Normalize(t), Names(Normalize(s)));
    WithoutMembers(Normalize(t), Names(Normalize(s)));
    DistinctConcat(Normalize(s), Without(Normalize(t), Names(Normalize(s))));
  }

  lemma SubtractIs(s: seq<string>, t: seq<string>)
    ensures Normalized(Subtract(s, t)) && Names(Subtract(s, t)) == Names(Normalize(s)) - Names(Normalize(t))
    ensures forall x, y | Before(Subtract(s, t), x, y) :: Before(Normalize(s), x, y)
  {
    forall x, y | Before(Subtract(s, t), x, y) ensures Before(Normalize(s), x, y) {
      WithoutOrder(Normalize(s), Names(Normalize(t)), x, y);
    }
    NormalizeIsNormalized(s);
    WithoutNormalized(Normalize(s), Names(Normalize(t)));
    WithoutMembers(Normalize(s), Names(Normalize(t)));
  }

  lemma IntersectIs(s: seq<string>, t: seq<string>)
    ensures Normalized(Intersect(s, t)) && Names(Intersect(s, t)) == Names(Normalize(s)) * Names(Normalize(t))
    ensures forall x, y | Before(Intersect(s, t), x, y) :: Before(Normalize(s), x, y)
  {
    forall x, y | Before(Intersect(s, t), x, y) ensures Before(Normalize(s), x, y) {
      WithoutOrder(Normalize(s), Names(Normalize(s)) - Names(Normalize(t)), x, y);
    }
    NormalizeIsNormalized(s);
    WithoutNormalized(Normalize(s), Names(Normalize(s)) - Names(Normalize(t)));
    WithoutMembers(Normalize(s), Names(Normalize(s)) - Names(Normalize(t)));
  }

  lemma {:induction false} WithoutPrefix(s: seq<string>, a: set<string>, n: nat)
    requires n < |s|
    ensures Without(s[..n + 1], a) == Without(s[..n], a) + if s[n] in a then [] else [s[n]]
  {
    assert s[..n + 1][..n] == s[..n];
  }

  /** `mergeModelNames` as it is written: a set of seen names grows along. */
  method MergeModelNames(base: seq<string>, appended: seq<string>) returns (merged: seq<string>)
    ensures merged == Merge(base, appended)
  {
    merged := Normalize(base);
    var seen := Names(merged);
    ghost var first, had := merged, seen;
    var more := Normalize(appended);
    NormalizeIsNormalized(appended);
    for i := 0 to |more|
      invariant merged == first + Without(more[..i], had)
      invariant seen == had + Names(more[..i])
    {
      WithoutPrefix(more, had, i);
      NamesPrefix(more, i);
      if more[i] in seen {
        continue;
      }
      seen := seen + {more[i]};
      merged := merged + [more[i]];
    }
    assert more[..|more|] == more;
  }

  lemma NamesPrefix(s: seq<string>, n: nat)
    requires n < |s| && Distinct(s)
    ensures Names(s[..n + 1]) == Names(s[..n]) + {s[n]} && s[n] !in Names(s[..n])
  {
    assert s[..n + 1] == s[..n] + [s[n]];
  }

  // ---------- the stored form ----------

  function Join(names: seq<string>): string {
    JoinBy(names, ',')
  }

  /** `Channel.GetModels` */
  function GetModels(models: string): seq<string> {
    if models == "" then [] else SplitBy(Strip(models, ','), ',')
  }

  ghost predicate CommaFree(names: seq<string>) {
    Free(names, ',')
  }

  /** Names without commas survive being stored. */
  lemma StoredNamesReadBack(names: seq<string>)
    requires Normalized(names) && CommaFree(names)
    ensures GetModels(Join(names)) == names
  {
    if names != [] {
      assert names[0] in names && names[|names| - 1] in names;
      ReadsBackIff(names, ',');
    }
  }

  /** What a channel has stored never contains a comma. */
  lemma StoredNamesCommaFree(models: string)
    ensures CommaFree(Normalize(GetModels(models)))
  {
    var names := GetModels(models);
    NormalizeIsNormalized(names);
    forall x | x in Normalize(names) ensures ',' !in x {
      var m :| m in names && Trim(m) == x;
      if ',' in x { TrimChars(m, ','); }
    }
  }
}
