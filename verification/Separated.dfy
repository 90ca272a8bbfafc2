/**
Lists of texts stored as one text with a separator between them: joining, splitting, and stripping
the separator from both ends before splitting, as the channel fields are read.
*/
module Separated {

  function JoinBy(parts: seq<string>, sep: char): string {
    if parts == [] then "" else if |parts| == 1 then parts[0] else parts[0] + [sep] + JoinBy(parts[1..], sep)
  }

  function SplitBy(s: string, sep: char): (parts: seq<string>)
    ensures |parts| >= 1 && forall p | p in parts :: sep !in p
  {
    if s == "" then [""]
    else
      var rest := SplitBy(s[1..], sep);
      if s[0] == sep then [""] + rest else [[s[0]] + rest[0]] + rest[1..]
  }

  function Strip(s: string, sep: char): string {
    if s != "" && s[0] == sep then Strip(s[1..], sep)
    else if s != "" && s[|s| - 1] == sep then Strip(s[..|s| - 1], sep)
    else s
  }

  ghost predicate Free(parts: seq<string>, sep: char) {
    forall p | p in parts :: sep !in p
  }

  lemma {:induction false} SplitPart(p: string, rest: string, sep: char)
    requires sep !in p
    ensures SplitBy(p + [sep] + rest, sep) == [p] + SplitBy(rest, sep)
  {
    if p == "" {
      assert p + [sep] + rest == [sep] + rest;
    } else {
      assert (p + [sep] + rest)[1..] == p[1..] + [sep] + rest;
      assert p[0] in p && p == [p[0]] + p[1..];
      SplitPart(p[1..], rest, sep);
      assert ([p[1..]] + SplitBy(rest, sep))[1..] == SplitBy(rest, sep);
    }
  }

  lemma {:induction false} SplitWhole(p: string, sep: char)
    requires sep !in p
    ensures SplitBy(p, sep) == [p]
  {
    if p != "" {
      assert p[0] in p && p == [p[0]] + p[1..];
      SplitWhole(p[1..], sep);
    }
  }

  lemma {:induction false} SplitJoin(parts: seq<string>, sep: char)
    requires parts != [] && Free(parts, sep)
    ensures SplitBy(JoinBy(parts, sep), sep) == parts
  {
    assert parts[0] in parts;
    if |parts| == 1 {
      SplitWhole(parts[0], sep);
      assert parts == [parts[0]];
    } else {
      var rest := parts[1..];
      assert forall x | x in rest :: x in parts;
      SplitJoin(rest, sep);
      SplitPart(parts[0], JoinBy(rest, sep), sep);
      assert parts == [parts[0]] + rest;
    }
  }

  /** A text starts or ends with the separator when its first or last part is blank. */
  lemma {:induction false} SplitEnds(s: string, sep: char)
    requires s != ""
    ensures SplitBy(s, sep)[0] == "" <==> s[0] == sep
    ensures var parts := SplitBy(s, sep); parts[|parts| - 1] == "" <==> s[|s| - 1] == sep
  {
    if |s| > 1 {
      SplitEnds(s[1..], sep);
    } else {
      assert s[1..] == "";
    }
  }

  lemma {:induction false} StripEnds(s: string, sep: char)
    ensures var t := Strip(s, sep); t != "" ==> t[0] != sep && t[|t| - 1] != sep
  {
    if s != "" && s[0] == sep {
      StripEnds(s[1..], sep);
    } else if s != "" && s[|s| - 1] == sep {
      StripEnds(s[..|s| - 1], sep);
    }
  }

  lemma JoinEnds(parts: seq<string>, sep: char)
    requires parts != [] && Free(parts, sep) && parts[0] != "" && parts[|parts| - 1] != ""
    ensures Strip(JoinBy(parts, sep), sep) == JoinBy(parts, sep)
  {
    SplitJoin(parts, sep);
    if JoinBy(parts, sep) != "" { SplitEnds(JoinBy(parts, sep), sep); }
  }

  lemma StripSplits(s: string, sep: char)
    ensures var parts := SplitBy(Strip(s, sep), sep); parts == [""] || (parts[0] != "" && parts[|parts| - 1] != "")
  {
    StripEnds(s, sep);
    if Strip(s, sep) != "" { SplitEnds(Strip(s, sep), sep); }
  }

  /** Exactly which lists are read back as they were stored. */
  lemma ReadsBackIff(parts: seq<string>, sep: char)
    requires parts != [] && parts != [""]
    ensures SplitBy(Strip(JoinBy(parts, sep), sep), sep) == parts
      <==> Free(parts, sep) && parts[0] != "" && parts[|parts| - 1] != ""
  {
    StripSplits(JoinBy(parts, sep), sep);
    if Free(parts, sep) && parts[0] != "" && parts[|parts| - 1] != "" {
      JoinEnds(parts, sep);
      SplitJoin(parts, sep);
    }
  }

  lemma {:induction false} SplitLast(s: string, sep: char)
    requires s != "" && s[|s| - 1] == sep
    ensures |SplitBy(s, sep)| == |SplitBy(s[..|s| - 1], sep)| + 1
  {
    if |s| > 1 {
      SplitLast(s[1..], sep);
      assert s[..|s| - 1][1..] == s[1..][..|s| - 2];
    } else {
      assert s[1..] == "";
    }
  }

  /** Stripping never adds parts. */
  lemma {:induction false} StripShortens(s: string, sep: char)
    ensures |SplitBy(Strip(s, sep), sep)| <= |SplitBy(s, sep)|
  {
    if s != "" && s[0] == sep {
      StripShortens(s[1..], sep);
    } else if s != "" && s[|s| - 1] == sep {
      StripShortens(s[..|s| - 1], sep);
      SplitLast(s, sep);
    }
  }

  lemma {:induction false} StripToNothing(s: string, sep: char)
    requires s != "" && Strip(s, sep) == ""
    ensures s[|s| - 1] == sep
  {
    if s[0] == sep && |s| > 1 { StripToNothing(s[1..], sep); }
  }

  /** How the list comes back that a text holds: shorter or the same, and with its ends stripped. */
  lemma StoredEnds(all: seq<string>, joined: string, sep: char)
    requires joined != "" && SplitBy(joined, sep) == all
    ensures var back := SplitBy(Strip(joined, sep), sep);
      && |back| <= |all|
      && if back == [""] then all[|all| - 1] == "" else back[0] != "" && back[|back| - 1] != ""
  {
    var t := Strip(joined, sep);
    StripShortens(joined, sep);
    StripSplits(joined, sep);
    if t == "" {
      StripToNothing(joined, sep);
      SplitEnds(joined, sep);
    } else {
      StripEnds(joined, sep);
      SplitEnds(t, sep);
    }
  }

  lemma PrefixEnds(parts: seq<string>, more: seq<string>, back: seq<string>)
    requires parts != [] && parts <= back && |back| <= |parts + more| && parts + more != [""]
    requires forall p | p in more :: p != ""
    requires var all := parts + more;
      if back == [""] then all[|all| - 1] == "" else back[0] != "" && back[|back| - 1] != ""
    ensures var all := parts + more; all[0] != "" && all[|all| - 1] != ""
  {
    var all := parts + more;
    if more != [] {
      assert all[|all| - 1] in more;
      assert all[0] == back[0];
    } else {
      assert all == parts && back == parts;
    }
  }

  lemma PrefixIsFree(parts: seq<string>, more: seq<string>, back: seq<string>, sep: char)
    requires parts <= back && Free(back, sep) && Free(more, sep)
    ensures Free(parts + more, sep)
  {
    forall p | p in parts + more ensures sep !in p { assert p in parts ==> p in back; }
  }

  /** When the first parts of a stored list come back, although more was stored behind them. */
  lemma PrefixReadsBackIff(parts: seq<string>, more: seq<string>, sep: char)
    requires parts != [] && parts + more != [""] && Free(more, sep) && forall p | p in more :: p != ""
    ensures var all := parts + more;
      parts <= SplitBy(Strip(JoinBy(all, sep), sep), sep) <==> Free(all, sep) && all[0] != "" && all[|all| - 1] != ""
  {
    var all := parts + more;
    var back := SplitBy(Strip(JoinBy(all, sep), sep), sep);
    ReadsBackIff(all, sep);
    if parts <= back {
      PrefixIsFree(parts, more, back, sep);
      SplitJoin(all, sep);
      assert SplitBy("", sep) == [""];
      StoredEnds(all, JoinBy(all, sep), sep);
      PrefixEnds(parts, more, back);
    }
  }
}
