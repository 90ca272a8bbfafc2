/**
The text in which a channel stores its keys: one to a line, or a JSON array.
*/
module KeyText {
  import opened Separated
  import opened ModelNames

  /** The texts that are JSON arrays, with the texts of their elements. */
  type Arrays = imap<string, seq<string>>

  predicate LooksLikeArray(text: string) {
    var t := Trim(text); t != "" && t[0] == '['
  }

  predicate IsArray(text: string, arrays: Arrays) {
    LooksLikeArray(text) && Trim(text) in arrays
  }

  function Lines(text: string): seq<string> { SplitBy(Strip(text, '\n'), '\n') }

  function InLines(keys: seq<string>): string { JoinBy(keys, '\n') }

  /** `Channel.GetKeys` */
  function GetKeys(text: string, arrays: Arrays): seq<string> {
    if text == "" then [] else if IsArray(text, arrays) then arrays[Trim(text)] else Lines(text)
  }

  /** The number of keys as `Channel.Update` counts them: an empty array counts as a line. */
  function CountKeys(text: string, arrays: Arrays): nat {
    if text == "" then 0
    else if IsArray(text, arrays) && arrays[Trim(text)] != [] then |arrays[Trim(text)]|
    else |Lines(text)|
  }

  /** Only an empty array makes the two ways to count differ. */
  lemma KeyCounts(text: string, arrays: Arrays)
    ensures |GetKeys(text, arrays)| == CountKeys(text, arrays) || GetKeys(text, arrays) == []
    ensures |GetKeys(text, arrays)| <= CountKeys(text, arrays)
  {
  }

  /** Keys that fit lines: no line break, and no blank line at either end. */
  predicate Storable(keys: seq<string>) {
    && (forall k | k in keys :: '\n' !in k)
    && (keys != [] ==> keys[0] != "" && keys[|keys| - 1] != "")
  }

  /** These keys come back as they are when stored one to a line. */
  predicate ReadsBack(keys: seq<string>, arrays: Arrays) {
    GetKeys(InLines(keys), arrays) == keys
  }

  /** Exactly which keys do. */
  lemma StoredKeysReadBackIff(keys: seq<string>, arrays: Arrays)
    ensures ReadsBack(keys, arrays)
      <==> if IsArray(InLines(keys), arrays) then arrays[Trim(InLines(keys))] == keys else Storable(keys)
  {
    if keys != [] && keys != [""] { ReadsBackIff(keys, '\n'); }
    if InLines(keys) == "" { NothingInLines(keys); }
  }

  lemma NothingInLines(keys: seq<string>)
    requires InLines(keys) == ""
    ensures keys == [] || keys == [""]
  {
  }

  // ---------- plain keys ----------

  /** A key with no line break, with something in it that is no space, and that does not begin like an array. */
  predicate PlainKey(k: string) { '\n' !in k && Trim(k) != "" && Trim(k)[0] != '[' }

  predicate Plain(keys: seq<string>) { forall k | k in keys :: PlainKey(k) }

  lemma {:induction false} TrimLeftOfMore(k: string, more: string)
    requires TrimLeft(k) != ""
    ensures TrimLeft(k + more) == TrimLeft(k) + more
  {
    if IsSpace(k[0]) {
      assert (k + more)[1..] == k[1..] + more;
      TrimLeftOfMore(k[1..], more);
    }
  }

  lemma {:induction false} TrimRightFirst(s: string)
    requires s != "" && !IsSpace(s[0])
    ensures TrimRight(s) != "" && TrimRight(s)[0] == s[0]
  {
    if IsSpace(s[|s| - 1]) { TrimRightFirst(s[..|s| - 1]); }
  }

  lemma NotBlank(k: string)
    requires Trim(k) != ""
    ensures TrimLeft(k) != "" && k != ""
  {
  }

  /** What stands first in a text of plain keys is what stands first in the first of them. */
  lemma PlainFirst(k: string, more: string)
    requires Trim(k) != ""
    ensures Trim(k + more) != "" && Trim(k + more)[0] == Trim(k)[0]
  {
    NotBlank(k);
    TrimLeftFirst(k);
    TrimLeftOfMore(k, more);
    TrimRightFirst(TrimLeft(k));
    TrimRightFirst(TrimLeft(k) + more);
  }

  /** Plain keys always come back. */
  lemma PlainReadsBack(keys: seq<string>, arrays: Arrays)
    requires Plain(keys)
    ensures ReadsBack(keys, arrays) && (keys != [] ==> InLines(keys) != "")
  {
    if keys != [] {
      var more := if |keys| == 1 then "" else "\n" + InLines(keys[1..]);
      assert PlainKey(keys[0]) && PlainKey(keys[|keys| - 1]);
      assert InLines(keys) == keys[0] + more;
      PlainFirst(keys[0], more);
      NotBlank(keys[|keys| - 1]);
      assert forall k | k in keys :: PlainKey(k);
    }
    StoredKeysReadBackIff(keys, arrays);
  }
}
