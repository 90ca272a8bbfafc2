/**
Objects stored field by field in a hash of texts and read back: decimal and boolean texts, pointers,
the soft-deletion time that is never written, and kinds that are written but cannot be read.
*/
module HashCodec {
  import opened Basics

  // ---------- decimal numbers ----------

  predicate IsDigit(c: char) { '0' <= c <= '9' }

  function Digits(n: nat): (s: string)
    ensures s != "" && forall c | c in s :: IsDigit(c)
  {
    if n < 10 then ['0' + n as char] else Digits(n / 10) + ['0' + (n % 10) as char]
  }

  function Abs(n: int): nat { if n < 0 then -n else n }

  function Decimal(n: int): string {
    if n < 0 then "-" + Digits(Abs(n)) else Digits(Abs(n))
  }

  predicate AllDigits(s: string) { s != "" && forall i | 0 <= i < |s| :: IsDigit(s[i]) }

  function DigitValue(c: char): nat
    requires IsDigit(c)
  {
    c as int - 48
  }

  function DigitsValue(s: string): nat
    requires forall i | 0 <= i < |s| :: IsDigit(s[i])
  {
    if s == "" then 0 else 10 * DigitsValue(s[..|s| - 1]) + DigitValue(s[|s| - 1])
  }

  /** A decimal number of 64 bits, with or without a sign. */
  function ParseInt(s: string): Option<int64> {
    var digits := if s != "" && (s[0] == '-' || s[0] == '+') then s[1..] else s;
    if !AllDigits(digits) then None
    else
      var sign := if s[0] == '-' then -1 else 1;
      var n := sign * DigitsValue(digits);
      if -0x8000_0000_0000_0000 <= n < 0x8000_0000_0000_0000 then Some(n) else None
  }

  lemma {:induction false} DigitsAreValue(n: nat)
    ensures DigitsValue(Digits(n)) == n
  {
    var s := Digits(n);
    if n < 10 {
      assert s[..0] == "";
    } else {
      DigitsAreValue(n / 10);
      assert s[..|s| - 1] == Digits(n / 10);
    }
  }

  /** Printing and parsing are inverse on all 64-bit numbers. */
  lemma DecimalRoundTrip(n: int64)
    ensures ParseInt(Decimal(n)) == Some(n)
  {
    var digits := Digits(Abs(n));
    DigitsAreValue(Abs(n));
    forall i | 0 <= i < |digits| ensures IsDigit(digits[i]) { assert digits[i] in digits; }
    var s := Decimal(n);
    if n < 0 {
      assert s[0] == '-' && s[1..] == digits;
    } else {
      assert s == digits && IsDigit(s[0]);
    }
  }

  const TRUE_TEXTS: set<string> := {"1", "t", "T", "TRUE", "true", "True"}
  const FALSE_TEXTS: set<string> := {"0", "f", "F", "FALSE", "false", "False"}

  function ParseBool(s: string): Option<bool> {
    if s in TRUE_TEXTS then Some(true) else if s in FALSE_TEXTS then Some(false) else None
  }

  // ---------- objects ----------

  /** The kinds the codec distinguishes: other structs are ignored on reading, other kinds refused. */
  datatype Kind = String | Int | Bool | DeletedAt | OtherStruct | Unsupported

  /** A value; of the last two kinds only the text it is printed as. */
  datatype Scalar =
    | Text(s: string) | Number(n: int64) | Flag(b: bool) | Time(t: Option<string>) | Opaque(printed: string)

  datatype Value = Plain(v: Scalar) | Nil | Pointer(v: Scalar)
  datatype Field = Field(name: string, kind: Kind, value: Value)

  datatype Error =
    | NotFound | BadInt(name: string) | BadBool(name: string) | BadTime(name: string) | BadKind(name: string)

  predicate OfKind(v: Scalar, kind: Kind) {
    match kind
    case String => v.Text?
    case Int => v.Number?
    case Bool => v.Flag?
    case DeletedAt => v.Time?
    case _ => v.Opaque?
  }

  /** A field of a Go struct; a pointer to a deletion time is not considered. */
  predicate FieldOk(f: Field) {
    (f.value.Nil? || OfKind(f.value.v, f.kind)) && (f.kind == DeletedAt ==> f.value.Plain?)
  }

  ghost predicate ObjectOk(obj: seq<Field>) {
    && (forall i | 0 <= i < |obj| :: FieldOk(obj[i]))
    && forall i, j | 0 <= i < j < |obj| :: obj[i].name != obj[j].name
  }

  function ZeroOf(kind: Kind): Scalar {
    match kind
    case String => Text("")
    case Int => Number(0)
    case Bool => Flag(false)
    case DeletedAt => Time(None)
    case _ => Opaque("")
  }

  function ZeroField(f: Field): Field {
    f.(value := if f.value.Plain? then Plain(ZeroOf(f.kind)) else Nil)
  }

  // ---------- writing ----------

  function PrintScalar(v: Scalar): string {
    match v
    case Text(s) => s
    case Number(n) => Decimal(n)
    case Flag(b) => if b then "true" else "false"
    case Time(_) => ""
    case Opaque(printed) => printed
  }

  function Printed(f: Field): string { if f.value.Nil? then "" else PrintScalar(f.value.v) }

  /** The hash holds of every field what is written for it, and nothing else. */
  ghost predicate Holds(data: map<string, string>, obj: seq<Field>) {
    && (forall i | 0 <= i < |obj| && obj[i].kind != DeletedAt ::
        obj[i].name in data && data[obj[i].name] == Printed(obj[i]))
    && forall name | name in data :: Writes(obj, name)
  }

  ghost predicate Writes(obj: seq<Field>, name: string) {
    exists i :: 0 <= i < |obj| && obj[i].name == name && obj[i].kind != DeletedAt
  }

  method HSetObj(obj: seq<Field>) returns (data: map<string, string>)
    requires ObjectOk(obj)
    ensures Holds(data, obj)
  {
    data := map[];
    for i := 0 to |obj|
      invariant forall j | 0 <= j < i && obj[j].kind != DeletedAt ::
        obj[j].name in data && data[obj[j].name] == Printed(obj[j])
      invariant forall name | name in data :: Writes(obj, name)
    {
      var field := obj[i];
      if field.kind == DeletedAt {
        continue;
      }
      assert Writes(obj, field.name);
      if field.value.Nil? {
        data := data[field.name := ""];
        continue;
      }
      data := data[field.name := PrintScalar(field.value.v)];
    }
  }

  // ---------- reading ----------

  /** What becomes of a field for which the hash has a text, and the error, if any. */
  function Read(f: Field, text: string, times: imap<string, string>): (Value, Option<Error>) {
    if !f.value.Plain? && text == "" then (f.value, None)
    else
      var wrap := (v: Scalar) => if f.value.Plain? then Plain(v) else Pointer(v);
      var before := if f.value.Nil? then ZeroOf(f.kind) else f.value.v;
      match f.kind
      case String => (wrap(Text(text)), None)
      case Int => (
        match ParseInt(text)
        case Some(n) => (wrap(Number(n)), None)
        case None => (wrap(before), Some(BadInt(f.name)))
      )
      case Bool => (
        match ParseBool(text)
        case Some(b) => (wrap(Flag(b)), None)
        case None => (wrap(before), Some(BadBool(f.name)))
      )
      case DeletedAt =>
        if text == "" then (wrap(before), None)
        else if text in times then (wrap(Time(Some(times[text]))), None)
        else (wrap(before), Some(BadTime(f.name)))
      case OtherStruct => (wrap(before), None)
      case Unsupported => (wrap(before), Some(BadKind(f.name)))
  }

  function ReadField(f: Field, result: map<string, string>, times: imap<string, string>): (Field, Option<Error>) {
    if f.name in result then var r := Read(f, result[f.name], times); (f.(value := r.0), r.1) else (f, None)
  }

  /** How reading a hash into an object ends: `at` is the first field that cannot be read. */
  ghost predicate ReadInto(result: map<string, string>, before: seq<Field>, after: seq<Field>, error: Option<Error>,
                           at: nat, times: imap<string, string>)
  {
    && |after| == |before| && at <= |before|
    && (result == map[] <==> error == Some(NotFound))
    && (error == Some(NotFound) ==> after == before)
    && (error != Some(NotFound) ==>
         && (forall i | 0 <= i < at :: ReadField(before[i], result, times) == (after[i], None))
         && (if at < |before| then error.Some?
           && ReadField(before[at], result, times) == (after[at], error) else error.None?)
         && (forall i | at < i < |before| :: after[i] == before[i]))
  }

  /** Reads a hash into an object, field by field. The first field that cannot be read ends it; the
      fields before it have been set by then, those behind it have not. */
  method HGetObj(result: map<string, string>, obj: array<Field>, times: imap<string, string>)
    returns (error: Option<Error>, at: nat)
    modifies obj
    ensures ReadInto(result, old(obj[..]), obj[..], error, at, times)
  {
    if result == map[] {
      return Some(NotFound), 0;
    }
    at := 0;
    while at < obj.Length
      invariant 0 <= at <= obj.Length
      invariant forall i | 0 <= i < at :: ReadField(old(obj[i]), result, times) == (obj[i], None)
      invariant forall i | at <= i < obj.Length :: obj[i] == old(obj[i])
    {
      var field := obj[at];
      if field.name in result {
        var value;
        value, error := ReadValue(field, result[field.name], times);
        obj[at] := field.(value := value);
        if error.Some? {
          return;
        }
      }
      at := at + 1;
    }
    error := None;
  }

  /** The conversions of one field, as they are written. */
  method ReadValue(field: Field, text: string, times: imap<string, string>) returns (value: Value, error: Option<Error>)
    ensures (value, error) == Read(field, text, times) && error != Some(NotFound)
  {
    value := field.value;
    if !value.Plain? {
      if text == "" {
        return value, None;
      }
      if value.Nil? {
        value := Pointer(ZeroOf(field.kind));
      }
    }
    match field.kind {
      case String =>
        value := value.(v := Text(text));
      case Int =>
        var n := ParseInt(text);
        if n.None? {
          return value, Some(BadInt(field.name));
        }
        value := value.(v := Number(n.value));
      case Bool =>
        var b := ParseBool(text);
        if b.None? {
          return value, Some(BadBool(field.name));
        }
        value := value.(v := Flag(b.value));
      case DeletedAt =>
        if text != "" {
          if text !in times {
            return value, Some(BadTime(field.name));
          }
          value := value.(v := Time(Some(times[text])));
        }
      case OtherStruct =>
      case Unsupported =>
        return value, Some(BadKind(field.name));
    }
    return value, None;
  }

  /** What is written for a value: texts as they are, numbers in decimal, flags as words, and nothing for
      a nil pointer; a pointer is written as what it points to. */
  lemma PrintedAs(f: Field)
    ensures f.value.Nil? ==> Printed(f) == ""
    ensures !f.value.Nil? ==>
      match f.value.v
      case Text(s) => Printed(f) == s
      case Number(n) => ParseInt(Printed(f)) == Some(n)
      case Flag(b) => Printed(f) == if b then "true" else "false"
      case Time(_) => Printed(f) == ""
      case Opaque(printed) => Printed(f) == printed
  {
    if !f.value.Nil? && f.value.v.Number? { DecimalRoundTrip(f.value.v.n); }
  }

  /** What a text that can be read sets a field to, whether the field is a pointer or not, and whatever
      it held; an empty text leaves a pointer as it is. */
  lemma ReadSets(f: Field, text: string, n: int64, times: imap<string, string>)
    ensures !f.value.Plain? && text == "" ==> Read(f, text, times) == (f.value, None)
    ensures f.value.Plain? || text != "" ==>
      var (value, error) := Read(f, text, times);
      && (f.kind == String ==>
            value == (if f.value.Plain? then Plain(Text(text)) else Pointer(Text(text))) && error.None?)
      && (f.kind == Int && text == Decimal(n) ==>
            value == (if f.value.Plain? then Plain(Number(n)) else Pointer(Number(n))) && error.None?)
      && (f.kind == Bool && text in {"1", "t", "T", "TRUE", "true", "True"} ==>
            value == (if f.value.Plain? then Plain(Flag(true)) else Pointer(Flag(true))) && error.None?)
      && (f.kind == Bool && text in {"0", "f", "F", "FALSE", "false", "False"} ==>
            value == (if f.value.Plain? then Plain(Flag(false)) else Pointer(Flag(false))) && error.None?)
      && (f.kind == DeletedAt && text != "" && text in times ==>
            error.None? && value == (if f.value.Plain? then Plain(Time(Some(times[text])))
                                     else Pointer(Time(Some(times[text])))))
  {
    DecimalRoundTrip(n);
  }

  /** When a text cannot be read: a number that is none or too large, a word that is no flag, a time
      that is none, or a kind that cannot be read at all. Then the value stays, or becomes a pointer to
      zero. */
  lemma ReadFails(f: Field, text: string, times: imap<string, string>)
    requires f.value.Plain? || text != ""
    ensures var (value, error) := Read(f, text, times);
      && (error.Some? <==>
            || (f.kind == Int && ParseInt(text).None?)
            || (f.kind == Bool && text !in {"1", "t", "T", "TRUE", "true", "True"}
                               && text !in {"0", "f", "F", "FALSE", "false", "False"})
            || (f.kind == DeletedAt && text != "" && text !in times)
            || f.kind == Unsupported)
      && (error.Some? || f.kind == OtherStruct || (f.kind == DeletedAt && text == "") ==>
            value == if f.value.Nil? then Pointer(ZeroOf(f.kind)) else f.value)
  {
  }

  /** A text is a number if it consists of digits, with or without a sign, and fits 64 bits. */
  lemma ParseIntIff(s: string)
    ensures ParseInt(s).Some? <==>
      && s != ""
      && var digits := if s[0] == '-' || s[0] == '+' then s[1..] else s;
         && digits != "" && (forall i | 0 <= i < |digits| :: '0' <= digits[i] <= '9')
         && var n := DigitsValue(digits);
            if s[0] == '-' then n <= 0x8000_0000_0000_0000 else n < 0x8000_0000_0000_0000
  {
  }

  // ---------- round trip ----------

  /** A field that is written but cannot be read back. */
  predicate Unreadable(f: Field) {
    f.kind == Unsupported && (f.value.Plain? || Printed(f) != "")
  }

  /** What comes back: pointers to empty texts become nil, deletion times and other structs zero. */
  function Restored(f: Field): Field {
    if f.kind == DeletedAt || f.value.Nil? || (f.value.Pointer? && Printed(f) == "") then ZeroField(f)
    else if f.kind == OtherStruct then f.(value := if f.value.Plain? then Plain(Opaque("")) else Pointer(Opaque("")))
    else f
  }

  lemma ReadsWhatWasPrinted(f: Field, times: imap<string, string>)
    requires FieldOk(f) && f.kind != DeletedAt
    ensures var r := Read(ZeroField(f), Printed(f), times);
      if Unreadable(f) then r.1 == Some(BadKind(f.name)) else r == (Restored(f).value, None)
  {
    if !f.value.Nil? && f.value.v.Number? { DecimalRoundTrip(f.value.v.n); }
  }

  /** Exactly which readable fields come back as they were. */
  lemma RestoredIff(f: Field)
    requires FieldOk(f) && f.kind in {String, Int, Bool, DeletedAt}
    ensures !Unreadable(f)
    ensures Restored(f) == f <==> f.value != Pointer(Text("")) && (f.kind == DeletedAt ==> f.value == Plain(Time(None)))
  {
    if !f.value.Nil? && f.value.v.Number? { DecimalRoundTrip(f.value.v.n); }
  }

  /** What comes back of the other fields: of a nested struct nothing; a kind that cannot be read is an
      error, unless it is a pointer for which nothing is written. */
  lemma RestoredOthers(f: Field)
    requires FieldOk(f) && f.kind in {OtherStruct, Unsupported}
    ensures Unreadable(f) <==>
      f.kind == Unsupported && (f.value.Plain? || (f.value.Pointer? && f.value.v != Opaque("")))
    ensures !Unreadable(f) ==>
      Restored(f).value == (if f.value.Plain? then Plain(Opaque(""))
                            else if f.value.Nil? || f.value.v == Opaque("") then Nil else Pointer(Opaque("")))
  {
  }

  /** Writing an object over an earlier hash of the same key and reading it into a zero object. It
      succeeds exactly when something is stored and every field can be read. */
  method WriteThenRead(obj: seq<Field>, earlier: map<string, string>, times: imap<string, string>)
    returns (back: seq<Field>, error: Option<Error>)
    requires ObjectOk(obj) && forall i | 0 <= i < |obj| && obj[i].kind == DeletedAt :: obj[i].name !in earlier
    ensures error.None? ==> |back| == |obj| && forall i | 0 <= i < |obj| :: back[i] == Restored(obj[i])
    ensures error.None? <==> (earlier != map[] || exists i :: 0 <= i < |obj| && obj[i].kind != DeletedAt)
                             && forall i | 0 <= i < |obj| :: !Unreadable(obj[i])
  {
    var data := HSetObj(obj);
    var hash := earlier + data;
    var fields := new Field[|obj|](i requires 0 <= i < |obj| => ZeroField(obj[i]));
    FieldsReadBack(obj, data, earlier, times);
    SomethingStored(obj, data, earlier);
    ghost var zero := fields[..];
    var at;
    error, at := HGetObj(hash, fields, times);
    back := fields[..];
    AllReadBack(obj, hash, zero, back, error, at, times);
  }

  lemma AllReadBack(obj: seq<Field>, hash: map<string, string>, zero: seq<Field>, back: seq<Field>,
                    error: Option<Error>, at: nat, times: imap<string, string>)
    requires ReadInto(hash, zero, back, error, at, times) && |zero| == |obj|
    requires forall i | 0 <= i < |obj| :: zero[i] == ZeroField(obj[i]) && ReadsBack(obj[i], hash, times)
    ensures error.None? ==> forall i | 0 <= i < |obj| :: back[i] == Restored(obj[i])
    ensures error.None? <==> hash != map[] && forall i | 0 <= i < |obj| :: !Unreadable(obj[i])
  {
    forall i | error.None? && 0 <= i < |obj| ensures back[i] == Restored(obj[i]) && !Unreadable(obj[i]) {
      assert ReadsBack(obj[i], hash, times);
    }
    assert error.Some? && hash != map[] ==> ReadsBack(obj[at], hash, times);
  }

  ghost predicate ReadsBack(f: Field, hash: map<string, string>, times: imap<string, string>) {
    var r := ReadField(ZeroField(f), hash, times);
    if Unreadable(f) then r.1 == Some(BadKind(f.name)) else r == (Restored(f), None)
  }

  lemma FieldReadsBack(obj: seq<Field>, data: map<string, string>, earlier: map<string, string>,
                       times: imap<string, string>, i: nat)
    requires ObjectOk(obj) && Holds(data, obj) && i < |obj| && (obj[i].kind == DeletedAt ==> obj[i].name !in earlier)
    ensures ReadsBack(obj[i], earlier + data, times)
  {
    var f := obj[i];
    assert f.name in data ==> Writes(obj, f.name);
    if f.kind != DeletedAt {
      ReadsWhatWasPrinted(f, times);
    }
  }

  lemma FieldsReadBack(obj: seq<Field>, data: map<string, string>, earlier: map<string, string>,
                       times: imap<string, string>)
    requires ObjectOk(obj) && Holds(data, obj)
    requires forall i | 0 <= i < |obj| && obj[i].kind == DeletedAt :: obj[i].name !in earlier
    ensures forall i | 0 <= i < |obj| :: ReadsBack(obj[i], earlier + data, times)
  {
    forall i | 0 <= i < |obj| ensures ReadsBack(obj[i], earlier + data, times) {
      FieldReadsBack(obj, data, earlier, times, i);
    }
  }

  lemma SomethingStored(obj: seq<Field>, data: map<string, string>, earlier: map<string, string>)
    requires Holds(data, obj)
    ensures earlier + data != map[] <==> earlier != map[] || exists i :: 0 <= i < |obj| && obj[i].kind != DeletedAt
  {
    assert (earlier + data).Keys == earlier.Keys + data.Keys;
    if data != map[] {
      var name :| name in data;
      assert Writes(obj, name);
    }
    if i :| 0 <= i < |obj| && obj[i].kind != DeletedAt {
      assert obj[i].name in data;
    }
  }
}
