/**
  JSON values as Python's `json.loads` delivers them, and the parts of the
  Python runtime that stay abstract: the escape table of `json.dumps`, `str` of
  containers and floats, `float(text)`, `int(text)`.
 */
module Json {
  import opened PyText

  datatype Option<+T> = None | Some(value: T)

  /** A number; `json.loads` also reads the infinities and NaN. */
  datatype Number = Int(i: int) | Float(r: real) | Infinity(negative: bool) | NaN

  /** A dict keeps its items in insertion order. */
  datatype Value =
    | Null
    | Bool(b: bool)
    | Num(n: Number)
    | Str(s: string)
    | List(items: seq<Value>)
    | Dict(entries: seq<Entry>)

  datatype Entry = Entry(key: string, value: Value)

  /** A top-level claims dict; only its lookups matter. */
  type Claims = map<string, Value>

  /** Python's `bool(value)`. */
  predicate Truthy(v: Value) {
    match v
    case Null => false
    case Bool(b) => b
    case Num(Int(i)) => i != 0
    case Num(Float(r)) => r != 0.0
    case Num(Infinity(_)) => true
    case Num(NaN) => true
    case Str(s) => s != ""
    case List(items) => items != []
    case Dict(entries) => entries != []
  }

  /** What Python counts as false. */
  lemma TruthyIff(v: Value)
    ensures !Truthy(v) <==>
            v in {Null, Bool(false), Num(Int(0)), Num(Float(0.0)), Str(""), List([]), Dict([])}
  {
  }

  /** Python's `claims.get(key)`. */
  function Get(claims: Claims, key: string): Value {
    if key in claims then claims[key] else Null
  }

  /** What `int(float(text))` does: a ValueError, a whole number, or an uncaught OverflowError. */
  datatype FloatParse = NotANumber | Whole(t: int) | Overflow

  datatype RawRuntime = RawRuntime(
    escape: char -> string,
    str: Value -> string,
    parseFloat: string -> FloatParse)

  /** The letters a rendered number is made of: digits, sign, point, exponent, `inf`, `nan`. */
  predicate NumeralChar(c: char) {
    IsDigit(c) || c in "+-.einfa"
  }

  /**
    What is assumed of the abstract parts: an escaped character is not empty,
    `str` leaves strings alone and renders numbers in numeral letters, and a text
    that ends in the ellipsis is no number.
   */
  ghost predicate Faithful(py: RawRuntime) {
    && (forall c :: py.escape(c) != "")
    && (forall s :: py.str(Str(s)) == s)
    && (forall i :: py.str(Num(Int(i))) == Decimal(i))
    && (forall n, k :: 0 <= k < |py.str(Num(n))| ==> NumeralChar(py.str(Num(n))[k]))
    && (forall s :: EndsIn(s, ELLIPSIS) ==> py.parseFloat(s) == NotANumber)
  }

  function PlainStr(v: Value): string {
    match v
    case Str(s) => s
    case Num(Int(i)) => Decimal(i)
    case _ => "0"
  }

  type Runtime = py: RawRuntime | Faithful(py)
    ghost witness RawRuntime((c: char) => [c], (v: Value) => PlainStr(v), (s: string) => NotANumber)

  type Entries = seq<Entry>

  /** The dict an iteration of its items describes. */
  function FromItems(items: Entries): Claims {
    if items == [] then map[] else FromItems(items[..|items| - 1])[items[|items| - 1].key := items[|items| - 1].value]
  }

  predicate UniqueKeys(items: Entries) {
    forall i, j :: 0 <= i < j < |items| ==> items[i].key != items[j].key
  }

  lemma {:induction false} FromItemsKeys(items: Entries, k: string)
    ensures k in FromItems(items) <==> exists i :: 0 <= i < |items| && items[i].key == k
  {
    if items == [] {
    } else {
      FromItemsKeys(items[..|items| - 1], k);
      assert items[..|items| - 1] + [items[|items| - 1]] == items;
    }
  }

  /** A value of the dict is the value of one of its items. */
  lemma {:induction false} FromItemsValue(items: Entries, k: string) returns (i: nat)
    requires k in FromItems(items)
    ensures i < |items| && items[i] == Entry(k, FromItems(items)[k])
  {
    var n := |items| - 1;
    if items[n].key == k {
      i := n;
    } else {
      i := FromItemsValue(items[..n], k);
    }
  }

  /** With unique keys every item is in the dict as it stands. */
  lemma {:induction false} ItemInDict(items: Entries, i: nat)
    requires UniqueKeys(items) && i < |items|
    ensures items[i].key in FromItems(items) && FromItems(items)[items[i].key] == items[i].value
  {
    if i < |items| - 1 {
      ItemInDict(items[..|items| - 1], i);
    }
  }

  // ---------- json.dumps(value, separators=(",", ":")) ----------

  function EscapeAll(py: Runtime, s: string): string {
    if s == "" then "" else py.escape(s[0]) + EscapeAll(py, s[1..])
  }

  function Quote(py: Runtime, s: string): string {
    "\"" + EscapeAll(py, s) + "\""
  }

  /** The infinities and NaN have names of their own; other numbers are written as `str` writes them. */
  function SerialiseNumber(py: Runtime, n: Number): string {
    match n
    case Infinity(negative) => if negative then "-Infinity" else "Infinity"
    case NaN => "NaN"
    case _ => py.str(Num(n))
  }

  function Serialise(py: Runtime, v: Value): string
    decreases v, 1
  {
    match v
    case Null => "null"
    case Bool(b) => if b then "true" else "false"
    case Num(n) => SerialiseNumber(py, n)
    case Str(s) => Quote(py, s)
    case List(items) => "[" + SerialiseItems(py, items) + "]"
    case Dict(entries) => "{" + SerialiseEntries(py, entries) + "}"
  }

  function SerialiseItems(py: Runtime, items: seq<Value>): string
    decreases items, 0
  {
    if items == [] then ""
    else if |items| == 1 then Serialise(py, items[0])
    else Serialise(py, items[0]) + "," + SerialiseItems(py, items[1..])
  }

  function SerialiseEntries(py: Runtime, entries: seq<Entry>): string
    decreases entries, 0
  {
    if entries == [] then ""
    else
      var head := Quote(py, entries[0].key) + ":" + Serialise(py, entries[0].value);
      if |entries| == 1 then head else head + "," + SerialiseEntries(py, entries[1..])
  }

  lemma {:induction false} ItemsJoinByCommas(py: Runtime, a: seq<Value>, b: seq<Value>)
    requires a != [] && b != []
    ensures SerialiseItems(py, a + b) == SerialiseItems(py, a) + "," + SerialiseItems(py, b)
  {
    assert (a + b)[1..] == a[1..] + b;
    if |a| == 1 {
      assert a[1..] + b == b;
    } else {
      ItemsJoinByCommas(py, a[1..], b);
    }
  }

  lemma {:induction false} EntriesJoinByCommas(py: Runtime, a: Entries, b: Entries)
    requires a != [] && b != []
    ensures SerialiseEntries(py, a + b) == SerialiseEntries(py, a) + "," + SerialiseEntries(py, b)
  {
    assert (a + b)[1..] == a[1..] + b;
    if |a| == 1 {
      assert a[1..] + b == b;
    } else {
      EntriesJoinByCommas(py, a[1..], b);
    }
  }

  /** What one item and one entry look like. */
  lemma SerialiseOne(py: Runtime, k: string, v: Value)
    ensures Serialise(py, List([v])) == "[" + Serialise(py, v) + "]"
    ensures Serialise(py, Dict([Entry(k, v)])) == "{\"" + EscapeAll(py, k) + "\":" + Serialise(py, v) + "}"
    ensures Serialise(py, Null) == "null" && Serialise(py, Num(NaN)) == "NaN"
    ensures Serialise(py, Bool(true)) == "true" && Serialise(py, Bool(false)) == "false"
    ensures Serialise(py, Str(k)) == "\"" + EscapeAll(py, k) + "\""
  {
  }

  /** Escaping never shortens. */
  lemma {:induction false} EscapeNotShorter(py: Runtime, s: string)
    ensures |EscapeAll(py, s)| >= |s|
  {
    if s == "" {
    } else {
      EscapeNotShorter(py, s[1..]);
      assert py.escape(s[0]) != "";
    }
  }

  /** An item serialises to no more than its list does. */
  lemma {:induction false} ItemWithin(py: Runtime, items: seq<Value>, i: nat)
    requires i < |items|
    ensures |Serialise(py, items[i])| <= |SerialiseItems(py, items)|
  {
    if i > 0 {
      ItemWithin(py, items[1..], i - 1);
    }
  }

  /** An entry's value serialises to no more than its dict does. */
  lemma {:induction false} EntryWithin(py: Runtime, entries: seq<Entry>, i: nat)
    requires i < |entries|
    ensures |Serialise(py, entries[i].value)| <= |SerialiseEntries(py, entries)|
  {
    if i > 0 {
      EntryWithin(py, entries[1..], i - 1);
    }
  }
}
