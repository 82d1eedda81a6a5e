/**
  Values as Python's json module decodes them (None, bool, int, str, list,
  dict), key lookup with Python's `v[key]`, and Python's `str()` of such a
  value, which is what an f-string placeholder produces.
 */
module PyJson {
  import opened Wrappers

  datatype Json =
    | JNull
    | JBool(b: bool)
    | JInt(n: int)
    | JStr(s: string)
    | JList(items: seq<Json>)
    | JDict(entries: seq<Entry>)  // insertion order, as a Python dict keeps it

  datatype Entry = Entry(key: string, value: Json)

  /** The keys of a dict, in insertion order. */
  function Keys(entries: seq<Entry>): seq<string> {
    seq(|entries|, i requires 0 <= i < |entries| => entries[i].key)
  }

  /** The value stored under `key`; None when the dict has no such key. */
  function Find(entries: seq<Entry>, key: string): Option<Json> {
    if entries == [] then None
    else if entries[0].key == key then Some(entries[0].value)
    else Find(entries[1..], key)
  }

  /**
    A lookup finds the key exactly when some entry has it, and then yields
    the value of the first such entry.
   */
  lemma {:induction false} FindSpec(entries: seq<Entry>, key: string)
    ensures Find(entries, key).None? <==> forall i :: 0 <= i < |entries| ==> entries[i].key != key
    ensures forall i :: 0 <= i < |entries| && entries[i].key == key ==>
              (forall j :: 0 <= j < i ==> entries[j].key != key) ==> Find(entries, key) == Some(entries[i].value)
  {
    if entries != [] && entries[0].key != key {
      FindSpec(entries[1..], key);
      assert forall i :: 1 <= i < |entries| ==> entries[i] == entries[1..][i - 1];
    }
  }

  /**
    Python's `v[key]` with a string key: a dict without the key raises
    KeyError, and a value that is not a dict raises TypeError; both are None.
   */
  function Get(v: Json, key: string): Option<Json> {
    match v
    case JDict(entries) => Find(entries, key)
    case _ => None
  }

  /**
    `v[key]` raises exactly when `v` is not a dict or has no entry under
    `key`; otherwise it yields the value of the first such entry.
   */
  lemma GetSpec(v: Json, key: string)
    ensures Get(v, key).None? <==> !v.JDict? || forall i :: 0 <= i < |v.entries| ==> v.entries[i].key != key
    ensures v.JDict? ==> forall i :: 0 <= i < |v.entries| && v.entries[i].key == key ==>
              (forall j :: 0 <= j < i ==> v.entries[j].key != key) ==> Get(v, key) == Some(v.entries[i].value)
  {
    if v.JDict? {
      FindSpec(v.entries, key);
    }
  }

  /** `v[p0][p1]...`: the successive lookups of a path; None if any of them raises. */
  function At(v: Json, path: seq<string>): Option<Json>
    decreases |path|
  {
    if path == [] then Some(v)
    else
      match Get(v, path[0])
      case None => None
      case Some(child) => At(child, path[1..])
  }

  /** Looking up `p + q` is looking up `p` and then `q` in what it found. */
  lemma {:induction false} AtConcat(v: Json, p: seq<string>, q: seq<string>)
    ensures At(v, p + q) == match At(v, p) case None => None case Some(w) => At(w, q)
    decreases |p|
  {
    if p == [] {
      assert p + q == q;
    } else {
      assert (p + q)[0] == p[0];
      assert (p + q)[1..] == p[1..] + q;
      match Get(v, p[0])
      case None =>
      case Some(child) => AtConcat(child, p[1..], q);
    }
  }

  /** Once a lookup along a path raises, nothing after it is read: the longer path raises too. */
  lemma AtMissingStops(v: Json, p: seq<string>, q: seq<string>)
    requires At(v, p).None?
    ensures At(v, p + q).None?
  {
    AtConcat(v, p, q);
  }

  // ---- Python's str() and repr() ----

  predicate IsDigit(c: char) {
    '0' <= c <= '9'
  }

  function DigitChar(d: nat): (c: char)
    requires d < 10
    ensures IsDigit(c)
  {
    ('0' as int + d) as char
  }

  function DigitValue(c: char): (d: nat)
    requires IsDigit(c)
    ensures d < 10 && DigitChar(d) == c
  {
    c as int - '0' as int
  }

  /** Decimal digits of a natural number, most significant first, no leading zeros. */
  function NatToString(n: nat): (s: string)
    ensures |s| > 0 && forall i :: 0 <= i < |s| ==> IsDigit(s[i])
    ensures |s| > 1 ==> s[0] != '0'
    decreases n
  {
    if n < 10 then [DigitChar(n)] else NatToString(n / 10) + [DigitChar(n % 10)]
  }

  /** Python's `str(n)` for an int: an optional minus sign, then the decimal digits. */
  function IntToString(n: int): (s: string)
    ensures |s| > 0 && (s[0] == '-' <==> n < 0)
    ensures forall i :: (if n < 0 then 1 else 0) <= i < |s| ==> IsDigit(s[i])
    ensures var d := if n < 0 then s[1..] else s; |d| > 0 && (|d| > 1 ==> d[0] != '0')
  {
    if n < 0 then "-" + NatToString(-n) else NatToString(n)
  }

  predicate AllDigits(s: string) {
    forall i :: 0 <= i < |s| ==> IsDigit(s[i])
  }

  /** The value of a non-empty digit string. */
  function ParseNat(s: string): nat
    requires |s| > 0 && AllDigits(s)
    decreases |s|
  {
    if |s| == 1 then DigitValue(s[0])
    else ParseNat(s[..|s| - 1]) * 10 + DigitValue(s[|s| - 1])
  }

  /** Reads an integer back from an optional minus sign followed by digits. */
  function ParseInt(s: string): Option<int> {
    if |s| > 1 && s[0] == '-' && AllDigits(s[1..]) then Some(-(ParseNat(s[1..]) as int))
    else if |s| > 0 && s[0] != '-' && AllDigits(s) then Some(ParseNat(s))
    else None
  }

  lemma {:induction false} ParseNatToString(n: nat)
    ensures ParseNat(NatToString(n)) == n
    decreases n
  {
    if n >= 10 {
      var s := NatToString(n);
      assert s[..|s| - 1] == NatToString(n / 10);
      ParseNatToString(n / 10);
    }
  }

  /** The decimal rendering of an int loses nothing: it reads back as the same int. */
  lemma ParseIntToString(n: int)
    ensures ParseInt(IntToString(n)) == Some(n)
  {
    if n < 0 {
      assert IntToString(n)[1..] == NatToString(-n);
      ParseNatToString(-n);
    } else {
      ParseNatToString(n);
    }
  }

  /** Python's `str(v)`: a str is itself, anything else is its repr. */
  function Str(v: Json): (s: string)
    ensures v.JStr? ==> s == v.s
    ensures v.JInt? ==> s == IntToString(v.n) && ParseInt(s) == Some(v.n)
    ensures !v.JStr? ==> s == Repr(v)
  {
    match v
    case JStr(s) => s
    case JInt(n) => ParseIntToString(n); Repr(v)
    case _ => Repr(v)
  }

  /**
    Python's `repr(v)`. Strings are wrapped in single quotes; the escaping
    Python applies to quotes, backslashes and unprintable characters inside
    them is not modelled.
   */
  function Repr(v: Json): (r: string)
    ensures v.JNull? ==> r == "None"
    ensures v.JBool? ==> r == (if v.b then "True" else "False")
    ensures v.JInt? ==> r == IntToString(v.n)
    ensures v.JStr? ==> |r| == |v.s| + 2 && r[0] == r[|r| - 1] == '\'' && r[1..|r| - 1] == v.s
    ensures v.JList? ==> |r| >= 2 && r[0] == '[' && r[|r| - 1] == ']'
    ensures v.JDict? ==> |r| >= 2 && r[0] == '{' && r[|r| - 1] == '}'
    decreases v, 1, 0
  {
    match v
    case JNull => "None"
    case JBool(b) => if b then "True" else "False"
    case JInt(n) => IntToString(n)
    case JStr(s) => Quote(s)
    case JList(_) => "[" + ReprItems(v, 0) + "]"
    case JDict(_) => "{" + ReprEntries(v, 0) + "}"
  }

  function Quote(s: string): string {
    "'" + s + "'"
  }

  function ReprItems(v: Json, i: nat): string
    requires v.JList? && i <= |v.items|
    decreases v, 0, |v.items| - i
  {
    if i == |v.items| then ""
    else (if i == 0 then "" else ", ") + Repr(v.items[i]) + ReprItems(v, i + 1)
  }

  function ReprEntries(v: Json, i: nat): string
    requires v.JDict? && i <= |v.entries|
    decreases v, 0, |v.entries| - i
  {
    if i == |v.entries| then ""
    else
      (if i == 0 then "" else ", ") + (Quote(v.entries[i].key) + ": " + Repr(v.entries[i].value))
      + ReprEntries(v, i + 1)
  }

  /** `", ".join(parts)`: the parts in order, separated by a comma and a space. */
  function Join(parts: seq<string>): string
    decreases |parts|
  {
    if |parts| == 0 then ""
    else if |parts| == 1 then parts[0]
    else parts[0] + ", " + Join(parts[1..])
  }

  /** The reprs of a list's items, in order. */
  function ItemReprs(items: seq<Json>): seq<string> {
    seq(|items|, k requires 0 <= k < |items| => Repr(items[k]))
  }

  /** A dict's entries as `repr` shows them: the quoted key, a colon and a space, then the value's repr. */
  function EntryReprs(entries: seq<Entry>): seq<string> {
    seq(|entries|, k requires 0 <= k < |entries| => Quote(entries[k].key) + ": " + Repr(entries[k].value))
  }

  /** The parts from the i-th on, each after a ", " except the very first part. */
  function JoinFrom(parts: seq<string>, i: nat): string
    requires i <= |parts|
    decreases |parts| - i
  {
    if i == |parts| then ""
    else (if i == 0 then "" else ", ") + parts[i] + JoinFrom(parts, i + 1)
  }

  lemma {:induction false} JoinFromJoin(parts: seq<string>, i: nat)
    requires i <= |parts|
    ensures JoinFrom(parts, i) == if i == |parts| then "" else (if i == 0 then "" else ", ") + Join(parts[i..])
    decreases |parts| - i
  {
    if i < |parts| {
      JoinFromJoin(parts, i + 1);
      var sep: string := if i == 0 then "" else ", ";
      assert parts[i..][0] == parts[i];
      assert parts[i..][1..] == parts[i + 1..];
      if i + 1 < |parts| {
        var rest := Join(parts[i + 1..]);
        assert Join(parts[i..]) == parts[i] + ", " + rest;
        assert sep + parts[i] + (", " + rest) == sep + (parts[i] + ", " + rest);
      }
    }
  }

  lemma {:induction false} ReprItemsJoinFrom(v: Json, i: nat)
    requires v.JList? && i <= |v.items|
    ensures ReprItems(v, i) == JoinFrom(ItemReprs(v.items), i)
    decreases |v.items| - i
  {
    if i < |v.items| {
      ReprItemsJoinFrom(v, i + 1);
    }
  }

  lemma {:induction false} ReprEntriesJoinFrom(v: Json, i: nat)
    requires v.JDict? && i <= |v.entries|
    ensures ReprEntries(v, i) == JoinFrom(EntryReprs(v.entries), i)
    decreases |v.entries| - i
  {
    if i < |v.entries| {
      ReprEntriesJoinFrom(v, i + 1);
    }
  }

  /** `repr()` of a list is its items' reprs joined by ", " inside brackets. */
  lemma ReprList(items: seq<Json>)
    ensures Repr(JList(items)) == "[" + Join(ItemReprs(items)) + "]"
  {
    ReprItemsJoinFrom(JList(items), 0);
    JoinFromJoin(ItemReprs(items), 0);
    assert ItemReprs(items)[0..] == ItemReprs(items);
  }

  /** `repr()` of a dict is its `'key': value` entries joined by ", " inside braces. */
  lemma ReprDict(entries: seq<Entry>)
    ensures Repr(JDict(entries)) == "{" + Join(EntryReprs(entries)) + "}"
  {
    ReprEntriesJoinFrom(JDict(entries), 0);
    JoinFromJoin(EntryReprs(entries), 0);
    assert EntryReprs(entries)[0..] == EntryReprs(entries);
  }
}
