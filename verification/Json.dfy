/** JSON trees, their printed form, and the recursive bounding of strings and lists. */
module Json {
  import opened Prelude
  import Text

  /** Numbers are kept as printed; `zero` tells whether the value is falsy. */
  datatype Json =
    | Null
    | Bool(b: bool)
    | Num(printed: string, zero: bool)
    | Str(s: string)
    | Arr(items: seq<Json>)
    | Obj(fields: seq<Field>)

  datatype Field = Field(key: string, value: Json)

  // ----- printing, as json.dumps(..., ensure_ascii=False) -----

  function HexDigit(n: nat): char
    requires n < 16
  {
    "0123456789abcdef"[n]
  }

  /** String escapes of section 7 of RFC 8259; characters beyond ASCII stand for themselves. */
  function EscapeChar(c: char): string {
    var n := c as int;
    if c == '\"' then "\\\""
    else if c == '\\' then "\\\\"
    else if n == 0x08 then "\\b"
    else if n == 0x09 then "\\t"
    else if n == 0x0A then "\\n"
    else if n == 0x0C then "\\f"
    else if n == 0x0D then "\\r"
    else if n < 0x20 then "\\u00" + [HexDigit(n / 16), HexDigit(n % 16)]
    else [c]
  }

  function Escape(s: string): string {
    if s == [] then [] else EscapeChar(s[0]) + Escape(s[1..])
  }

  function Quote(s: string): string {
    "\"" + Escape(s) + "\""
  }

  function Print(v: Json): string
    decreases v, 1
  {
    match v
    case Null => "null"
    case Bool(b) => if b then "true" else "false"
    case Num(printed, _) => printed
    case Str(s) => Quote(s)
    case Arr(items) => "[" + PrintItems(items) + "]"
    case Obj(fields) => "{" + PrintFields(fields) + "}"
  }

  function PrintItems(items: seq<Json>): string
    decreases items, 0
  {
    if items == [] then ""
    else Print(items[0]) + (if |items| > 1 then ", " else "") + PrintItems(items[1..])
  }

  function PrintFields(fields: seq<Field>): string
    decreases fields, 0
  {
    if fields == [] then ""
    else
      Quote(fields[0].key) + ": " + Print(fields[0].value)
      + (if |fields| > 1 then ", " else "") + PrintFields(fields[1..])
  }

  function Size(v: Json): nat {
    |Print(v)|
  }

  // ----- reading escapes back -----

  function HexValue(c: char): Option<nat> {
    if '0' <= c <= '9' then Some(c as int - '0' as int)
    else if 'a' <= c <= 'f' then Some(c as int - 'a' as int + 10)
    else if 'A' <= c <= 'F' then Some(c as int - 'A' as int + 10)
    else None
  }

  /** The character after a backslash, for the two-character escapes. */
  function ShortEscape(c: char): Option<char> {
    if c == '\"' || c == '\\' || c == '/' then Some(c)
    else if c == 'b' then Some(0x08 as char)
    else if c == 't' then Some(0x09 as char)
    else if c == 'n' then Some(0x0A as char)
    else if c == 'f' then Some(0x0C as char)
    else if c == 'r' then Some(0x0D as char)
    else None
  }

  /** Decodes the inside of a JSON string, by the grammar of section 7 of RFC 8259; numeric escapes
      are read up to U+00FF. */
  function Unescape(t: string): Option<string> {
    if t == "" then Some("")
    else if t[0] != '\\' then
      if t[0] == '\"' || (t[0] as int) < 0x20 then None else Joined(t[0], Unescape(t[1..]))
    else if |t| >= 2 && ShortEscape(t[1]).Some? then Joined(ShortEscape(t[1]).value, Unescape(t[2..]))
    else if |t| >= 6 && t[1..4] == "u00" && HexValue(t[4]).Some? && HexValue(t[5]).Some? then
      Joined((16 * HexValue(t[4]).value + HexValue(t[5]).value) as char, Unescape(t[6..]))
    else None
  }

  function Joined(c: char, rest: Option<string>): Option<string> {
    if rest.Some? then Some([c] + rest.value) else None
  }

  lemma HexDigitValue(n: nat)
    requires n < 16
    ensures HexValue(HexDigit(n)) == Some(n)
  {
  }

  lemma UnescapePlain(c: char, rest: string)
    requires EscapeChar(c) == [c] && c != '\"' && c != '\\' && c as int >= 0x20
    ensures Unescape([c] + rest) == Joined(c, Unescape(rest))
  {
    assert ([c] + rest)[1..] == rest;
  }

  lemma UnescapeShort(c: char, d: char, rest: string)
    requires ShortEscape(d) == Some(c)
    ensures Unescape(['\\', d] + rest) == Joined(c, Unescape(rest))
  {
    assert (['\\', d] + rest)[2..] == rest;
  }

  lemma UnescapeHex(n: nat, rest: string)
    requires n < 0x20
    ensures Unescape("\\u00" + [HexDigit(n / 16), HexDigit(n % 16)] + rest) == Joined(n as char, Unescape(rest))
  {
    var t := "\\u00" + [HexDigit(n / 16), HexDigit(n % 16)] + rest;
    HexDigitValue(n / 16);
    HexDigitValue(n % 16);
    hide HexDigit, HexValue;
    assert t[0] == '\\' && t[1..4] == "u00" && t[6..] == rest;
  }

  /** Escaping loses nothing and produces only what the grammar of JSON strings allows. */
  lemma {:induction false} EscapeRoundTrip(s: string)
    ensures Unescape(Escape(s)) == Some(s)
  {
    if s != [] {
      var c, rest := s[0], Escape(s[1..]);
      EscapeRoundTrip(s[1..]);
      assert s == [c] + s[1..];
      UnescapeChar(c, rest);
      hide EscapeChar;
    }
  }

  lemma UnescapeChar(c: char, rest: string)
    ensures Unescape(EscapeChar(c) + rest) == Joined(c, Unescape(rest))
  {
    var e, n := EscapeChar(c), c as int;
    hide Unescape;
    if e == [c] { UnescapePlain(c, rest); }
    else if |e| == 2 { assert e == ['\\', e[1]]; UnescapeShort(c, e[1], rest); }
    else { UnescapeHex(n, rest); }
  }

  // ----- bounding -----

  function Truncated(s: string, limit: nat): string {
    if |s| <= limit then s else Text.Rstrip(s[..limit])
  }

  function Bound(v: Json, strings: nat, lists: nat): Json
    decreases v, 1
  {
    match v
    case Str(s) => Str(Truncated(s, strings))
    case Arr(items) => Arr(BoundItems(items, strings, lists, lists))
    case Obj(fields) => Obj(BoundFields(fields, strings, lists))
    case _ => v
  }

  /** The first `left` items, each bounded. */
  function BoundItems(items: seq<Json>, strings: nat, lists: nat, left: nat): seq<Json>
    decreases items, 0
  {
    if items == [] || left == 0 then []
    else [Bound(items[0], strings, lists)] + BoundItems(items[1..], strings, lists, left - 1)
  }

  function BoundFields(fields: seq<Field>, strings: nat, lists: nat): seq<Field>
    decreases fields, 0
  {
    if fields == [] then []
    else [Field(fields[0].key, Bound(fields[0].value, strings, lists))] + BoundFields(fields[1..], strings, lists)
  }

  // ----- truncation of strings -----

  lemma TruncatedPrefix(s: string, limit: nat)
    ensures Truncated(s, limit) <= s && |Truncated(s, limit)| <= limit
  {
    if |s| > limit { Text.RstripPrefix(s[..limit]); }
  }

  /** Truncating to n and then to m <= n is truncating to m, also when the first cut lands on
      whitespace and strips below m. */
  lemma TruncatedTwice(s: string, m: nat, n: nat)
    requires m <= n
    ensures Truncated(Truncated(s, n), m) == Truncated(s, m)
  {
    if |s| > n {
      var t := Text.Rstrip(s[..n]);
      Text.RstripPrefix(s[..n]);
      if |t| <= m {
        Text.RstripUnique(s[..m], t);
      } else {
        assert t[..m] == s[..m];
      }
    }
  }

  /** A string within the limit stays; a longer one keeps its first characters, less the whitespace they
      end in. */
  lemma TruncatedExactly(s: string, limit: nat)
    ensures var t := Truncated(s, limit);
      && (|s| <= limit ==> t == s)
      && (|s| > limit ==>
            && t <= s[..limit] && (t == "" || !Text.IsSpace(t[|t| - 1]))
            && forall i :: |t| <= i < limit ==> Text.IsSpace(s[i]))
  {
    if |s| > limit { Text.RstripPrefix(s[..limit]); }
  }

  /** A list keeps its first items, in order, each bounded. */
  lemma {:induction false} BoundItemsExactly(items: seq<Json>, strings: nat, lists: nat, left: nat)
    ensures var b := BoundItems(items, strings, lists, left);
      && |b| == (if |items| <= left then |items| else left)
      && forall i :: 0 <= i < |b| ==> b[i] == Bound(items[i], strings, lists)
    decreases |items|
  {
    if items != [] && left > 0 { BoundItemsExactly(items[1..], strings, lists, left - 1); }
  }

  /** An object keeps its keys, in order, each with its value bounded. */
  lemma {:induction false} BoundFieldsExactly(fields: seq<Field>, strings: nat, lists: nat)
    ensures var b := BoundFields(fields, strings, lists);
      && |b| == |fields|
      && forall i :: 0 <= i < |b| ==> b[i] == Field(fields[i].key, Bound(fields[i].value, strings, lists))
    decreases |fields|
  {
    if fields != [] { BoundFieldsExactly(fields[1..], strings, lists); }
  }

  /** Bounding, case by case. */
  lemma BoundExactly(v: Json, strings: nat, lists: nat)
    ensures var b := Bound(v, strings, lists);
      match v
      case Str(s) => b == Str(Truncated(s, strings))
      case Arr(items) =>
        && b.Arr? && |b.items| == (if |items| <= lists then |items| else lists)
        && forall i :: 0 <= i < |b.items| ==> b.items[i] == Bound(items[i], strings, lists)
      case Obj(fields) =>
        && b.Obj? && |b.fields| == |fields|
        && forall i :: 0 <= i < |fields| ==>
             b.fields[i] == Field(fields[i].key, Bound(fields[i].value, strings, lists))
      case _ => b == v
  {
    match v
    case Arr(items) => BoundItemsExactly(items, strings, lists, lists);
    case Obj(fields) => BoundFieldsExactly(fields, strings, lists);
    case _ =>
  }

  // ----- composition -----

  /** Bounding with string limit n and then with m <= n is bounding once with m, for every tree; in
      particular bounding is idempotent. */
  lemma {:induction false} BoundTwice(v: Json, m: nat, n: nat, lists: nat)
    requires m <= n
    ensures Bound(Bound(v, n, lists), m, lists) == Bound(v, m, lists)
    decreases v, 1
  {
    match v
    case Str(s) => TruncatedTwice(s, m, n);
    case Arr(items) => BoundItemsTwice(items, m, n, lists, lists);
    case Obj(fields) => BoundFieldsTwice(fields, m, n, lists);
    case _ =>
  }

  lemma {:induction false} BoundItemsTwice(items: seq<Json>, m: nat, n: nat, lists: nat, left: nat)
    requires m <= n
    ensures BoundItems(BoundItems(items, n, lists, left), m, lists, left) == BoundItems(items, m, lists, left)
    decreases items, 0
  {
    if items != [] && left > 0 {
      BoundTwice(items[0], m, n, lists);
      BoundItemsTwice(items[1..], m, n, lists, left - 1);
      assert BoundItems(items, n, lists, left)[1..] == BoundItems(items[1..], n, lists, left - 1);
    }
  }

  lemma {:induction false} BoundFieldsTwice(fields: seq<Field>, m: nat, n: nat, lists: nat)
    requires m <= n
    ensures BoundFields(BoundFields(fields, n, lists), m, lists) == BoundFields(fields, m, lists)
    decreases fields, 0
  {
    if fields != [] {
      BoundTwice(fields[0].value, m, n, lists);
      BoundFieldsTwice(fields[1..], m, n, lists);
      assert BoundFields(fields, n, lists)[1..] == BoundFields(fields[1..], n, lists);
    }
  }

  // ----- printed size -----

  /** Seven characters have two-character escapes, the other control characters six-character ones, and
      everything else stands for itself. */
  lemma EscapeCharExactly(c: char)
    ensures var n := c as int;
      var short := n in {0x22, 0x5C, 0x08, 0x09, 0x0A, 0x0C, 0x0D};
      && (short ==> |EscapeChar(c)| == 2 && EscapeChar(c)[0] == '\\')
      && (!short && n < 0x20 ==> |EscapeChar(c)| == 6 && EscapeChar(c)[..4] == "\\u00")
      && (!short && n >= 0x20 ==> EscapeChar(c) == [c])
  {
  }

  function TotalSize(items: seq<Json>): nat {
    if items == [] then 0 else Size(items[0]) + TotalSize(items[1..])
  }

  /** The keys, quoted and escaped, and the values. */
  function TotalFieldSize(fields: seq<Field>): nat {
    if fields == [] then 0
    else |Quote(fields[0].key)| + Size(fields[0].value) + TotalFieldSize(fields[1..])
  }

  /** A list prints its items with a comma and a space between neighbours, in brackets. */
  lemma {:induction false} ListSize(items: seq<Json>)
    ensures items != [] ==> |PrintItems(items)| == TotalSize(items) + 2 * (|items| - 1)
    ensures Size(Arr(items)) == 2 + |PrintItems(items)| && Size(Arr([])) == 2
    decreases |items|
  {
    if items != [] { ListSize(items[1..]); }
  }

  /** An object besides puts a colon and a space between key and value. */
  lemma {:induction false} ObjectSize(fields: seq<Field>)
    ensures fields != [] ==> |PrintFields(fields)| == TotalFieldSize(fields) + 2 * |fields| + 2 * (|fields| - 1)
    ensures Size(Obj(fields)) == 2 + |PrintFields(fields)| && Size(Obj([])) == 2
    decreases |fields|
  {
    if fields != [] { ObjectSize(fields[1..]); }
  }

  lemma {:induction false} EscapeSize(s: string)
    ensures |s| <= |Escape(s)| <= 6 * |s|
  {
    if s != [] { EscapeSize(s[1..]); }
  }

  lemma {:induction false} EscapePrefix(p: string, s: string)
    requires p <= s
    ensures |Escape(p)| <= |Escape(s)|
  {
    if p != [] { EscapePrefix(p[1..], s[1..]); }
  }

  /** Bounding never makes the printed form longer. */
  lemma {:induction false} BoundShrinks(v: Json, strings: nat, lists: nat)
    ensures Size(Bound(v, strings, lists)) <= Size(v)
    decreases v, 1
  {
    match v
    case Str(s) => TruncatedPrefix(s, strings); EscapePrefix(Truncated(s, strings), s);
    case Arr(items) => BoundItemsShrinks(items, strings, lists, lists);
    case Obj(fields) => BoundFieldsShrinks(fields, strings, lists);
    case _ =>
  }

  lemma {:induction false} BoundItemsShrinks(items: seq<Json>, strings: nat, lists: nat, left: nat)
    ensures |PrintItems(BoundItems(items, strings, lists, left))| <= |PrintItems(items)|
    ensures |BoundItems(items, strings, lists, left)| <= |items|
    decreases items, 0
  {
    if items != [] && left > 0 {
      BoundShrinks(items[0], strings, lists);
      BoundItemsShrinks(items[1..], strings, lists, left - 1);
      assert BoundItems(items, strings, lists, left)[1..] == BoundItems(items[1..], strings, lists, left - 1);
    }
  }

  lemma {:induction false} BoundFieldsShrinks(fields: seq<Field>, strings: nat, lists: nat)
    ensures |PrintFields(BoundFields(fields, strings, lists))| <= |PrintFields(fields)|
    ensures |BoundFields(fields, strings, lists)| == |fields|
    decreases fields, 0
  {
    if fields != [] {
      BoundShrinks(fields[0].value, strings, lists);
      BoundFieldsShrinks(fields[1..], strings, lists);
      assert BoundFields(fields, strings, lists)[1..] == BoundFields(fields[1..], strings, lists);
    }
  }

  /** A smaller string limit never prints longer. */
  lemma BoundSizeMonotone(v: Json, m: nat, n: nat, lists: nat)
    requires m <= n
    ensures Size(Bound(v, m, lists)) <= Size(Bound(v, n, lists))
  {
    BoundTwice(v, m, n, lists);
    BoundShrinks(Bound(v, n, lists), m, lists);
  }

  // ----- what bounding achieves -----

  /** Every string has at most `strings` characters and every list at most `lists` items. */
  predicate Within(v: Json, strings: nat, lists: nat)
    decreases v
  {
    match v
    case Str(s) => |s| <= strings
    case Arr(items) => |items| <= lists && forall i :: 0 <= i < |items| ==> Within(items[i], strings, lists)
    case Obj(fields) => forall i :: 0 <= i < |fields| ==> Within(fields[i].value, strings, lists)
    case _ => true
  }

  /** A bounded tree is within the limits, and a tree is left as it is exactly when it already was. */
  lemma {:induction false} BoundIsWithin(v: Json, strings: nat, lists: nat)
    ensures Within(Bound(v, strings, lists), strings, lists)
    ensures Bound(v, strings, lists) == v <==> Within(v, strings, lists)
    decreases v, 1
  {
    match v
    case Str(s) => TruncatedPrefix(s, strings);
    case Arr(items) => BoundItemsAreWithin(items, strings, lists, lists);
    case Obj(fields) => BoundFieldsAreWithin(fields, strings, lists);
    case _ =>
  }

  lemma {:induction false} BoundItemsAreWithin(items: seq<Json>, strings: nat, lists: nat, left: nat)
    ensures var b := BoundItems(items, strings, lists, left);
      && |b| <= left && (forall i :: 0 <= i < |b| ==> Within(b[i], strings, lists))
      && (b == items <==> |items| <= left && forall i :: 0 <= i < |items| ==> Within(items[i], strings, lists))
    decreases items, 0
  {
    if items != [] && left > 0 {
      BoundIsWithin(items[0], strings, lists);
      BoundItemsAreWithin(items[1..], strings, lists, left - 1);
      assert items == [items[0]] + items[1..];
    }
  }

  lemma {:induction false} BoundFieldsAreWithin(fields: seq<Field>, strings: nat, lists: nat)
    ensures var b := BoundFields(fields, strings, lists);
      && |b| == |fields| && (forall i :: 0 <= i < |b| ==> Within(b[i].value, strings, lists))
      && (b == fields <==> forall i :: 0 <= i < |fields| ==> Within(fields[i].value, strings, lists))
    decreases fields, 0
  {
    if fields != [] {
      BoundIsWithin(fields[0].value, strings, lists);
      BoundFieldsAreWithin(fields[1..], strings, lists);
      assert fields == [fields[0]] + fields[1..];
    }
  }

  // ----- objects as dictionaries -----

  function Get(fields: seq<Field>, key: string): Option<Json> {
    if fields == [] then None
    else if fields[0].key == key then Some(fields[0].value)
    else Get(fields[1..], key)
  }

  /** Assignment to a key: in place when present, at the end otherwise. */
  function Set(fields: seq<Field>, key: string, value: Json): seq<Field> {
    if fields == [] then [Field(key, value)]
    else if fields[0].key == key then [Field(key, value)] + fields[1..]
    else [fields[0]] + Set(fields[1..], key, value)
  }

  /** The entries with the listed keys, in the order of the list. */
  function Select(fields: seq<Field>, keys: seq<string>): seq<Field> {
    if keys == [] then []
    else
      (if Get(fields, keys[0]).Some? then [Field(keys[0], Get(fields, keys[0]).value)] else [])
      + Select(fields, keys[1..])
  }

  lemma {:induction false} GetSet(fields: seq<Field>, key: string, value: Json, other: string)
    ensures Get(Set(fields, key, value), other) == if other == key then Some(value) else Get(fields, other)
  {
    if fields != [] && fields[0].key != key {
      GetSet(fields[1..], key, value, other);
      assert Set(fields, key, value)[1..] == Set(fields[1..], key, value);
    }
  }

  lemma {:induction false} GetSelect(fields: seq<Field>, keys: seq<string>, key: string)
    ensures Get(Select(fields, keys), key) == if key in keys then Get(fields, key) else None
  {
    if keys != [] {
      GetSelect(fields, keys[1..], key);
      var rest := Select(fields, keys[1..]);
      if Get(fields, keys[0]).Some? {
        assert Select(fields, keys)[1..] == rest;
      } else {
        assert Select(fields, keys) == rest;
      }
    }
  }

  lemma {:induction false} GetBound(fields: seq<Field>, strings: nat, lists: nat, key: string)
    ensures Get(BoundFields(fields, strings, lists), key)
         == match Get(fields, key) case None => None case Some(v) => Some(Bound(v, strings, lists))
  {
    if fields != [] {
      GetBound(fields[1..], strings, lists, key);
      assert BoundFields(fields, strings, lists)[1..] == BoundFields(fields[1..], strings, lists);
    }
  }

  /** The object stored under a key, if there is one. */
  function Child(fields: seq<Field>, key: string): Option<seq<Field>> {
    match Get(fields, key)
    case Some(Obj(inner)) => Some(inner)
    case _ => None
  }
}
