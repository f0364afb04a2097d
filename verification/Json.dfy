/**
  JSON values without floats, and the canonical text the digests are taken over: sorted keys, compact
  separators, string escapes as in section 7 of RFC 8259. The encoding is injective.
 */
module Json {

  datatype Json =
    | Null
    | Bool(b: bool)
    | Int(i: int)
    | Str(s: string)
    | Arr(items: seq<Json>)
    | Obj(fields: map<string, Json>)

  // ----- numbers

  function Digit(n: nat): char
    requires n < 10
  {
    '0' + n as char
  }

  predicate IsDigit(c: char) {
    '0' <= c <= '9'
  }

  function Digits(n: nat): (text: string)
    ensures text != [] && forall i :: 0 <= i < |text| ==> IsDigit(text[i])
  {
    if n < 10 then [Digit(n)] else Digits(n / 10) + [Digit(n % 10)]
  }

  function Decimal(i: int): (text: string)
    ensures text != [] && (text[0] == '-' || IsDigit(text[0]))
  {
    if i < 0 then ['-'] + Digits(-i) else Digits(i)
  }

  // ----- strings

  function HexDigit(n: nat): char
    requires n < 16
  {
    if n < 10 then '0' + n as char else 'a' + (n - 10) as char
  }

  /** Four lower-case hexadecimal digits. */
  function Hex4(n: nat): (text: string)
    requires n < 0x1_0000
    ensures |text| == 4
  {
    [HexDigit(n / 16 / 16 / 16), HexDigit(n / 16 / 16 % 16), HexDigit(n / 16 % 16), HexDigit(n % 16)]
  }

  /** The one-letter escapes. */
  predicate HasShortEscape(c: char) {
    c in {'"', '\\', '\n', '\r', '\t', '\U{0C}', '\U{08}'}
  }

  function ShortEscape(c: char): char
    requires HasShortEscape(c)
  {
    match c
    case '\n' => 'n'
    case '\r' => 'r'
    case '\t' => 't'
    case '\U{0C}' => 'f'
    case '\U{08}' => 'b'
    case _ => c
  }

  /** One character of a string; with `ascii`, everything outside space..tilde is escaped. */
  function Escape(c: char, ascii: bool): (text: string)
    ensures text != [] && text[0] != '"'
  {
    var n := c as int;
    if HasShortEscape(c) then ['\\', ShortEscape(c)]
    else if n < 0x20 || (ascii && 0x7e < n < 0x1_0000) then ['\\', 'u'] + Hex4(n)
    else if ascii && n >= 0x1_0000 then
      ['\\', 'u'] + Hex4(0xd800 + (n - 0x1_0000) / 1024) + ['\\', 'u'] + Hex4(0xdc00 + (n - 0x1_0000) % 1024)
    else [c]
  }

  function Body(s: string, ascii: bool): string {
    if s == [] then ['"'] else Escape(s[0], ascii) + Body(s[1..], ascii)
  }

  function Quote(s: string, ascii: bool): string {
    ['"'] + Body(s, ascii)
  }

  // ----- key order

  /** Order by code points, as Python compares strings. */
  predicate AtMost(a: string, b: string) {
    if a == [] then true
    else if b == [] then false
    else if a[0] != b[0] then a[0] < b[0]
    else AtMost(a[1..], b[1..])
  }

  lemma {:induction false} AtMostIsTotal(a: string, b: string)
    ensures AtMost(a, a) && (AtMost(a, b) || AtMost(b, a))
  {
    if a != [] {
      AtMostIsTotal(a[1..], if b != [] then b[1..] else a[1..]);
    }
  }

  lemma {:induction false} AtMostIsTransitive(a: string, b: string, c: string)
    requires AtMost(a, b) && AtMost(b, c)
    ensures AtMost(a, c)
  {
    if a != [] && a[0] == b[0] == c[0] {
      AtMostIsTransitive(a[1..], b[1..], c[1..]);
    }
  }

  lemma {:induction false} AtMostIsAntisymmetric(a: string, b: string)
    requires AtMost(a, b) && AtMost(b, a)
    ensures a == b
  {
    if a != [] {
      AtMostIsAntisymmetric(a[1..], b[1..]);
      assert a == [a[0]] + a[1..] && b == [b[0]] + b[1..];
    }
  }

  predicate IsLeast(least: string, keys: set<string>) {
    least in keys && forall k :: k in keys ==> AtMost(least, k)
  }

  lemma {:induction false} LeastIsUnique(keys: set<string>)
    ensures forall a, b :: IsLeast(a, keys) && IsLeast(b, keys) ==> a == b
  {
    forall a, b | IsLeast(a, keys) && IsLeast(b, keys)
      ensures a == b
    {
      AtMostIsAntisymmetric(a, b);
    }
  }

  lemma {:induction false} LeastExists(keys: set<string>)
    requires keys != {}
    ensures exists least :: IsLeast(least, keys)
  {
    var x :| x in keys;
    var rest := keys - {x};
    AtMostIsTotal(x, x);
    if rest == {} {
      assert keys == {x};
      assert IsLeast(x, keys);
    } else {
      LeastExists(rest);
      var y :| IsLeast(y, rest);
      AtMostIsTotal(x, y);
      var least := if AtMost(x, y) then x else y;
      forall k | k in keys
        ensures AtMost(least, k)
      {
        if k != x {
          assert k in rest;
          if least == x {
            AtMostIsTransitive(x, y, k);
          }
        }
      }
      assert IsLeast(least, keys);
    }
  }

  /** A set of strings in ascending order. */
  function Sorted(keys: set<string>): (sorted: seq<string>)
    ensures forall k :: k in sorted <==> k in keys
    ensures |sorted| == |keys|
    ensures forall i, j :: 0 <= i < j < |sorted| ==> AtMost(sorted[i], sorted[j])
  {
    if keys == {} then []
    else
      LeastExists(keys);
      LeastIsUnique(keys);
      var least :| least in keys && IsLeast(least, keys);
      [least] + Sorted(keys - {least})
  }

  // ----- values

  function Separator(first: bool): string {
    if first then [] else [',']
  }

  function Encode(j: Json, ascii: bool): string
    decreases j, 1, 0
  {
    match j
    case Null => "null"
    case Bool(b) => if b then "true" else "false"
    case Int(i) => Decimal(i)
    case Str(s) => Quote(s, ascii)
    case Arr(items) => ['['] + EncodeItems(j, 0, ascii)
    case Obj(fields) => ['{'] + EncodeFields(j, Sorted(fields.Keys), true, ascii)
  }

  /** The items from `k` on, with their separators and the closing bracket. */
  function EncodeItems(j: Json, k: nat, ascii: bool): string
    requires j.Arr? && k <= |j.items|
    decreases j, 0, |j.items| - k
  {
    if k == |j.items| then [']']
    else Separator(k == 0) + Encode(j.items[k], ascii) + EncodeItems(j, k + 1, ascii)
  }

  /** The fields of the given keys, with their separators and the closing brace. */
  function EncodeFields(j: Json, keys: seq<string>, first: bool, ascii: bool): string
    requires j.Obj? && forall k :: k in keys ==> k in j.fields
    decreases j, 0, |keys|
  {
    if keys == [] then ['}']
    else
      Separator(first) + Quote(keys[0], ascii) + [':'] + Encode(j.fields[keys[0]], ascii) +
      EncodeFields(j, keys[1..], false, ascii)
  }

  // ----- decoding is unique: numbers

  lemma {:induction false} DigitsAreInjective(m: nat, n: nat)
    requires Digits(m) == Digits(n)
    ensures m == n
  {
    assert |Digits(m)| == |Digits(n)|;
    if m >= 10 && n >= 10 {
      assert Digits(m)[..|Digits(m)| - 1] == Digits(m / 10);
      assert Digits(n)[..|Digits(n)| - 1] == Digits(n / 10);
      DigitsAreInjective(m / 10, n / 10);
      assert Digits(m)[|Digits(m)| - 1] == Digits(n)[|Digits(n)| - 1];
    }
  }

  /** What may follow a value inside a text: nothing, a separator or a closing bracket. */
  predicate Delimited(rest: string) {
    rest == [] || rest[0] in {',', ']', '}'}
  }

  lemma {:induction false} SplitAt(x: string, s: string, y: string, t: string)
    requires x + s == y + t && |x| == |y|
    ensures x == y && s == t
  {
    assert (x + s)[..|x|] == x && (y + t)[..|y|] == y;
    assert (x + s)[|x|..] == s && (y + t)[|y|..] == t;
  }

  lemma {:induction false} DigitRuns(x: string, y: string, s: string, t: string)
    requires forall i :: 0 <= i < |x| ==> IsDigit(x[i])
    requires forall i :: 0 <= i < |y| ==> IsDigit(y[i])
    requires Delimited(s) && Delimited(t) && x + s == y + t
    ensures x == y && s == t
  {
    var text := x + s;
    assert |x| < |text| ==> text[|x|] == s[0];
    assert |y| < |text| ==> text[|y|] == t[0];
    assert forall i :: 0 <= i < |x| ==> text[i] == x[i];
    assert forall i :: 0 <= i < |y| ==> text[i] == y[i];
    SplitAt(x, s, y, t);
  }

  lemma {:induction false} NaturalsParse(m: nat, n: nat, s: string, t: string)
    requires Delimited(s) && Delimited(t) && Digits(m) + s == Digits(n) + t
    ensures m == n && s == t
  {
    DigitRuns(Digits(m), Digits(n), s, t);
    DigitsAreInjective(m, n);
  }

  lemma {:induction false} DropFirst(c: char, x: string, s: string)
    ensures ([c] + x + s)[0] == c && ([c] + x + s)[1..] == x + s
  {
  }

  lemma {:induction false} DecimalsParse(a: int, b: int, s: string, t: string)
    requires Delimited(s) && Delimited(t) && Decimal(a) + s == Decimal(b) + t
    ensures a == b && s == t
  {
    var text := Decimal(a) + s;
    assert text[0] == Decimal(a)[0] && text[0] == Decimal(b)[0];
    if a < 0 {
      DropFirst('-', Digits(-a), s);
      assert b < 0;
      DropFirst('-', Digits(-b), t);
      NaturalsParse(-a, -b, s, t);
    } else {
      assert b >= 0;
      NaturalsParse(a, b, s, t);
    }
  }

  // ----- decoding is unique: strings

  lemma {:induction false} HexDigitIsInjective(m: nat, n: nat)
    requires m < 16 && n < 16
    ensures HexDigit(m) == HexDigit(n) ==> m == n
  {
  }

  lemma {:induction false} Hex4IsInjective(m: nat, n: nat)
    requires m < 0x1_0000 && n < 0x1_0000 && Hex4(m) == Hex4(n)
    ensures m == n
  {
    assert Hex4(m)[0] == Hex4(n)[0] && Hex4(m)[1] == Hex4(n)[1] && Hex4(m)[2] == Hex4(n)[2] && Hex4(m)[3] == Hex4(n)[3];
    HexDigitIsInjective(m / 16 / 16 / 16, n / 16 / 16 / 16);
    HexDigitIsInjective(m / 16 / 16 % 16, n / 16 / 16 % 16);
    HexDigitIsInjective(m / 16 % 16, n / 16 % 16);
    HexDigitIsInjective(m % 16, n % 16);
  }

  /** How a character is written: raw, with a letter, with one code unit, or with a surrogate pair. */
  datatype Form = Raw | Letter | Unit | Pair

  function FormOf(c: char, ascii: bool): Form {
    var n := c as int;
    if HasShortEscape(c) then Letter
    else if n < 0x20 || (ascii && 0x7e < n < 0x1_0000) then Unit
    else if ascii && n >= 0x1_0000 then Pair
    else Raw
  }

  /** The code unit after `\u`: the character itself, or its high surrogate. */
  function FirstUnit(c: char): (unit: nat)
    ensures unit < 0x1_0000
  {
    var n := c as int;
    if n < 0x1_0000 then n else 0xd800 + (n - 0x1_0000) / 1024
  }

  /** The second code unit of a character beyond the basic plane. */
  function LowUnit(c: char): (unit: nat)
    ensures unit < 0x1_0000
  {
    0xdc00 + (c as int - 0x1_0000) % 1024
  }

  /** One escaped code unit, and what follows it. */
  function UnitText(unit: nat, rest: string): string
    requires unit < 0x1_0000
  {
    ['\\', 'u'] + (Hex4(unit) + rest)
  }

  lemma {:induction false} UnitsParse(m: nat, n: nat, s: string, t: string)
    requires m < 0x1_0000 && n < 0x1_0000 && UnitText(m, s) == UnitText(n, t)
    ensures m == n && s == t
  {
    SplitAt(['\\', 'u'], Hex4(m) + s, ['\\', 'u'], Hex4(n) + t);
    SplitAt(Hex4(m), s, Hex4(n), t);
    Hex4IsInjective(m, n);
  }

  lemma {:induction false} EscapedUnit(m: nat, rest: string)
    requires m < 0x1_0000
    ensures ['\\', 'u'] + Hex4(m) + rest == UnitText(m, rest)
  {
  }

  lemma {:induction false} EscapeThen(c: char, s: string, ascii: bool)
    ensures match FormOf(c, ascii)
      case Raw => Escape(c, ascii) == [c] && c != '\\'
      case Letter => Escape(c, ascii) == ['\\', ShortEscape(c)] && ShortEscape(c) != 'u'
      case Unit => Escape(c, ascii) + s == UnitText(FirstUnit(c), s)
      case Pair => Escape(c, ascii) + s == UnitText(FirstUnit(c), UnitText(LowUnit(c), s))
  {
    EscapedUnit(FirstUnit(c), s);
    if FormOf(c, ascii).Pair? {
      var high := ['\\', 'u'] + Hex4(FirstUnit(c));
      var low := ['\\', 'u'] + Hex4(LowUnit(c));
      assert Escape(c, ascii) == high + low by {
        assert high + ['\\', 'u'] + Hex4(LowUnit(c)) == high + low;
      }
      assert high + low + s == high + (low + s);
      EscapedUnit(LowUnit(c), s);
      EscapedUnit(FirstUnit(c), low + s);
    }
  }

  /** The code units written determine the character: a lone unit is never a high surrogate. */
  lemma {:induction false} UnitsDecide(c: char, d: char, ascii: bool)
    requires FormOf(c, ascii) in {Unit, Pair} && FormOf(d, ascii) in {Unit, Pair} && FirstUnit(c) == FirstUnit(d)
    ensures FormOf(c, ascii) == FormOf(d, ascii)
    ensures FormOf(c, ascii).Unit? || LowUnit(c) == LowUnit(d) ==> c == d
  {
  }

  lemma {:induction false} SameForm(c: char, d: char, s: string, t: string, ascii: bool)
    requires Escape(c, ascii) + s == Escape(d, ascii) + t
    ensures FormOf(c, ascii) in {Unit, Pair} <==> FormOf(d, ascii) in {Unit, Pair}
    ensures FormOf(c, ascii).Raw? <==> FormOf(d, ascii).Raw?
  {
    EscapeThen(c, s, ascii);
    EscapeThen(d, t, ascii);
    var text := Escape(c, ascii) + s;
    assert text[0] == Escape(d, ascii)[0] && text[0] == Escape(c, ascii)[0];
    assert |Escape(c, ascii)| >= 2 ==> text[1] == Escape(c, ascii)[1];
    assert |Escape(d, ascii)| >= 2 ==> text[1] == Escape(d, ascii)[1];
  }

  lemma {:induction false} ShortEscapeIsInjective(c: char, d: char)
    requires HasShortEscape(c) && HasShortEscape(d) && ShortEscape(c) == ShortEscape(d)
    ensures c == d
  {
  }

  /** No escape is a prefix of another: the first escape of a text determines its character. */
  lemma {:induction false} EscapesParse(c: char, d: char, s: string, t: string, ascii: bool)
    requires Escape(c, ascii) + s == Escape(d, ascii) + t
    ensures c == d && s == t
  {
    SameForm(c, d, s, t, ascii);
    if FormOf(c, ascii) in {Unit, Pair} {
      EscapedUnitsParse(c, d, s, t, ascii);
    } else {
      EscapeThen(c, s, ascii);
      EscapeThen(d, t, ascii);
      SplitAt(Escape(c, ascii), s, Escape(d, ascii), t);
      if FormOf(c, ascii).Letter? {
        assert Escape(c, ascii)[1] == Escape(d, ascii)[1];
        ShortEscapeIsInjective(c, d);
      } else {
        assert Escape(c, ascii)[0] == Escape(d, ascii)[0];
      }
    }
  }

  lemma {:induction false} EscapedUnitsParse(c: char, d: char, s: string, t: string, ascii: bool)
    requires FormOf(c, ascii) in {Unit, Pair} && FormOf(d, ascii) in {Unit, Pair}
    requires Escape(c, ascii) + s == Escape(d, ascii) + t
    ensures c == d && s == t
  {
    EscapeThen(c, s, ascii);
    EscapeThen(d, t, ascii);
    var rest := if FormOf(c, ascii).Pair? then UnitText(LowUnit(c), s) else s;
    var rest' := if FormOf(d, ascii).Pair? then UnitText(LowUnit(d), t) else t;
    UnitsParse(FirstUnit(c), FirstUnit(d), rest, rest');
    UnitsDecide(c, d, ascii);
    if FormOf(c, ascii).Pair? {
      UnitsParse(LowUnit(c), LowUnit(d), s, t);
    }
  }

  lemma {:induction false} BodyHead(a: string, s: string, ascii: bool)
    ensures (Body(a, ascii) + s)[0] == '"' <==> a == []
    ensures a != [] ==> Body(a, ascii) + s == Escape(a[0], ascii) + (Body(a[1..], ascii) + s)
  {
  }

  lemma {:induction false} BodiesParse(a: string, b: string, s: string, t: string, ascii: bool)
    requires Body(a, ascii) + s == Body(b, ascii) + t
    ensures a == b && s == t
  {
    BodyHead(a, s, ascii);
    BodyHead(b, t, ascii);
    if a == [] {
      SplitAt(['"'], s, ['"'], t);
    } else {
      EscapesParse(a[0], b[0], Body(a[1..], ascii) + s, Body(b[1..], ascii) + t, ascii);
      BodiesParse(a[1..], b[1..], s, t, ascii);
      assert a == [a[0]] + a[1..] && b == [b[0]] + b[1..];
    }
  }

  lemma {:induction false} QuotesParse(a: string, b: string, s: string, t: string, ascii: bool)
    requires Quote(a, ascii) + s == Quote(b, ascii) + t
    ensures a == b && s == t
  {
    DropFirst('"', Body(a, ascii), s);
    DropFirst('"', Body(b, ascii), t);
    BodiesParse(a, b, s, t, ascii);
  }

  // ----- decoding is unique: values

  datatype Kind = NullKind | TrueKind | FalseKind | IntKind | StrKind | ArrKind | ObjKind

  function KindOf(j: Json): Kind {
    match j
    case Null => NullKind
    case Bool(b) => if b then TrueKind else FalseKind
    case Int(_) => IntKind
    case Str(_) => StrKind
    case Arr(_) => ArrKind
    case Obj(_) => ObjKind
  }

  function HeadKind(c: char): Kind {
    match c
    case 'n' => NullKind
    case 't' => TrueKind
    case 'f' => FalseKind
    case '"' => StrKind
    case '[' => ArrKind
    case '{' => ObjKind
    case _ => IntKind
  }

  /** The first character tells the kind of a value, and never looks like a separator or a closing bracket. */
  lemma {:induction false} EncodingHead(j: Json, s: string, ascii: bool)
    ensures Encode(j, ascii) != [] && (Encode(j, ascii) + s)[0] == Encode(j, ascii)[0]
    ensures HeadKind(Encode(j, ascii)[0]) == KindOf(j)
    ensures Encode(j, ascii)[0] !in {',', ']', '}', ':'}
  {
    match j
    case Int(i) =>
      assert Encode(j, ascii) == Decimal(i);
    case _ =>
  }

  /** A delimited encoding determines the value and what follows it. */
  lemma {:induction false} EncodingsParse(a: Json, b: Json, s: string, t: string, ascii: bool)
    requires Delimited(s) && Delimited(t) && Encode(a, ascii) + s == Encode(b, ascii) + t
    ensures a == b && s == t
    decreases a, 1, 0
  {
    EncodingHead(a, s, ascii);
    EncodingHead(b, t, ascii);
    assert KindOf(a) == KindOf(b);
    match a
    case Null => SplitAt("null", s, "null", t);
    case Bool(v) => SplitAt(if v then "true" else "false", s, if v then "true" else "false", t);
    case Int(i) => DecimalsParse(i, b.i, s, t);
    case Str(x) => QuotesParse(x, b.s, s, t, ascii);
    case Arr(_) =>
      DropFirst('[', EncodeItems(a, 0, ascii), s);
      DropFirst('[', EncodeItems(b, 0, ascii), t);
      ItemsParse(a, b, 0, s, t, ascii);
      assert a.items[0..] == a.items && b.items[0..] == b.items;
    case Obj(_) =>
      var keys, keys' := Sorted(a.fields.Keys), Sorted(b.fields.Keys);
      DropFirst('{', EncodeFields(a, keys, true, ascii), s);
      DropFirst('{', EncodeFields(b, keys', true, ascii), t);
      FieldsParse(a, b, keys, keys', true, s, t, ascii);
      SameFields(a.fields, b.fields, keys);
  }

  lemma {:induction false} SameFields(f: map<string, Json>, g: map<string, Json>, keys: seq<string>)
    requires forall k :: k in keys <==> k in f.Keys
    requires forall k :: k in keys <==> k in g.Keys
    requires forall k :: k in keys ==> f[k] == g[k]
    ensures f == g
  {
    assert f.Keys == g.Keys;
  }

  lemma {:induction false} AssociateItem(p: string, v: string, r: string, s: string)
    ensures p + v + r + s == p + (v + (r + s))
  {
  }

  lemma {:induction false} ItemsStep(j: Json, k: nat, s: string, ascii: bool)
    requires j.Arr? && k < |j.items|
    ensures EncodeItems(j, k, ascii) + s ==
      Separator(k == 0) + (Encode(j.items[k], ascii) + (EncodeItems(j, k + 1, ascii) + s))
  {
    AssociateItem(Separator(k == 0), Encode(j.items[k], ascii), EncodeItems(j, k + 1, ascii), s);
  }

  lemma {:induction false} ItemsHead(j: Json, k: nat, s: string, ascii: bool)
    requires j.Arr? && k <= |j.items|
    ensures EncodeItems(j, k, ascii) != []
    ensures k > 0 ==> Delimited(EncodeItems(j, k, ascii) + s)
    ensures (EncodeItems(j, k, ascii) + s)[0] == ']' <==> k == |j.items|
  {
    if k < |j.items| {
      ItemsStep(j, k, s, ascii);
      EncodingHead(j.items[k], EncodeItems(j, k + 1, ascii) + s, ascii);
    }
  }

  lemma {:induction false} ItemsParse(a: Json, b: Json, k: nat, s: string, t: string, ascii: bool)
    requires a.Arr? && b.Arr? && k <= |a.items| && k <= |b.items|
    requires EncodeItems(a, k, ascii) + s == EncodeItems(b, k, ascii) + t
    ensures a.items[k..] == b.items[k..] && s == t
    decreases a, 0, |a.items| - k
  {
    ItemsHead(a, k, s, ascii);
    ItemsHead(b, k, t, ascii);
    if k == |a.items| {
      SplitAt([']'], s, [']'], t);
    } else {
      ItemsStep(a, k, s, ascii);
      ItemsStep(b, k, t, ascii);
      var rest, rest' := EncodeItems(a, k + 1, ascii) + s, EncodeItems(b, k + 1, ascii) + t;
      SplitAt(
        Separator(k == 0), Encode(a.items[k], ascii) + rest, Separator(k == 0), Encode(b.items[k], ascii) + rest');
      ItemsHead(a, k + 1, s, ascii);
      ItemsHead(b, k + 1, t, ascii);
      EncodingsParse(a.items[k], b.items[k], rest, rest', ascii);
      ItemsParse(a, b, k + 1, s, t, ascii);
      assert a.items[k..] == [a.items[k]] + a.items[k + 1..] && b.items[k..] == [b.items[k]] + b.items[k + 1..];
    }
  }

  lemma {:induction false} Associate(p: string, q: string, c: string, v: string, r: string, s: string)
    ensures p + q + c + v + r + s == p + (q + (c + (v + (r + s))))
  {
  }

  lemma {:induction false} FieldsStep(j: Json, keys: seq<string>, first: bool, s: string, ascii: bool)
    requires j.Obj? && keys != [] && forall k :: k in keys ==> k in j.fields
    ensures EncodeFields(j, keys, first, ascii) + s ==
      Separator(first) + (Quote(keys[0], ascii) +
        ([':'] + (Encode(j.fields[keys[0]], ascii) + (EncodeFields(j, keys[1..], false, ascii) + s))))
  {
    Associate(Separator(first), Quote(keys[0], ascii), [':'], Encode(j.fields[keys[0]], ascii),
      EncodeFields(j, keys[1..], false, ascii), s);
  }

  lemma {:induction false} FieldsHead(j: Json, keys: seq<string>, first: bool, s: string, ascii: bool)
    requires j.Obj? && forall k :: k in keys ==> k in j.fields
    ensures EncodeFields(j, keys, first, ascii) != []
    ensures !first ==> Delimited(EncodeFields(j, keys, first, ascii) + s)
    ensures (EncodeFields(j, keys, first, ascii) + s)[0] == '}' <==> keys == []
  {
    if keys != [] {
      FieldsStep(j, keys, first, s, ascii);
    }
  }

  lemma {:induction false} FieldsParse(
    a: Json, b: Json, keys: seq<string>, keys': seq<string>, first: bool, s: string, t: string, ascii: bool)
    requires a.Obj? && (forall k :: k in keys ==> k in a.fields)
    requires b.Obj? && (forall k :: k in keys' ==> k in b.fields)
    requires EncodeFields(a, keys, first, ascii) + s == EncodeFields(b, keys', first, ascii) + t
    ensures keys == keys' && s == t
    ensures forall k :: k in keys ==> k in a.fields && k in b.fields && a.fields[k] == b.fields[k]
    decreases a, 0, |keys|
  {
    FieldsHead(a, keys, first, s, ascii);
    FieldsHead(b, keys', first, t, ascii);
    if keys == [] {
      SplitAt(['}'], s, ['}'], t);
    } else {
      FieldsStep(a, keys, first, s, ascii);
      FieldsStep(b, keys', first, t, ascii);
      var rest, rest' := EncodeFields(a, keys[1..], false, ascii) + s, EncodeFields(b, keys'[1..], false, ascii) + t;
      var value, value' := Encode(a.fields[keys[0]], ascii) + rest, Encode(b.fields[keys'[0]], ascii) + rest';
      SplitAt(
        Separator(first), Quote(keys[0], ascii) + ([':'] + value),
        Separator(first), Quote(keys'[0], ascii) + ([':'] + value'));
      QuotesParse(keys[0], keys'[0], [':'] + value, [':'] + value', ascii);
      SplitAt([':'], value, [':'], value');
      FieldsHead(a, keys[1..], false, s, ascii);
      FieldsHead(b, keys'[1..], false, t, ascii);
      EncodingsParse(a.fields[keys[0]], b.fields[keys'[0]], rest, rest', ascii);
      FieldsParse(a, b, keys[1..], keys'[1..], false, s, t, ascii);
      assert keys == [keys[0]] + keys[1..] && keys' == [keys'[0]] + keys'[1..];
    }
  }

  /** The canonical text determines the value. */
  lemma {:induction false} EncodingIsInjective(a: Json, b: Json, ascii: bool)
    requires Encode(a, ascii) == Encode(b, ascii)
    ensures a == b
  {
    assert Encode(a, ascii) + [] == Encode(b, ascii) + [];
    EncodingsParse(a, b, [], [], ascii);
  }
}
