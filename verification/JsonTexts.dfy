/** What the canonical text looks like: how its numbers and escapes read back, and one text letter by letter. */
module JsonTexts {
  import opened Json

  // ----- numbers read back

  function DigitValue(c: char): nat
    requires IsDigit(c)
  {
    c as nat - '0' as nat
  }

  /** The number a run of digits stands for. */
  function Value(text: string): nat
    requires forall i :: 0 <= i < |text| ==> IsDigit(text[i])
  {
    if text == [] then 0 else 10 * Value(text[..|text| - 1]) + DigitValue(text[|text| - 1])
  }

  /** A number is written in decimal without leading zeros. */
  lemma {:induction false} DigitsRead(n: nat)
    ensures Value(Digits(n)) == n
    ensures Digits(n)[0] == '0' ==> n == 0 && |Digits(n)| == 1
  {
    if n >= 10 {
      DigitsRead(n / 10);
      assert Digits(n)[..|Digits(n)| - 1] == Digits(n / 10);
      assert Digits(n)[0] == Digits(n / 10)[0];
    }
  }

  /** A negative number is the decimal of its opposite after a minus sign. */
  lemma {:induction false} DecimalReads(i: int)
    ensures if i < 0 then Decimal(i)[0] == '-' && Decimal(i)[1..] == Digits(-i) else Decimal(i) == Digits(i)
    ensures Value(Digits(if i < 0 then -i else i)) == if i < 0 then -i else i
  {
    DigitsRead(if i < 0 then -i else i);
  }

  predicate IsHexDigit(c: char) {
    '0' <= c <= '9' || 'a' <= c <= 'f'
  }

  function HexValue(c: char): nat
    requires IsHexDigit(c)
  {
    if c <= '9' then c as nat - '0' as nat else 10 + c as nat - 'a' as nat
  }

  lemma {:induction false} HexDigitReads(n: nat)
    requires n < 16
    ensures IsHexDigit(HexDigit(n)) && HexValue(HexDigit(n)) == n
  {
  }

  /** A code unit is four lower-case hexadecimal digits, the highest first. */
  lemma {:induction false} Hex4Reads(n: nat)
    requires n < 0x1_0000
    ensures forall i :: 0 <= i < 4 ==> IsHexDigit(Hex4(n)[i])
    ensures n == 4096 * HexValue(Hex4(n)[0]) + 256 * HexValue(Hex4(n)[1]) + 16 * HexValue(Hex4(n)[2]) +
      HexValue(Hex4(n)[3])
  {
    HexDigitReads(n / 16 / 16 / 16);
    HexDigitReads(n / 16 / 16 % 16);
    HexDigitReads(n / 16 % 16);
    HexDigitReads(n % 16);
  }

  // ----- escapes read back

  /** The letters of the one-letter escapes; a slash has none. */
  lemma {:induction false} LetterEscapes(ascii: bool)
    ensures Escape('"', ascii) == "\\\"" && Escape('\\', ascii) == "\\\\"
    ensures Escape('\n', ascii) == "\\n" && Escape('\r', ascii) == "\\r" && Escape('\t', ascii) == "\\t"
    ensures Escape('\U{0C}', ascii) == "\\f" && Escape('\U{08}', ascii) == "\\b" && Escape('/', ascii) == "/"
  {
  }

  /** Characters from space to tilde, but for the quote and the backslash, stand for themselves. */
  lemma {:induction false} PlainCharacters(c: char, ascii: bool)
    requires ' ' <= c <= '~' && c != '"' && c != '\\'
    ensures Escape(c, ascii) == [c]
  {
  }

  /** Above the tilde a character stands for itself unless the text is to be ASCII. */
  lemma {:induction false} OtherCharacters(c: char)
    requires c > '~'
    ensures Escape(c, false) == [c]
    ensures c < '\U{10000}' ==> Escape(c, true) == ['\\', 'u'] + Hex4(c as nat)
  {
  }

  /** The other control characters are written as code units in either case. */
  lemma {:induction false} ControlCharacters(c: char, ascii: bool)
    requires c < ' ' && c !in {'\n', '\r', '\t', '\U{0C}', '\U{08}'}
    ensures Escape(c, ascii) == ['\\', 'u'] + Hex4(c as nat)
  {
  }

  /** Beyond the basic plane, ASCII text holds the surrogate pair that decodes to the character. */
  lemma {:induction false} SurrogatePairs(c: char) returns (high: nat, low: nat)
    requires c >= '\U{10000}'
    ensures 0xd800 <= high < 0xdc00 <= low < 0xe000
    ensures Escape(c, true) == ['\\', 'u'] + Hex4(high) + ['\\', 'u'] + Hex4(low)
    ensures c as nat == 0x1_0000 + 0x400 * (high - 0xd800) + (low - 0xdc00)
  {
    high, low := FirstUnit(c), LowUnit(c);
    PairDecodes(c as nat - 0x1_0000);
  }

  lemma {:induction false} PairDecodes(offset: nat)
    requires offset < 0x10_0000
    ensures offset / 1024 < 1024 && offset == 1024 * (offset / 1024) + offset % 1024
  {
  }

  // ----- texts put together

  function Concat(texts: seq<string>): string {
    if texts == [] then [] else texts[0] + Concat(texts[1..])
  }

  /** Texts with commas between them. */
  function Joined(texts: seq<string>): string {
    if texts == [] then [] else if |texts| == 1 then texts[0] else texts[0] + "," + Joined(texts[1..])
  }

  /** The escapes of a string's characters. */
  ghost predicate AreEscapes(texts: seq<string>, s: string, ascii: bool) {
    |texts| == |s| && forall i :: 0 <= i < |s| ==> texts[i] == Escape(s[i], ascii)
  }

  lemma {:induction false} BodyText(s: string, texts: seq<string>, ascii: bool)
    requires AreEscapes(texts, s, ascii)
    ensures Body(s, ascii) == Concat(texts) + "\""
  {
    if s != [] {
      BodyText(s[1..], texts[1..], ascii);
      assert texts[0] + (Concat(texts[1..]) + "\"") == texts[0] + Concat(texts[1..]) + "\"";
    }
  }

  /** A string is the escapes of its characters between quotes. */
  lemma {:induction false} StringText(s: string, texts: seq<string>, ascii: bool)
    requires AreEscapes(texts, s, ascii)
    ensures Encode(Str(s), ascii) == "\"" + Concat(texts) + "\""
  {
    BodyText(s, texts, ascii);
    assert "\"" + (Concat(texts) + "\"") == "\"" + Concat(texts) + "\"";
  }

  /** The texts of an array's items. */
  ghost predicate AreItems(texts: seq<string>, j: Json, ascii: bool) {
    j.Arr? && |texts| == |j.items| && forall i :: 0 <= i < |texts| ==> texts[i] == Encode(j.items[i], ascii)
  }

  /** Texts as the encoder lists them: each after its separator, then the closing bracket. */
  function Listed(texts: seq<string>, first: bool, close: string): string {
    if texts == [] then close else Separator(first) + texts[0] + Listed(texts[1..], false, close)
  }

  lemma {:induction false} ListedIsJoined(texts: seq<string>, first: bool, close: string)
    ensures texts != [] ==> Listed(texts, first, close) == Separator(first) + (Joined(texts) + close)
  {
    if texts != [] {
      var rest := Listed(texts[1..], false, close);
      ListedIsJoined(texts[1..], false, close);
      assert Separator(first) + texts[0] + rest == Separator(first) + (texts[0] + rest);
      if |texts| > 1 {
        AroundComma(texts[0], Joined(texts[1..]), close);
      } else {
        assert rest == close;
      }
    }
  }

  lemma {:induction false} AroundComma(head: string, tail: string, close: string)
    ensures head + (Separator(false) + (tail + close)) == head + "," + tail + close
  {
  }

  lemma {:induction false} Bracketed(texts: seq<string>, open: string, close: string)
    ensures open + Listed(texts, true, close) == open + Joined(texts) + close
  {
    ListedIsJoined(texts, true, close);
    if texts != [] {
      assert open + (Separator(true) + (Joined(texts) + close)) == open + Joined(texts) + close;
    }
  }

  lemma {:induction false} ItemsText(j: Json, texts: seq<string>, k: nat, ascii: bool)
    requires AreItems(texts, j, ascii) && k <= |texts|
    ensures EncodeItems(j, k, ascii) == Listed(texts[k..], k == 0, "]")
    decreases |texts| - k
  {
    if k < |texts| {
      ItemsText(j, texts, k + 1, ascii);
      assert texts[k..][0] == texts[k] && texts[k..][1..] == texts[k + 1..];
    }
  }

  /** An array is its items' texts between brackets, commas between them and no blanks. */
  lemma {:induction false} ArrayText(j: Json, texts: seq<string>, ascii: bool)
    requires AreItems(texts, j, ascii)
    ensures Encode(j, ascii) == "[" + Joined(texts) + "]"
  {
    ItemsText(j, texts, 0, ascii);
    assert texts[0..] == texts;
    Bracketed(texts, "[", "]");
  }

  /** A strictly ascending list of the keys is the sorted one. */
  lemma {:induction false} SortedIs(keys: set<string>, sorted: seq<string>)
    requires forall k :: k in sorted <==> k in keys
    requires forall i, j :: 0 <= i < j < |sorted| ==> AtMost(sorted[i], sorted[j]) && sorted[i] != sorted[j]
    ensures Sorted(keys) == sorted
  {
    if sorted == [] {
      assert keys == {};
    } else {
      var first, rest := sorted[0], sorted[1..];
      AtMostIsTotal(first, first);
      assert sorted == [first] + rest;
      assert IsLeast(first, keys);
      LeastIsUnique(keys);
      SortedIs(keys - {first}, rest);
    }
  }

  /** The texts of an object's fields, key by key. */
  ghost predicate AreFields(texts: seq<string>, j: Json, keys: seq<string>, ascii: bool) {
    && j.Obj? && |texts| == |keys| && (forall k :: k in keys ==> k in j.fields)
    && forall i :: 0 <= i < |keys| ==> texts[i] == FieldText(j, keys[i], ascii)
  }

  /** A field is its key as a string, a colon and its value. */
  function FieldText(j: Json, key: string, ascii: bool): string
    requires j.Obj? && key in j.fields
  {
    Encode(Str(key), ascii) + ":" + Encode(j.fields[key], ascii)
  }

  lemma {:induction false} FieldsText(j: Json, keys: seq<string>, texts: seq<string>, first: bool, ascii: bool)
    requires AreFields(texts, j, keys, ascii)
    ensures EncodeFields(j, keys, first, ascii) == Listed(texts, first, "}")
  {
    if keys != [] {
      FieldsText(j, keys[1..], texts[1..], false, ascii);
      Reassociate(
        Separator(first), Quote(keys[0], ascii), [':'], Encode(j.fields[keys[0]], ascii),
        EncodeFields(j, keys[1..], false, ascii));
      assert texts[0] == FieldText(j, keys[0], ascii);
    }
  }

  lemma {:induction false} Reassociate(p: string, q: string, c: string, v: string, r: string)
    ensures p + q + c + v + r == p + (q + c + v) + r
  {
  }

  /** An object is its fields' texts between braces, keys strictly ascending, commas between them and no blanks. */
  lemma {:induction false} ObjectText(j: Json, keys: seq<string>, texts: seq<string>, ascii: bool)
    requires AreFields(texts, j, keys, ascii) && forall k :: k in j.fields ==> k in keys
    requires forall i, k :: 0 <= i < k < |keys| ==> AtMost(keys[i], keys[k]) && keys[i] != keys[k]
    ensures Encode(j, ascii) == "{" + Joined(texts) + "}"
  {
    SortedIs(j.fields.Keys, keys);
    FieldsText(j, keys, texts, true, ascii);
    Bracketed(texts, "{", "}");
  }

  /** The order of keys: the smaller code point at the first difference comes first, a beginning before the whole. */
  lemma {:induction false} KeyOrder(common: string, a: string, b: string)
    requires a == [] || b == [] || a[0] != b[0]
    ensures AtMost(common + a, common + b) <==> a == [] || (b != [] && a[0] < b[0])
  {
    if common == [] {
      assert common + a == a && common + b == b;
    } else {
      KeyOrder(common[1..], a, b);
      assert (common + a)[1..] == common[1..] + a && (common + b)[1..] == common[1..] + b;
    }
  }

  /** The other values. */
  lemma {:induction false} ScalarTexts(i: int, ascii: bool)
    ensures Encode(Null, ascii) == "null"
    ensures Encode(Bool(true), ascii) == "true" && Encode(Bool(false), ascii) == "false"
    ensures Encode(Int(i), ascii) == Decimal(i)
  {
  }
}
