/** The PHP semantics the two endpoints depend on, over values json_decode($body, true) yields. */
module Php {
  import opened Values
  import Text

  /** `!$v`: the values PHP treats as false (an empty JSON object decodes to an empty array). */
  predicate Falsy(v: Json)
  {
    match v
    case JNull => true
    case JBool(b) => !b
    case JInt(i) => i == 0
    case JStr(s) => s == "" || s == "0"
    case JList(items) => items == []
    case JObject(fields) => fields == map[]
  }

  /** `$input[$key]`: the member's value, or null when the body is not an object or lacks the key. */
  function Field(input: Json, key: string): (v: Json)
    ensures !input.JObject? ==> v == JNull
  {
    if input.JObject? && key in input.fields then input.fields[key] else JNull
  }

  /** `isset($input[$key])`: the key is present with a non-null value. */
  predicate IsSet(input: Json, key: string)
  {
    Field(input, key) != JNull
  }

  /** `$v ?? $default`. */
  function Coalesce(v: Json, default: Json): (r: Json)
    ensures v == JNull ==> r == default
    ensures v != JNull ==> r == v
  {
    if v == JNull then default else v
  }

  /** A `case` label of a PHP `switch`: a non-empty word of lower-case letters and '_'. */
  predicate IsCaseWord(word: string)
  {
    word != "" && forall k | 0 <= k < |word| :: 'a' <= word[k] <= 'z' || word[k] == '_'
  }

  /**
   * `$v == $word` under PHP 8's loose comparison, as `switch` uses it, for a label that
   * is a non-numeric word: a string equal to the word, or `true` (the word is truthy);
   * null, false, integers and arrays never equal such a word.
   */
  predicate LooseEqualsWord(v: Json, word: string)
    requires IsCaseWord(word)
  {
    v == JStr(word) || v == JBool(true)
  }

  // ----- json_encode -----

  /** A hexadecimal digit as json_encode writes it, in lower case. */
  function HexDigit(d: nat): (c: char)
    requires d < 16
    ensures '0' <= c <= '9' || 'a' <= c <= 'f'
  {
    if d < 10 then (48 + d) as char else (87 + d) as char
  }

  /** The four digits of a `\uXXXX` escape. */
  function Hex4(n: nat): (r: string)
    requires n < 0x10000
    ensures |r| == 4
  {
    [HexDigit(n / 0x1000), HexDigit(n / 0x100 % 16), HexDigit(n / 16 % 16), HexDigit(n % 16)]
  }

  /**
   * One character inside a JSON string as json_encode writes it with no flags: quote,
   * backslash and '/' are escaped, the control characters get their short or `\u00XX`
   * escape, ASCII is copied, and every other character becomes `\uXXXX` (a surrogate pair
   * above U+FFFF).
   */
  function EscapedChar(c: char): (r: string)
    ensures |r| >= 1
  {
    var n := c as int;
    if c == '"' then "\\\"" else if c == '\\' then "\\\\" else if c == '/' then "\\/"
    else if n == 8 then "\\b" else if n == 12 then "\\f" else if c == '\n' then "\\n"
    else if c == '\r' then "\\r" else if c == '\t' then "\\t"
    else if n < 0x20 then "\\u" + Hex4(n)
    else if n < 0x80 then [c]
    else if n < 0x10000 then "\\u" + Hex4(n)
    else
      var m := n - 0x10000;
      "\\u" + Hex4(0xD800 + m / 0x400) + "\\u" + Hex4(0xDC00 + m % 0x400)
  }

  function Escaped(s: string): string
  {
    if s == [] then "" else EscapedChar(s[0]) + Escaped(s[1..])
  }

  /** The keys of an array in the order json_encode visits them (PHP keeps insertion order, which a map does not record). */
  ghost function KeyOrder(keys: set<string>): (r: seq<string>)
    ensures forall k :: k in r <==> k in keys
  {
    if keys == {} then [] else var k :| k in keys; [k] + KeyOrder(keys - {k})
  }

  /**
   * `json_encode($v)`: null, booleans and integers as their literals, strings quoted and
   * escaped, lists as `[...]`, an empty array as `[]` and any other array as an object
   * `{"key":value,...}`.
   */
  ghost function JsonText(v: Json): (t: string)
    decreases v, 1
  {
    match v
    case JNull => "null"
    case JBool(b) => if b then "true" else "false"
    case JInt(i) => Text.IntToString(i)
    case JStr(s) => "\"" + Escaped(s) + "\""
    case JList(items) => "[" + ItemsText(v, items) + "]"
    case JObject(fields) =>
      if fields == map[] then "[]" else "{" + MembersText(v, KeyOrder(fields.Keys)) + "}"
  }

  ghost function ItemsText(parent: Json, items: seq<Json>): string
    requires forall x | x in items :: x < parent
    decreases parent, 0, |items|
  {
    if items == [] then ""
    else
      assert items[0] in items;
      assert forall x | x in items[1..] :: x in items;
      JsonText(items[0]) + if |items| == 1 then "" else "," + ItemsText(parent, items[1..])
  }

  ghost function MembersText(parent: Json, keys: seq<string>): string
    requires parent.JObject? && forall k | k in keys :: k in parent.fields
    decreases parent, 0, |keys|
  {
    if keys == [] then ""
    else
      var member := "\"" + Escaped(keys[0]) + "\":" + JsonText(parent.fields[keys[0]]);
      if |keys| == 1 then member else member + "," + MembersText(parent, keys[1..])
  }

  /** The only decimal text that reads "0" is that of 0. */
  lemma DigitsZero(n: nat)
    ensures Text.Digits(n) == "0" <==> n == 0
  {
    if n >= 10 {
      assert |Text.Digits(n)| >= 2;
    }
  }

  /** The text json_encode writes is falsy for PHP (`!$text`) exactly when the value is the integer 0. */
  lemma FalsyJsonText(v: Json)
    ensures Falsy(JStr(JsonText(v))) <==> v == JInt(0)
  {
    match v
    case JInt(i) =>
      if i >= 0 {
        DigitsZero(i);
      } else {
        assert |Text.IntToString(i)| >= 2;
      }
    case JStr(s) =>
      assert |JsonText(v)| >= 2;
    case JList(items) =>
      assert |JsonText(v)| >= 2;
    case JObject(fields) =>
      assert |JsonText(v)| >= 2;
    case _ =>
  }
}
