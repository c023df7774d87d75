/**
 * The slice of JSON the dashboard relies on: `JSON.stringify` of the values that
 * appear in report rows and of a user record, and `JSON.parse` of a stored user record.
 */
module Json {
  import opened Wrappers
  import Text
  import Seqs

  /** The values report rows hold: `undefined` (a missing category name), integers and strings. */
  datatype Value = Undefined | Number(n: int) | Str(s: string)

  /** One property of a plain object, and an object as its properties in insertion order. */
  datatype Field = Field(key: string, value: Value)
  type Row = seq<Field>

  /** `Object.keys(row)`. */
  function Keys(row: Row): (ks: seq<string>)
    ensures |ks| == |row| && forall i :: 0 <= i < |row| ==> ks[i] == row[i].key
  {
    seq(|row|, i requires 0 <= i < |row| => row[i].key)
  }

  /** `row[key]`: the value of the first property with that key, or nothing. */
  function Lookup(row: Row, key: string): (r: Option<Value>)
    ensures r.None? <==> key !in Keys(row)
    decreases |row|
  {
    if row == [] then None
    else
      assert Keys(row) == [row[0].key] + Keys(row[1..]);
      if row[0].key == key then Some(row[0].value) else Lookup(row[1..], key)
  }

  /** The first property carrying the key is the one found. */
  lemma {:induction false} LookupFirst(row: Row, key: string, i: int)
    requires 0 <= i < |row| && row[i].key == key
    requires forall j :: 0 <= j < i ==> row[j].key != key
    ensures Lookup(row, key) == Some(row[i].value)
    decreases i
  {
    if i > 0 {
      assert row[0].key != key;
      LookupFirst(row[1..], key, i - 1);
    }
  }

  /** An object literal: the given keys, in order, with the given values. */
  function Record(keys: seq<string>, values: seq<Value>): (row: Row)
    requires |keys| == |values|
    ensures Keys(row) == keys
  {
    seq(|keys|, i requires 0 <= i < |keys| => Field(keys[i], values[i]))
  }

  predicate DistinctKeys(keys: seq<string>) {
    forall i, j :: 0 <= i < j < |keys| ==> keys[i] != keys[j]
  }

  /** In an object literal with distinct keys, looking a key up finds the value written next to it. */
  lemma LookupRecord(keys: seq<string>, values: seq<Value>, i: int)
    requires |keys| == |values| && DistinctKeys(keys)
    requires 0 <= i < |keys|
    ensures Lookup(Record(keys, values), keys[i]) == Some(values[i])
  {
    var row := Record(keys, values);
    assert row[i].key == keys[i];
    forall j | 0 <= j < i ensures row[j].key != keys[i] {
      assert row[j].key == keys[j];
    }
    LookupFirst(row, keys[i], i);
  }

  function HexDigit(d: nat): char
    requires d < 16
  {
    if d < 10 then ('0' as int + d) as char else ('a' as int + d - 10) as char
  }

  function HexValue(c: char): Option<nat> {
    if '0' <= c <= '9' then Some(c as int - '0' as int)
    else if 'a' <= c <= 'f' then Some(c as int - 'a' as int + 10)
    else if 'A' <= c <= 'F' then Some(c as int - 'A' as int + 10)
    else None
  }

  lemma HexRoundTrip(d: nat)
    requires d < 16
    ensures HexValue(HexDigit(d)) == Some(d)
  {
  }

  /** How `JSON.stringify` writes one character inside a string literal. */
  function EscapeChar(c: char): string {
    if c == '"' then "\\\""
    else if c == '\\' then "\\\\"
    else if c as int == 8 then "\\b"
    else if c as int == 9 then "\\t"
    else if c as int == 10 then "\\n"
    else if c as int == 12 then "\\f"
    else if c as int == 13 then "\\r"
    else if c as int < 0x20 then "\\u00" + [HexDigit(c as int / 16), HexDigit(c as int % 16)]
    else [c]
  }

  function EscapeString(s: string): string
    decreases |s|
  {
    if s == [] then "" else EscapeChar(s[0]) + EscapeString(s[1..])
  }

  /** `JSON.stringify(s)` for a string `s`. */
  function Quote(s: string): string {
    "\"" + EscapeString(s) + "\""
  }

  /** `JSON.stringify(v)`: no text at all for `undefined`. */
  function Stringify(v: Value): (r: Option<string>)
    ensures r.None? <==> v.Undefined?
  {
    match v
    case Undefined => None
    case Number(n) => Some(Text.IntToString(n))
    case Str(s) => Some(Quote(s))
  }

  /** The character one escape sequence (after its backslash) stands for, and how many characters it spans. */
  function Unescape(t: string): (r: Option<(char, nat)>)
    ensures r.Some? ==> 1 <= r.value.1 <= |t|
  {
    if t == [] then None
    else if t[0] == '"' then Some(('"', 1))
    else if t[0] == '\\' then Some(('\\', 1))
    else if t[0] == '/' then Some(('/', 1))
    else if t[0] == 'b' then Some((8 as char, 1))
    else if t[0] == 't' then Some((9 as char, 1))
    else if t[0] == 'n' then Some((10 as char, 1))
    else if t[0] == 'f' then Some((12 as char, 1))
    else if t[0] == 'r' then Some((13 as char, 1))
    else if t[0] == 'u' && |t| >= 5 then
      match (HexValue(t[1]), HexValue(t[2]), HexValue(t[3]), HexValue(t[4]))
      case (Some(a), Some(b), Some(c), Some(d)) =>
        var v := 4096 * a + 256 * b + 16 * c + d;
        if a < 16 && b < 16 && c < 16 && d < 16 && (v < 0xD800 || 0xE000 <= v) then Some((v as char, 5)) else None
      case _ => None
    else None
  }

  /** Reads a string literal's body up to its closing quote: the text it denotes, and what follows the quote. */
  function ParseStringBody(t: string): Option<(string, string)>
    decreases |t|
  {
    if t == [] then None
    else if t[0] == '"' then Some(("", t[1..]))
    else if t[0] as int < 0x20 then None
    else if t[0] == '\\' then
      match Unescape(t[1..])
      case None => None
      case Some((c, n)) =>
        match ParseStringBody(t[1 + n..])
        case None => None
        case Some((s, rest)) => Some(([c] + s, rest))
    else
      match ParseStringBody(t[1..])
      case None => None
      case Some((s, rest)) => Some(([t[0]] + s, rest))
  }

  /** Reads one string literal at the front of `t`. */
  function ParseQuoted(t: string): Option<(string, string)> {
    if t == [] || t[0] != '"' then None else ParseStringBody(t[1..])
  }

  /** The four hex digits of a `\u00XX` escape give back the control character. */
  lemma UnescapeHex(c: char, tail: string)
    requires c as int < 0x20
    ensures Unescape("u00" + [HexDigit(c as int / 16), HexDigit(c as int % 16)] + tail) == Some((c, 5))
  {
    var hi, lo := c as int / 16, c as int % 16;
    var u := "u00" + [HexDigit(hi), HexDigit(lo)] + tail;
    assert u[0] == 'u' && u[1] == '0' && u[2] == '0' && u[3] == HexDigit(hi) && u[4] == HexDigit(lo);
    HexRoundTrip(hi);
    HexRoundTrip(lo);
    assert HexValue('0') == Some(0);
    assert 16 * hi + lo == c as int;
    assert (c as int) as char == c;
  }

  /** A control character written as `\u00XX` reads back as itself. */
  lemma HexEscapeStep(c: char, tail: string)
    requires c as int < 0x20
    requires !(c as int == 8 || c as int == 9 || c as int == 10 || c as int == 12 || c as int == 13)
    requires ParseStringBody(tail).Some?
    ensures ParseStringBody(EscapeChar(c) + tail)
         == Some(([c] + ParseStringBody(tail).value.0, ParseStringBody(tail).value.1))
  {
    var u := "u00" + [HexDigit(c as int / 16), HexDigit(c as int % 16)] + tail;
    var t := EscapeChar(c) + tail;
    assert t == "\\" + u;
    assert t[1..] == u;
    UnescapeHex(c, tail);
    assert t[6..] == tail;
  }

  /** Reading an escaped character back yields it, and parsing goes on right after it. */
  lemma EscapeCharStep(c: char, tail: string)
    requires ParseStringBody(tail).Some?
    ensures ParseStringBody(EscapeChar(c) + tail)
         == Some(([c] + ParseStringBody(tail).value.0, ParseStringBody(tail).value.1))
  {
    var t := EscapeChar(c) + tail;
    if c == '"' || c == '\\' || c as int == 8 || c as int == 9 || c as int == 10 || c as int == 12 || c as int == 13 {
      assert t[1..][1..] == tail;
      assert t[2..] == tail;
    } else if c as int < 0x20 {
      HexEscapeStep(c, tail);
    } else {
      assert t[1..] == tail;
    }
  }

  lemma {:induction false} ParseEscaped(s: string, rest: string)
    ensures ParseStringBody(EscapeString(s) + "\"" + rest) == Some((s, rest))
    decreases |s|
  {
    if s == [] {
      assert EscapeString(s) + "\"" + rest == "\"" + rest;
    } else {
      var tail := EscapeString(s[1..]) + "\"" + rest;
      assert EscapeString(s) + "\"" + rest == EscapeChar(s[0]) + tail;
      ParseEscaped(s[1..], rest);
      EscapeCharStep(s[0], tail);
      assert [s[0]] + s[1..] == s;
    }
  }

  /** `JSON.parse` reads back what `JSON.stringify` wrote for a string, leaving what follows untouched. */
  lemma QuoteRoundTrip(s: string, rest: string)
    ensures ParseQuoted(Quote(s) + rest) == Some((s, rest))
  {
    var t := Quote(s) + rest;
    assert t[1..] == EscapeString(s) + "\"" + rest;
    ParseEscaped(s, rest);
  }

  lemma {:induction false} EscapeStringHasNoNewline(s: string)
    ensures '\n' !in EscapeString(s)
    decreases |s|
  {
    if s != [] {
      EscapeStringHasNoNewline(s[1..]);
      assert '\n' !in EscapeChar(s[0]);
    }
  }

  /** Stringified values never contain a raw line break, so one CSV line stays one line. */
  lemma StringifyHasNoNewline(v: Value)
    requires v != Undefined
    ensures '\n' !in Stringify(v).value
  {
    match v
    case Number(n) => Text.NumeralsHaveNoNewline(n);
    case Str(s) => EscapeStringHasNoNewline(s);
  }

  /** `JSON.stringify` of an object whose properties all hold strings, in property order. */
  function EncodeRecord(fields: seq<(string, string)>): string {
    "{" + EncodeMembers(fields)
  }

  function EncodeMembers(fields: seq<(string, string)>): string
    decreases |fields|
  {
    if fields == [] then "}"
    else
      var after := if |fields| == 1 then "}" else "," + EncodeMembers(fields[1..]);
      Quote(fields[0].0) + (":" + (Quote(fields[0].1) + after))
  }

  /** `JSON.parse` of an object with exactly the properties `keys`, in that order, each a string. */
  function DecodeRecord(keys: seq<string>, t: string): Option<seq<string>> {
    if t == [] || t[0] != '{' then None else DecodeMembers(keys, t[1..])
  }

  function DecodeMembers(keys: seq<string>, t: string): Option<seq<string>>
    decreases |keys|
  {
    if keys == [] then (if t == "}" then Some([]) else None)
    else
      match ParseQuoted(t)
      case None => None
      case Some((k, r1)) =>
        if k != keys[0] || r1 == [] || r1[0] != ':' then None
        else
          match ParseQuoted(r1[1..])
          case None => None
          case Some((v, r2)) =>
            if |keys| == 1 then (if r2 == "}" then Some([v]) else None)
            else if r2 == [] || r2[0] != ',' then None
            else
              match DecodeMembers(keys[1..], r2[1..])
              case None => None
              case Some(vs) => Some([v] + vs)
  }

  function Names(fields: seq<(string, string)>): (ks: seq<string>)
    ensures |ks| == |fields| && forall i :: 0 <= i < |fields| ==> ks[i] == fields[i].0
  {
    seq(|fields|, i requires 0 <= i < |fields| => fields[i].0)
  }

  function Contents(fields: seq<(string, string)>): (vs: seq<string>)
    ensures |vs| == |fields| && forall i :: 0 <= i < |fields| ==> vs[i] == fields[i].1
  {
    seq(|fields|, i requires 0 <= i < |fields| => fields[i].1)
  }

  /** One property is read back, and decoding carries on with the text after its value. */
  lemma DecodeFirstMember(keys: seq<string>, v: string, after: string)
    requires keys != []
    ensures DecodeMembers(keys, Quote(keys[0]) + (":" + (Quote(v) + after)))
         == if |keys| == 1 then (if after == "}" then Some([v]) else None)
            else if after == [] || after[0] != ',' then None
            else match DecodeMembers(keys[1..], after[1..])
                 case None => None
                 case Some(vs) => Some([v] + vs)
  {
    var r1 := ":" + (Quote(v) + after);
    QuoteRoundTrip(keys[0], r1);
    assert r1[1..] == Quote(v) + after;
    QuoteRoundTrip(v, after);
  }

  lemma ContentsCons(fields: seq<(string, string)>)
    requires fields != []
    ensures Contents(fields) == [fields[0].1] + Contents(fields[1..])
  {
  }

  lemma DecodeLaterMembers(keys: seq<string>, v: string, rest: string, vs: seq<string>)
    requires |keys| >= 2
    requires DecodeMembers(keys[1..], rest) == Some(vs)
    ensures DecodeMembers(keys, Quote(keys[0]) + (":" + (Quote(v) + ("," + rest)))) == Some([v] + vs)
  {
    DecodeFirstMember(keys, v, "," + rest);
    assert ("," + rest)[1..] == rest;
  }

  lemma {:induction false} MembersRoundTrip(fields: seq<(string, string)>)
    ensures DecodeMembers(Names(fields), EncodeMembers(fields)) == Some(Contents(fields))
    decreases |fields|
  {
    if fields != [] {
      var keys := Names(fields);
      var v := fields[0].1;
      assert keys[0] == fields[0].0;
      if |fields| == 1 {
        assert EncodeMembers(fields) == Quote(keys[0]) + (":" + (Quote(v) + "}"));
        DecodeFirstMember(keys, v, "}");
        assert Contents(fields) == [v];
      } else {
        var rest := EncodeMembers(fields[1..]);
        assert EncodeMembers(fields) == Quote(keys[0]) + (":" + (Quote(v) + ("," + rest)));
        MembersRoundTrip(fields[1..]);
        assert keys[1..] == Names(fields[1..]);
        DecodeLaterMembers(keys, v, rest, Contents(fields[1..]));
        ContentsCons(fields);
      }
    }
  }

  /** Parsing the text of a stringified record gives back its property values. */
  lemma RecordRoundTrip(fields: seq<(string, string)>)
    ensures DecodeRecord(Names(fields), EncodeRecord(fields)) == Some(Contents(fields))
  {
    assert EncodeRecord(fields)[1..] == EncodeMembers(fields);
    MembersRoundTrip(fields);
  }

  /** A stringified record is never the empty string (so it is truthy when read back from storage). */
  lemma RecordIsNonEmpty(fields: seq<(string, string)>)
    ensures EncodeRecord(fields) != "" && EncodeRecord(fields) != "null"
  {
  }
}
