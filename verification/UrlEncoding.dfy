/** Form and query encoding, and the percent decoding of proxy credentials. */
module UrlEncoding {

  /** One byte of a string. */
  type Octet = c: char | c as int < 256

  type Text = seq<Octet>

  datatype Field = Field(name: Text, value: Text)

  // ---------------------------------------------------------------------------
  // Encoding
  // ---------------------------------------------------------------------------

  predicate IsUnreserved(c: Octet) {
    || 'a' <= c <= 'z' || 'A' <= c <= 'Z' || '0' <= c <= '9'
    || c == '-' || c == '_' || c == '.' || c == '~'
  }

  function HexDigit(n: nat): Octet
    requires n < 16
  {
    if n < 10 then '0' + n as char else 'A' + (n - 10) as char
  }

  function EncodeOne(c: Octet): Text {
    if IsUnreserved(c) then [c]
    else if c == ' ' then ['+']
    else ['%', HexDigit(c as int / 16), HexDigit(c as int % 16)]
  }

  function Encode(s: Text): Text {
    if s == [] then [] else EncodeOne(s[0]) + Encode(s[1..])
  }

  function EncodeField(f: Field): Text {
    Encode(f.name) + ['='] + Encode(f.value)
  }

  /** Fields that follow others. */
  function FormTail(fields: seq<Field>): Text {
    if fields == [] then [] else ['&'] + EncodeField(fields[0]) + FormTail(fields[1..])
  }

  function FormUrlencode(fields: seq<Field>): Text {
    if fields == [] then [] else EncodeField(fields[0]) + FormTail(fields[1..])
  }

  /** The first position of `c`, or the length. */
  function IndexOf(s: Text, c: Octet): (i: nat)
    ensures i <= |s| && (i < |s| ==> s[i] == c)
    ensures forall j :: 0 <= j < i ==> s[j] != c
  {
    if s == [] || s[0] == c then 0 else 1 + IndexOf(s[1..], c)
  }

  function Separator(base: Text): Octet {
    if '?' in base then '&' else '?'
  }

  function AppendQuery(url: Text, params: seq<Field>): Text {
    if params == [] then url
    else
      var fragment := IndexOf(url, '#');
      var base := url[..fragment];
      base + [Separator(base)] + FormUrlencode(params) + url[fragment..]
  }

  // ---------------------------------------------------------------------------
  // Decoding
  // ---------------------------------------------------------------------------

  function HexValue(c: Octet): int {
    if '0' <= c <= '9' then c as int - '0' as int
    else if 'a' <= c <= 'f' then 10 + c as int - 'a' as int
    else if 'A' <= c <= 'F' then 10 + c as int - 'A' as int
    else -1
  }

  function HexPair(high: Octet, low: Octet): Octet
    requires HexValue(high) >= 0 && HexValue(low) >= 0
  {
    (HexValue(high) * 16 + HexValue(low)) as char
  }

  predicate Escaped(s: Text) {
    |s| > 2 && s[0] == '%' && HexValue(s[1]) >= 0 && HexValue(s[2]) >= 0
  }

  function PercentDecode(s: Text): Text {
    if s == [] then []
    else if Escaped(s) then [HexPair(s[1], s[2])] + PercentDecode(s[3..])
    else [s[0]] + PercentDecode(s[1..])
  }

  // ---------------------------------------------------------------------------
  // Loops
  // ---------------------------------------------------------------------------

  method AppendUrlencoded(start: Text, value: Text) returns (out: Text)
    ensures out == start + Encode(value)
  {
    out := start;
    var i := 0;
    while i < |value|
      invariant 0 <= i <= |value|
      invariant out + Encode(value[i..]) == start + Encode(value)
    {
      var c := value[i];
      assert value[i..][1..] == value[i + 1..];
      ghost var rest := Encode(value[i + 1..]);
      assert out + (EncodeOne(c) + rest) == out + EncodeOne(c) + rest;
      if IsUnreserved(c) {
        out := out + [c];
      } else if c == ' ' {
        out := out + ['+'];
      } else {
        out := out + ['%', HexDigit(c as int / 16), HexDigit(c as int % 16)];
      }
      i := i + 1;
    }
    assert value[i..] == [];
  }

  method AppendField(start: Text, f: Field) returns (out: Text)
    ensures out == start + EncodeField(f)
  {
    out := AppendUrlencoded(start, f.name);
    out := out + ['='];
    out := AppendUrlencoded(out, f.value);
    assert out == start + (Encode(f.name) + ['='] + Encode(f.value));
  }

  /** The loop of form_urlencode and of append_query_params. */
  method AppendFields(start: Text, fields: seq<Field>) returns (out: Text)
    ensures out == start + FormUrlencode(fields)
  {
    out := start;
    var first := true;
    var i := 0;
    while i < |fields|
      invariant 0 <= i <= |fields| && first == (i == 0)
      invariant out + Remaining(fields, i) == start + FormUrlencode(fields)
    {
      Shift(out, fields, i);
      if !first {
        out := out + ['&'];
      }
      first := false;
      out := AppendField(out, fields[i]);
      i := i + 1;
    }
    assert out + [] == out;
  }

  /** What is still to be written once `i` fields are. */
  ghost function Remaining(fields: seq<Field>, i: nat): Text
    requires i <= |fields|
  {
    if i == 0 then FormUrlencode(fields) else FormTail(fields[i..])
  }

  lemma Shift(out: Text, fields: seq<Field>, i: nat)
    requires i < |fields|
    ensures out + Remaining(fields, i) ==
              (if i == 0 then out else out + ['&']) + EncodeField(fields[i]) + Remaining(fields, i + 1)
  {
    var field, rest := EncodeField(fields[i]), FormTail(fields[i + 1..]);
    assert fields[i..][1..] == fields[i + 1..];
    if i == 0 {
      assert out + (field + rest) == out + field + rest;
    } else {
      assert out + (['&'] + field + rest) == out + ['&'] + field + rest;
    }
  }

  method AppendQueryParams(url: Text, params: seq<Field>) returns (out: Text)
    ensures out == AppendQuery(url, params)
  {
    if params == [] {
      return url;
    }
    var fragment := IndexOf(url, '#');
    var suffix := url[fragment..];
    out := url[..fragment];
    out := out + [if '?' in out then '&' else '?'];
    out := AppendFields(out, params);
    out := out + suffix;
  }

  lemma DecodeNext(value: Text, i: nat, out: Text)
    requires i < |value|
    ensures out + PercentDecode(value[i..]) ==
            if Escaped(value[i..]) then out + [HexPair(value[i + 1], value[i + 2])] + PercentDecode(value[i + 3..])
            else out + [value[i]] + PercentDecode(value[i + 1..])
  {
    var s := value[i..];
    assert s[1..] == value[i + 1..];
    assert Escaped(s) ==> s[3..] == value[i + 3..] && s[1] == value[i + 1] && s[2] == value[i + 2];
  }

  method DecodePercents(value: Text) returns (out: Text)
    ensures out == PercentDecode(value)
  {
    out := [];
    var i := 0;
    while i < |value|
      invariant 0 <= i <= |value|
      invariant out + PercentDecode(value[i..]) == PercentDecode(value)
    {
      DecodeNext(value, i, out);
      if value[i] == '%' && i + 2 < |value| && HexValue(value[i + 1]) >= 0 && HexValue(value[i + 2]) >= 0 {
        out := out + [HexPair(value[i + 1], value[i + 2])];
        i := i + 3;
      } else {
        out := out + [value[i]];
        i := i + 1;
      }
    }
    assert value[i..] == [];
  }
}
