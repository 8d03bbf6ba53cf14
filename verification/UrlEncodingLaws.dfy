/** Round trips of the encoders. */
module UrlEncodingLaws {
  import opened UrlEncoding

  // ---------------------------------------------------------------------------
  // Percent decoding after encoding
  // ---------------------------------------------------------------------------

  /** A space becomes a plus sign; every other byte stays. */
  function Plussed(s: Text): Text {
    if s == [] then [] else [if s[0] == ' ' then '+' else s[0]] + Plussed(s[1..])
  }

  lemma HexRoundTrip(c: Octet)
    ensures HexValue(HexDigit(c as int / 16)) == c as int / 16
    ensures HexValue(HexDigit(c as int % 16)) == c as int % 16
  {
  }

  /** One encoded byte is decoded on its own. */
  lemma DecodeOne(c: Octet, rest: Text)
    ensures PercentDecode(EncodeOne(c) + rest) == [if c == ' ' then '+' else c] + PercentDecode(rest)
  {
    var s := EncodeOne(c) + rest;
    if IsUnreserved(c) || c == ' ' {
      assert s[1..] == rest && !Escaped(s);
    } else {
      HexRoundTrip(c);
      assert s[3..] == rest && Escaped(s);
    }
  }

  lemma {:induction false} DecodeEncoded(s: Text)
    ensures PercentDecode(Encode(s)) == Plussed(s)
  {
    if s != [] {
      DecodeOne(s[0], Encode(s[1..]));
      DecodeEncoded(s[1..]);
    }
  }

  lemma {:induction false} PlussedIsSame(s: Text)
    ensures Plussed(s) == s <==> ' ' !in s
  {
    if s != [] {
      PlussedIsSame(s[1..]);
      assert s == [s[0]] + s[1..];
      assert Plussed(s)[0] == (if s[0] == ' ' then '+' else s[0]) && Plussed(s)[1..] == Plussed(s[1..]);
    }
  }

  /** Percent decoding undoes the encoding exactly on strings without a space. */
  lemma DecodeUndoesEncodeExactly(s: Text)
    ensures PercentDecode(Encode(s)) == s <==> ' ' !in s
  {
    DecodeEncoded(s);
    PlussedIsSame(s);
  }

  /** Letters, digits and four marks, by their codes: section 2.3 of RFC 3986. */
  predicate Plain(c: Octet) {
    var n := c as int;
    || 97 <= n <= 122 || 65 <= n <= 90 || 48 <= n <= 57
    || n == 45 || n == 46 || n == 95 || n == 126
  }

  /** A byte is written as itself exactly if it is one of those, a space as a plus sign, and
      any other as a percent sign and its two hexadecimal digits in upper case. */
  lemma EncodedAs(c: Octet)
    ensures EncodeOne(c) == [c] <==> Plain(c)
    ensures !Plain(c) && c != ' ' ==>
              EncodeOne(c) == ['%', "0123456789ABCDEF"[c as int / 16], "0123456789ABCDEF"[c as int % 16]]
    ensures c == ' ' ==> EncodeOne(c) == ['+']
  {
    HexDigitIs(c as int / 16);
    HexDigitIs(c as int % 16);
  }

  lemma HexDigitIs(n: nat)
    requires n < 16
    ensures HexDigit(n) == "0123456789ABCDEF"[n]
  {
  }

  /** Hexadecimal digits count in both cases, and nothing else does. */
  lemma HexValueExactly(c: Octet)
    ensures HexValue(c) == if 48 <= c as int <= 57 then c as int - 48
                           else if 65 <= c as int <= 70 then c as int - 55
                           else if 97 <= c as int <= 102 then c as int - 87
                           else -1
  {
  }

  /** An escape is resolved to its byte; a percent sign without two digits behind it stays. */
  lemma DecodedAs(s: Text)
    requires s != []
    ensures PercentDecode(s) ==
            if |s| > 2 && s[0] == '%' && HexValue(s[1]) >= 0 && HexValue(s[2]) >= 0
            then [(16 * HexValue(s[1]) + HexValue(s[2])) as char] + PercentDecode(s[3..])
            else [s[0]] + PercentDecode(s[1..])
  {
    HexValueExactly(s[0]);
  }

  // ---------------------------------------------------------------------------
  // Forms can be read back
  // ---------------------------------------------------------------------------

  /** A plus sign is a space, and then escapes are resolved: the reading of
      application/x-www-form-urlencoded. */
  function FormDecode(s: Text): Text {
    if s == [] then []
    else if s[0] == '+' then [' '] + FormDecode(s[1..])
    else if Escaped(s) then [HexPair(s[1], s[2])] + FormDecode(s[3..])
    else [s[0]] + FormDecode(s[1..])
  }

  function ReadField(s: Text): Field {
    var eq := IndexOf(s, '=');
    Field(FormDecode(s[..eq]), FormDecode(if eq < |s| then s[eq + 1..] else []))
  }

  /** Fields are separated by ampersands; the empty form has none. */
  function ReadForm(s: Text): seq<Field>
    decreases |s|
  {
    if s == [] then []
    else
      var amp := IndexOf(s, '&');
      [ReadField(s[..amp])] + (if amp < |s| then ReadForm(s[amp + 1..]) else [])
  }

  /** The bytes that encoding writes. */
  predicate Safe(c: Octet) {
    IsUnreserved(c) || c == '+' || c == '%'
  }

  lemma {:induction false} EncodeSafe(s: Text)
    ensures forall c :: c in Encode(s) ==> Safe(c)
  {
    if s != [] {
      EncodeSafe(s[1..]);
    }
  }

  lemma FormDecodeOne(c: Octet, rest: Text)
    ensures FormDecode(EncodeOne(c) + rest) == [c] + FormDecode(rest)
  {
    var s := EncodeOne(c) + rest;
    if IsUnreserved(c) || c == ' ' {
      assert s[1..] == rest && !Escaped(s);
    } else {
      HexRoundTrip(c);
      assert s[3..] == rest && Escaped(s);
    }
  }

  lemma {:induction false} FormDecodeEncoded(s: Text)
    ensures FormDecode(Encode(s)) == s
  {
    if s != [] {
      FormDecodeOne(s[0], Encode(s[1..]));
      FormDecodeEncoded(s[1..]);
      assert s == [s[0]] + s[1..];
    }
  }

  lemma {:induction false} IndexAfter(a: Text, c: Octet, b: Text)
    requires c !in a
    ensures IndexOf(a + [c] + b, c) == |a|
  {
    var s := a + [c] + b;
    if a != [] {
      assert s[0] == a[0] && s[1..] == a[1..] + [c] + b;
      IndexAfter(a[1..], c, b);
    }
  }

  lemma {:induction false} IndexAbsent(a: Text, c: Octet)
    requires c !in a
    ensures IndexOf(a, c) == |a|
  {
    if a != [] {
      IndexAbsent(a[1..], c);
    }
  }

  lemma ReadFieldOf(a: Text, b: Text)
    requires '=' !in a
    ensures ReadField(a + ['='] + b) == Field(FormDecode(a), FormDecode(b))
  {
    var s := a + ['='] + b;
    IndexAfter(a, '=', b);
    assert s[..|a|] == a && s[|a| + 1..] == b;
  }

  lemma FieldReadBack(f: Field)
    ensures ReadField(EncodeField(f)) == f
  {
    EncodeSafe(f.name);
    ReadFieldOf(Encode(f.name), Encode(f.value));
    FormDecodeEncoded(f.name);
    FormDecodeEncoded(f.value);
  }

  /** An encoded field has neither separator of fields nor beginning of a fragment. */
  lemma FieldIsOne(f: Field)
    ensures EncodeField(f) != [] && '&' !in EncodeField(f) && '#' !in EncodeField(f)
  {
    EncodeSafe(f.name);
    EncodeSafe(f.value);
  }

  lemma ReadLast(first: Text)
    requires first != [] && '&' !in first
    ensures ReadForm(first) == [ReadField(first)]
  {
    IndexAbsent(first, '&');
    assert first[..|first|] == first;
  }

  lemma ReadFirst(first: Text, rest: Text)
    requires '&' !in first
    ensures ReadForm(first + ['&'] + rest) == [ReadField(first)] + ReadForm(rest)
  {
    var s := first + ['&'] + rest;
    IndexAfter(first, '&', rest);
    assert s[..|first|] == first && s[|first| + 1..] == rest;
  }

  lemma TailOf(fields: seq<Field>)
    requires fields != []
    ensures FormTail(fields) == ['&'] + FormUrlencode(fields)
  {
    var field, rest := EncodeField(fields[0]), FormTail(fields[1..]);
    assert ['&'] + field + rest == ['&'] + (field + rest);
  }

  /** Every list of fields can be read back from its form encoding. */
  lemma {:induction false} FormReadBack(fields: seq<Field>)
    ensures ReadForm(FormUrlencode(fields)) == fields
  {
    if fields != [] {
      var first := EncodeField(fields[0]);
      FieldReadBack(fields[0]);
      FieldIsOne(fields[0]);
      assert fields == [fields[0]] + fields[1..];
      if fields[1..] == [] {
        assert first + [] == first;
        ReadLast(first);
      } else {
        var rest := FormUrlencode(fields[1..]);
        TailOf(fields[1..]);
        assert first + (['&'] + rest) == first + ['&'] + rest;
        ReadFirst(first, rest);
        FormReadBack(fields[1..]);
      }
    }
  }

  // ---------------------------------------------------------------------------
  // Appending query parameters
  // ---------------------------------------------------------------------------

  lemma {:induction false} TailHasNoHash(fields: seq<Field>)
    ensures '#' !in FormTail(fields)
  {
    if fields != [] {
      FieldIsOne(fields[0]);
      TailHasNoHash(fields[1..]);
    }
  }

  lemma FormHasNoHash(fields: seq<Field>)
    ensures '#' !in FormUrlencode(fields)
  {
    if fields != [] {
      FieldIsOne(fields[0]);
      TailHasNoHash(fields[1..]);
    }
  }

  lemma {:induction false} TailConcat(p: seq<Field>, q: seq<Field>)
    ensures FormTail(p + q) == FormTail(p) + FormTail(q)
    decreases |p|
  {
    if p == [] {
      assert p + q == q && [] + FormTail(q) == FormTail(q);
    } else {
      assert (p + q)[0] == p[0] && (p + q)[1..] == p[1..] + q;
      TailConcat(p[1..], q);
      var field := ['&'] + EncodeField(p[0]);
      assert field + (FormTail(p[1..]) + FormTail(q)) == field + FormTail(p[1..]) + FormTail(q);
    }
  }

  lemma FormConcat(p: seq<Field>, q: seq<Field>)
    requires p != [] && q != []
    ensures FormUrlencode(p + q) == FormUrlencode(p) + ['&'] + FormUrlencode(q)
  {
    assert (p + q)[0] == p[0] && (p + q)[1..] == p[1..] + q;
    TailConcat(p[1..], q);
    TailOf(q);
    Grouped(EncodeField(p[0]), FormTail(p[1..]), FormUrlencode(q));
  }

  lemma Grouped(a: Text, b: Text, c: Text)
    ensures a + (b + (['&'] + c)) == (a + b) + ['&'] + c
  {
  }

  lemma {:induction false} IndexSplit(a: Text, b: Text, c: Octet)
    requires c !in a && (b == [] || b[0] == c)
    ensures IndexOf(a + b, c) == |a|
  {
    if a != [] {
      assert (a + b)[0] == a[0] && (a + b)[1..] == a[1..] + b;
      IndexSplit(a[1..], b, c);
    } else {
      assert a + b == b;
    }
  }

  /** What an address is appended to and what stays behind it. */
  lemma AppendSplits(base: Text, fragment: Text, params: seq<Field>)
    requires '#' !in base && (fragment == [] || fragment[0] == '#') && params != []
    ensures AppendQuery(base + fragment, params) == base + [Separator(base)] + FormUrlencode(params) + fragment
  {
    IndexSplit(base, fragment, '#');
    assert (base + fragment)[..|base|] == base && (base + fragment)[|base|..] == fragment;
  }

  /** Appending parameters keeps the part before and after them: nothing of the address is
      lost and the fragment stays last. */
  lemma FragmentStaysLast(url: Text, params: seq<Field>)
    requires params != []
    ensures var i := IndexOf(url, '#');
            var separator := if '?' in url[..i] then '&' else '?';
            AppendQuery(url, params) == url[..i] + [separator] + FormUrlencode(params) + url[i..]
    ensures IndexOf(AppendQuery(url, params), '#') == |AppendQuery(url, params)| - |url[IndexOf(url, '#')..]|
  {
    var i := IndexOf(url, '#');
    var front := url[..i] + [Separator(url[..i])] + FormUrlencode(params);
    FormHasNoHash(params);
    IndexSplit(front, url[i..], '#');
  }

  lemma AppendBoth(base: Text, fragment: Text, p: seq<Field>, q: seq<Field>)
    requires '#' !in base && (fragment == [] || fragment[0] == '#') && p != [] && q != []
    ensures AppendQuery(AppendQuery(base + fragment, p), q) == AppendQuery(base + fragment, p + q)
  {
    var once := base + [Separator(base)] + FormUrlencode(p);
    AppendSplits(base, fragment, p);
    FormHasNoHash(p);
    assert base[..] == base && '?' in once by {
      if '?' !in base {
        assert once[|base|] == '?';
      }
    }
    AppendSplits(once, fragment, q);
    AppendSplits(base, fragment, p + q);
    FormConcat(p, q);
    Regroup(base + [Separator(base)], FormUrlencode(p), FormUrlencode(q), fragment);
  }

  lemma Regroup(a: Text, b: Text, c: Text, d: Text)
    ensures a + b + ['&'] + c + d == a + (b + ['&'] + c) + d
  {
    assert a + b + ['&'] + c == a + (b + ['&'] + c);
  }

  /** Appending p and then q is appending p followed by q. */
  lemma AppendTwice(url: Text, p: seq<Field>, q: seq<Field>)
    ensures AppendQuery(AppendQuery(url, p), q) == AppendQuery(url, p + q)
  {
    if p == [] {
      assert p + q == q;
    } else if q == [] {
      assert p + q == p;
    } else {
      var i := IndexOf(url, '#');
      assert url == url[..i] + url[i..];
      AppendBoth(url[..i], url[i..], p, q);
    }
  }

  // ---------------------------------------------------------------------------
  // Reading the query back
  // ---------------------------------------------------------------------------

  /** What follows the first question mark. */
  function QueryIn(base: Text): Text {
    var i := IndexOf(base, '?');
    if i < |base| then base[i + 1..] else []
  }

  /** What stands between the first question mark and the fragment. */
  function QueryOf(url: Text): Text {
    QueryIn(url[..IndexOf(url, '#')])
  }

  function Join(a: Text, b: Text): Text {
    a + ['&'] + b
  }

  lemma JoinAssociates(a: Text, b: Text, c: Text)
    ensures Join(Join(a, b), c) == Join(a, Join(b, c))
  {
  }

  /** Pieces between ampersands, empty ones included. */
  function Pieces(s: Text): seq<Field>
    decreases |s|
  {
    var amp := IndexOf(s, '&');
    [ReadField(s[..amp])] + (if amp < |s| then Pieces(s[amp + 1..]) else [])
  }

  predicate EndsOpen(s: Text) {
    s == [] || s[|s| - 1] == '&'
  }

  function EmptyPiece(s: Text): seq<Field> {
    if EndsOpen(s) then [Field([], [])] else []
  }

  lemma Associates<T>(a: seq<T>, b: seq<T>, c: seq<T>)
    ensures a + (b + c) == a + b + c
  {
  }

  lemma EndOfRest(s: Text, k: nat)
    requires k < |s| && s[k] == '&'
    ensures EndsOpen(s[k + 1..]) == EndsOpen(s)
  {
    var rest := s[k + 1..];
    if rest != [] {
      assert rest[|rest| - 1] == s[|s| - 1];
    }
  }

  lemma LastPiece(s: Text)
    requires '&' !in s
    ensures Pieces(s) == [ReadField(s)] && (s != [] ==> !EndsOpen(s))
  {
    IndexAbsent(s, '&');
    assert s[..|s|] == s;
  }

  lemma FirstPiece(first: Text, rest: Text)
    requires '&' !in first
    ensures Pieces(Join(first, rest)) == [ReadField(first)] + Pieces(rest)
    ensures ReadForm(Join(first, rest)) == [ReadField(first)] + ReadForm(rest)
  {
    ReadFirst(first, rest);
    var s := Join(first, rest);
    IndexAfter(first, '&', rest);
    assert s[..|first|] == first && s[|first| + 1..] == rest;
  }

  /** The text before the first ampersand, and the text behind it. */
  lemma CutAtAmpersand(s: Text) returns (first: Text, rest: Text)
    requires '&' in s
    ensures '&' !in first && s == Join(first, rest) && |rest| < |s|
  {
    var amp := IndexOf(s, '&');
    first, rest := s[..amp], s[amp + 1..];
  }

  lemma EndOfJoin(first: Text, rest: Text)
    ensures EmptyPiece(Join(first, rest)) == EmptyPiece(rest)
  {
    EndOfRest(Join(first, rest), |first|);
    assert Join(first, rest)[|first| + 1..] == rest;
  }

  /** A form that is empty or ends with an ampersand has one empty piece more than fields. */
  lemma {:induction false} PiecesOrFields(s: Text)
    ensures Pieces(s) == ReadForm(s) + EmptyPiece(s)
    decreases |s|
  {
    if '&' in s {
      var first, rest := CutAtAmpersand(s);
      FirstPiece(first, rest);
      PiecesOrFields(rest);
      EndOfJoin(first, rest);
      Associates([ReadField(first)], ReadForm(rest), EmptyPiece(rest));
    } else {
      LastPiece(s);
      if s == [] {
        assert ReadField([]) == Field([], []);
      } else {
        ReadLast(s);
      }
    }
  }

  /** A form behind another one adds its fields to the pieces of the first. */
  lemma {:induction false} ReadBehind(q: Text, r: Text)
    ensures ReadForm(Join(q, r)) == Pieces(q) + ReadForm(r)
    decreases |q|
  {
    if '&' in q {
      var first, rest := CutAtAmpersand(q);
      ReadBehind(rest, r);
      JoinAssociates(first, rest, r);
      FirstPiece(first, rest);
      FirstPiece(first, Join(rest, r));
      Associates([ReadField(first)], Pieces(rest), ReadForm(r));
    } else {
      LastPiece(q);
      FirstPiece(q, r);
    }
  }

  lemma QueryBehind(a: Text, b: Text)
    requires '?' !in a
    ensures QueryIn(a + ['?'] + b) == b
  {
    IndexAfter(a, '?', b);
  }

  lemma QueryBeforeFragment(base: Text, fragment: Text)
    requires '#' !in base && (fragment == [] || fragment[0] == '#')
    ensures QueryOf(base + fragment) == QueryIn(base)
  {
    IndexSplit(base, fragment, '#');
    assert (base + fragment)[..|base|] == base;
  }

  /** More text behind an address that has a query is more query. */
  lemma QueryGrows(base: Text, more: Text)
    ensures '?' in base ==> QueryIn(base + more) == QueryIn(base) + more
    ensures '?' !in base ==> QueryIn(base + (['?'] + more)) == more
  {
    if '?' in base {
      var j := IndexOf(base, '?');
      var a, b := base[..j], base[j + 1..];
      assert base == a + ['?'] + b;
      QueryBehind(a, b);
      assert base + more == a + ['?'] + (b + more);
      QueryBehind(a, b + more);
    } else {
      assert base + (['?'] + more) == base + ['?'] + more;
      QueryBehind(base, more);
    }
  }

  lemma AppendedQuery(base: Text, fragment: Text, params: seq<Field>)
    requires '#' !in base && (fragment == [] || fragment[0] == '#') && params != []
    ensures QueryOf(AppendQuery(base + fragment, params)) ==
            if '?' in base then Join(QueryIn(base), FormUrlencode(params)) else FormUrlencode(params)
  {
    AppendSplits(base, fragment, params);
    FormHasNoHash(params);
    QueryBeforeFragment(base + [Separator(base)] + FormUrlencode(params), fragment);
    SeparatedQuery(base, FormUrlencode(params));
  }

  lemma SeparatedQuery(base: Text, form: Text)
    ensures QueryIn(base + [Separator(base)] + form) ==
            if '?' in base then Join(QueryIn(base), form) else form
  {
    assert base + [Separator(base)] + form == base + ([Separator(base)] + form);
    QueryGrows(base, ['&'] + form);
    QueryGrows(base, form);
    assert Join(QueryIn(base), form) == QueryIn(base) + (['&'] + form);
  }

  /** The fields read back from the new query are those of the old one and then the new ones,
      exactly unless the address has a query that is empty or ends with an ampersand: then
      an empty field comes between them. */
  lemma QueryReadBackExactly(url: Text, params: seq<Field>)
    requires params != []
    ensures var base := url[..IndexOf(url, '#')];
            ReadForm(QueryOf(AppendQuery(url, params))) == ReadForm(QueryOf(url)) + params
            <==> ('?' in base ==> !EndsOpen(QueryOf(url)))
  {
    var i := IndexOf(url, '#');
    var base := url[..i];
    assert url == base + url[i..];
    AppendedQuery(base, url[i..], params);
    FormReadBack(params);
    if '?' in base {
      FieldsAdded(QueryIn(base), params);
    } else {
      IndexAbsent(base, '?');
      assert ReadForm(QueryIn(base)) + params == params;
    }
  }

  lemma FieldsAdded(query: Text, params: seq<Field>)
    requires params != []
    ensures ReadForm(Join(query, FormUrlencode(params))) == ReadForm(query) + params <==> !EndsOpen(query)
  {
    var form := FormUrlencode(params);
    ReadBehind(query, form);
    FormReadBack(params);
    PiecesOrFields(query);
    if !EndsOpen(query) {
      assert ReadForm(query) + [] == ReadForm(query);
    } else {
      assert |ReadForm(query) + EmptyPiece(query) + params| == |ReadForm(query)| + 1 + |params|;
    }
  }
}
