/** A well-formed response, written out and read back: section 6.2 of RFC 9112. */
module H1Framing {
  import opened Ascii
  import opened H1Responses
  import opened H1ResponseLaws

  // ---------------------------------------------------------------------------
  // Writing a response
  // ---------------------------------------------------------------------------

  /** The lines of a header section, each ended, and the empty line. */
  function Section(lines: seq<string>): string {
    if lines == [] then CRLF else lines[0] + CRLF + Section(lines[1..])
  }

  function Digit(d: nat): char
    requires d < 10
  {
    '0' + d as char
  }

  function Digits(n: nat): (s: string)
    ensures s != "" && forall i :: 0 <= i < |s| ==> IsDigit(s[i])
  {
    if n < 10 then [Digit(n)] else Digits(n / 10) + [Digit(n % 10)]
  }

  /** A line that holds no line end and is not empty. */
  ghost predicate Plain(line: string) {
    line != "" && forall i: nat :: !EndAt(line, i)
  }

  ghost predicate AllPlain(lines: seq<string>) {
    lines != [] ==> Plain(lines[0]) && AllPlain(lines[1..])
  }

  /** The value of a string of digits. */
  function Value(ds: string): nat {
    if ds == "" then 0 else Value(ds[..|ds| - 1]) * 10 + DigitValue(ds[|ds| - 1])
  }

  /** Space, tab, line feed, vertical tab, form feed and carriage return. */
  predicate IsWhite(c: char) {
    c as int in {32, 9, 10, 11, 12, 13}
  }

  /** White space, digits, and a rest that could not be either. */
  ghost predicate LengthParts(text: string, ws: string, ds: string, rest: string) {
    && text == ws + ds + rest && ds + rest != ""
    && (forall i :: 0 <= i < |ws| ==> IsWhite(ws[i]))
    && (forall i :: 0 <= i < |ds| ==> '0' <= ds[i] <= '9')
    && (rest != "" ==> !('0' <= rest[0] <= '9') && (ds == "" ==> !IsWhite(rest[0])))
  }

  /** The line gives the length, in any case of letters: the value of its digits in a 64-bit
      word, and zero without digits. */
  ghost predicate IsLength(line: string, n: nat) {
    NamedAt(line, 0) && exists ws: string, ds: string, rest: string ::
      LengthParts(line[|LENGTH_NAME|..], ws, ds, rest) && n == Value(ds) % WORD
  }

  // ---------------------------------------------------------------------------
  // Lines
  // ---------------------------------------------------------------------------

  ghost predicate At(s: string, part: string, p: nat) {
    p + |part| <= |s| && forall i :: 0 <= i < |part| ==> s[p + i] == part[i]
  }

  /** The line and its end stand at `p`. */
  ghost predicate LineAt(s: string, p: nat, line: string) {
    At(s, line, p) && EndAt(s, p + |line|)
  }

  /** The lines and the empty line stand at `p`, one after the other. */
  ghost predicate SectionAt(s: string, p: nat, lines: seq<string>)
    decreases |lines|
  {
    if lines == [] then EndAt(s, p)
    else LineAt(s, p, lines[0]) && SectionAt(s, p + |lines[0]| + 2, lines[1..])
  }

  lemma SectionSplits(s: string, p: nat, lines: seq<string>)
    requires lines != [] && At(s, Section(lines), p)
    ensures LineAt(s, p, lines[0]) && At(s, Section(lines[1..]), p + |lines[0]| + 2)
    ensures |Section(lines)| == |lines[0]| + 2 + |Section(lines[1..])|
  {
    var whole := Section(lines);
    var line, rest := lines[0], Section(lines[1..]);
    assert whole == line + CRLF + rest;
    assert s[p + |line|] == whole[|line|] && s[p + |line| + 1] == whole[|line| + 1];
    forall i | 0 <= i < |line|
      ensures s[p + i] == line[i]
    {
      assert s[p + i] == whole[i];
    }
    forall i | 0 <= i < |rest|
      ensures s[p + |line| + 2 + i] == rest[i]
    {
      assert s[p + (|line| + 2 + i)] == whole[|line| + 2 + i];
    }
  }

  /** A written section stands as its lines. */
  lemma {:induction false} WrittenSection(s: string, p: nat, lines: seq<string>)
    requires At(s, Section(lines), p)
    ensures SectionAt(s, p, lines)
    decreases |lines|
  {
    if lines == [] {
      assert s[p + 0] == CRLF[0] && s[p + 1] == CRLF[1];
    } else {
      SectionSplits(s, p, lines);
      WrittenSection(s, p + |lines[0]| + 2, lines[1..]);
    }
  }

  lemma NoEndInLine(s: string, p: nat, line: string, j: nat)
    requires Plain(line) && LineAt(s, p, line) && p <= j < p + |line|
    ensures !EndAt(s, j)
  {
    var i := j - p;
    assert !EndAt(line, i);
    assert s[p + i] == line[i];
    if i + 1 < |line| {
      assert s[p + (i + 1)] == line[i + 1];
    }
  }

  /** The first line end after the beginning of a line is its own. */
  lemma FindLineEnd(s: string, p: nat, line: string)
    requires Plain(line) && LineAt(s, p, line)
    ensures FindEnd(s, p) == p + |line|
  {
    FindEndIsFirst(s, p, p + |line|);
    if FindEnd(s, p) < p + |line| {
      NoEndInLine(s, p, line, FindEnd(s, p));
    }
  }

  lemma OneLine(s: string, p: nat, line: string, others: seq<string>)
    requires Plain(line) && LineAt(s, p, line) && Lines(s, p + |line| + 2) == others
    ensures Lines(s, p) == [line] + others
  {
    FindLineEnd(s, p, line);
    assert s[p..p + |line|] == line;
  }

  lemma {:induction false} LinesRead(s: string, p: nat, lines: seq<string>)
    requires AllPlain(lines) && SectionAt(s, p, lines)
    ensures Lines(s, p) == lines
    decreases |lines|
  {
    if lines == [] {
      FindEndIsFirst(s, p, p);
    } else {
      LinesRead(s, p + |lines[0]| + 2, lines[1..]);
      OneLine(s, p, lines[0], lines[1..]);
      assert [lines[0]] + lines[1..] == lines;
    }
  }

  /** The stored headers are the lines after the status line. */
  lemma HeaderLinesRead(lines: seq<string>, s: string)
    requires AllPlain(lines) && lines != [] && SectionAt(s, 0, lines)
    ensures HeaderLines(s) == lines[1..]
  {
    FindLineEnd(s, 0, lines[0]);
    LinesRead(s, |lines[0]| + 2, lines[1..]);
  }

  // ---------------------------------------------------------------------------
  // Where the section ends
  // ---------------------------------------------------------------------------

  /** No blank line begins in a line, nor in its end when another line follows. */
  lemma NoBlankInLine(s: string, p: nat, line: string, next: string, j: nat)
    requires Plain(line) && LineAt(s, p, line)
    requires p <= j < p + |line| || (p <= j < p + |line| + 2 && Plain(next) && LineAt(s, p + |line| + 2, next))
    ensures !BlankAt(s, j)
  {
    if j < p + |line| {
      NoEndInLine(s, p, line, j);
    } else if j == p + |line| {
      NoEndInLine(s, p + |line| + 2, next, j + 2);
    }
  }

  function Size(lines: seq<string>): nat {
    if lines == [] then 2 else |lines[0]| + 2 + Size(lines[1..])
  }

  lemma {:induction false} SectionSize(lines: seq<string>)
    ensures |Section(lines)| == Size(lines)
  {
    if lines != [] {
      SectionSize(lines[1..]);
    }
  }

  /** No blank line begins before the end of the section. */
  lemma {:induction false} NoBlankBefore(s: string, p: nat, lines: seq<string>, j: nat)
    requires AllPlain(lines) && lines != [] && SectionAt(s, p, lines) && p <= j < p + Size(lines) - 4
    ensures !BlankAt(s, j)
    decreases |lines|
  {
    var q := p + |lines[0]| + 2;
    if lines[1..] == [] {
      NoBlankInLine(s, p, lines[0], "", j);
    } else if j < q {
      NoBlankInLine(s, p, lines[0], lines[1], j);
    } else {
      NoBlankBefore(s, q, lines[1..], j);
    }
  }

  lemma {:induction false} BlankEndsSection(s: string, p: nat, lines: seq<string>)
    requires lines != [] && SectionAt(s, p, lines)
    ensures Size(lines) >= 4 && BlankAt(s, p + Size(lines) - 4)
    decreases |lines|
  {
    if lines[1..] != [] {
      BlankEndsSection(s, p + |lines[0]| + 2, lines[1..]);
    }
  }

  /** The body begins right after the section. */
  lemma BodyStartsAfterSection(lines: seq<string>, s: string)
    requires lines != [] && AllPlain(lines) && SectionAt(s, 0, lines)
    ensures BodyStart(s) == |Section(lines)|
  {
    SectionSize(lines);
    BlankEndsSection(s, 0, lines);
    FindBlankIsFirst(s, 0, Size(lines) - 4);
    if FindBlank(s, 0) < Size(lines) - 4 {
      NoBlankBefore(s, 0, lines, FindBlank(s, 0));
    }
  }

  // ---------------------------------------------------------------------------
  // The length
  // ---------------------------------------------------------------------------

  /** The name cannot run over the end of a line. */
  lemma NamedInLine(s: string, p: nat, line: string)
    requires LineAt(s, p, line)
    ensures NamedAt(s, p) <==> NamedAt(line, 0)
  {
    if |line| < |LENGTH_NAME| {
      assert LowerChar('\r') != LENGTH_NAME[|line|];
    } else {
      assert forall i :: 0 <= i < |LENGTH_NAME| ==> s[p + i] == line[i];
    }
  }

  lemma PassedOver(s: string, from: nat, line: nat)
    requires FindEnd(s, from) == line && line + 2 + |LENGTH_NAME| <= |s| && !NamedAt(s, line + 2)
    ensures ContentLength(s, from) == ContentLength(s, line + 2)
  {
  }

  lemma TakenUp(s: string, from: nat, line: nat)
    requires FindEnd(s, from) == line && NamedAt(s, line + 2)
    ensures ContentLength(s, from) == Number(s, SkipSpace(s, line + 2 + |LENGTH_NAME|), 0)
  {
  }

  lemma ModStep(v: nat, d: nat)
    ensures ((v % WORD) * 10 + d) % WORD == (v * 10 + d) % WORD
  {
    var q := v / WORD;
    assert v * 10 + d == WORD * (10 * q) + ((v % WORD) * 10 + d);
    ModWord(10 * q, (v % WORD) * 10 + d);
  }

  lemma ModWord(k: nat, x: nat)
    ensures (WORD * k + x) % WORD == x % WORD
  {
    var q := x / WORD;
    assert WORD * k + x == WORD * (k + q) + x % WORD;
  }

  lemma DigitRead(s: string, from: nat, v: nat)
    requires from < |s| && IsDigit(s[from])
    ensures Number(s, from, v % WORD) == Number(s, from + 1, (v * 10 + DigitValue(s[from])) % WORD)
  {
    ModStep(v, DigitValue(s[from]));
  }

  lemma {:induction false} ValueOfDigits(n: nat)
    ensures Value(Digits(n)) == n
  {
    var ds := Digits(n);
    if n < 10 {
      assert ds[..0] == "";
    } else {
      ValueOfDigits(n / 10);
      assert ds[..|ds| - 1] == Digits(n / 10);
    }
  }

  /** Reading digits leaves their value and the rest still to be read. */
  lemma {:induction false} DigitsRead(s: string, from: nat, ds: string)
    requires from + |ds| <= |s| && forall i :: 0 <= i < |ds| ==> IsDigit(ds[i]) && s[from + i] == ds[i]
    ensures Number(s, from, 0) == Number(s, from + |ds|, Value(ds) % WORD)
    decreases |ds|
  {
    if ds != "" {
      var last := |ds| - 1;
      DigitsRead(s, from, ds[..last]);
      assert s[from + last] == ds[last];
      DigitRead(s, from + last, Value(ds[..last]));
    }
  }

  lemma NumberRead(s: string, from: nat, ds: string)
    requires At(s, ds, from) && forall i :: 0 <= i < |ds| ==> IsDigit(ds[i])
    requires from + |ds| < |s| && !IsDigit(s[from + |ds|])
    ensures Number(s, from, 0) == Value(ds) % WORD
  {
    DigitsRead(s, from, ds);
  }

  lemma {:induction false} SpacesSkipped(s: string, from: nat, ws: string)
    requires At(s, ws, from) && forall i :: 0 <= i < |ws| ==> IsSpace(ws[i])
    requires from + |ws| < |s| && !IsSpace(s[from + |ws|])
    ensures SkipSpace(s, from) == from + |ws|
    decreases |ws|
  {
    if ws != "" {
      assert s[from + 0] == ws[0];
      forall i | 0 <= i < |ws| - 1
        ensures s[from + 1 + i] == ws[1..][i]
      {
        assert s[from + (i + 1)] == ws[i + 1];
      }
      SpacesSkipped(s, from + 1, ws[1..]);
    }
  }

  /** The parts of a length line stand where the line stands. */
  lemma PartsAt(s: string, p: nat, length: string, ws: string, ds: string, rest: string)
    requires LineAt(s, p, length) && |length| >= |LENGTH_NAME| && LengthParts(length[|LENGTH_NAME|..], ws, ds, rest)
    ensures var q := p + |LENGTH_NAME|;
            && At(s, ws, q) && At(s, ds, q + |ws|)
            && q + |ws| + |ds| < |s| && !IsDigit(s[q + |ws| + |ds|]) && !IsSpace(s[q + |ws|])
  {
    var q := p + |LENGTH_NAME|;
    TextAt(s, p, length);
    SplitAt(s, q, ws + ds, rest);
    SplitAt(s, q, ws, ds);
    if rest != "" {
      assert s[q + |ws| + |ds| + 0] == rest[0];
    } else {
      assert s[p + |length|] == '\r';
    }
    if ds != "" {
      assert s[q + |ws| + 0] == ds[0] && IsDigit(ds[0]);
    }
  }

  lemma TextAt(s: string, p: nat, length: string)
    requires LineAt(s, p, length) && |length| >= |LENGTH_NAME|
    ensures At(s, length[|LENGTH_NAME|..], p + |LENGTH_NAME|)
  {
    var name := |LENGTH_NAME|;
    forall i | 0 <= i < |length| - name
      ensures s[p + name + i] == length[name..][i]
    {
      assert s[p + (name + i)] == length[name + i];
    }
  }

  lemma SplitAt(s: string, p: nat, a: string, b: string)
    requires At(s, a + b, p)
    ensures At(s, a, p) && At(s, b, p + |a|)
  {
    assert forall i :: 0 <= i < |a| ==> (a + b)[i] == a[i];
    forall i | 0 <= i < |b|
      ensures s[p + |a| + i] == b[i]
    {
      assert s[p + (|a| + i)] == (a + b)[|a| + i];
    }
  }

  /** A length line gives its length to the search that reaches it. */
  lemma LengthLineRead(s: string, from: nat, p: nat, length: string, n: nat)
    requires p >= 2 && FindEnd(s, from) == p - 2 && LineAt(s, p, length) && IsLength(length, n)
    ensures ContentLength(s, from) == n
  {
    var q := p + |LENGTH_NAME|;
    NamedInLine(s, p, length);
    TakenUp(s, from, p - 2);
    var ws: string, ds: string, rest: string :|
      LengthParts(length[|LENGTH_NAME|..], ws, ds, rest) && n == Value(ds) % WORD;
    PartsAt(s, p, length, ws, ds, rest);
    SpacesSkipped(s, q, ws);
    NumberRead(s, q + |ws|, ds);
  }

  /** Between the first line and line `k` there is no length line. */
  ghost predicate NoneNamed(lines: seq<string>, k: nat) {
    k > 1 && |lines| > 1 ==> !NamedAt(lines[1], 0) && NoneNamed(lines[1..], k - 1)
  }

  lemma {:induction false} Reaches(s: string, p: nat, lines: seq<string>, k: nat)
    requires SectionAt(s, p, lines) && k < |lines|
    ensures p + |lines[k]| <= |s|
    decreases k
  {
    if k > 0 {
      Reaches(s, p + |lines[0]| + 2, lines[1..], k - 1);
    }
  }

  /** The search passes over the lines without the name and comes to line `k`. */
  lemma {:induction false} ComesTo(s: string, p: nat, lines: seq<string>, k: nat) returns (from: nat, q: nat)
    requires SectionAt(s, p, lines) && 0 < k < |lines| && AllPlain(lines)
    requires NoneNamed(lines, k) && |lines[k]| >= |LENGTH_NAME|
    ensures ContentLength(s, p) == ContentLength(s, from)
    ensures q >= 2 && FindEnd(s, from) == q - 2 && LineAt(s, q, lines[k])
    decreases k
  {
    q := p + |lines[0]| + 2;
    FindLineEnd(s, p, lines[0]);
    if k == 1 {
      from := p;
    } else {
      NamedInLine(s, q, lines[1]);
      Reaches(s, q, lines[1..], k - 1);
      PassedOver(s, p, q - 2);
      from, q := ComesTo(s, q, lines[1..], k - 1);
    }
  }

  lemma LongEnough(line: string, n: nat)
    requires IsLength(line, n)
    ensures |line| >= |LENGTH_NAME|
  {
  }

  /** Of the lines after the first, the first length line gives the length. */
  lemma LengthRead(s: string, p: nat, lines: seq<string>, k: nat, n: nat)
    requires SectionAt(s, p, lines) && 0 < k < |lines| && AllPlain(lines)
    requires NoneNamed(lines, k) && IsLength(lines[k], n)
    ensures ContentLength(s, p) == n
  {
    LongEnough(lines[k], n);
    var from, q := ComesTo(s, p, lines, k);
    LengthLineRead(s, from, q, lines[k], n);
  }

  /** A text without a line end has neither length nor lines. */
  lemma NoLineEnds(s: string)
    requires forall i: nat :: !EndAt(s, i)
    ensures ContentLength(s, 0) == 0 && HeaderLines(s) == []
  {
  }

  /** Without a length line among the lines after the first the length is zero. */
  lemma {:induction false} NoLengthRead(s: string, p: nat, lines: seq<string>)
    requires SectionAt(s, p, lines) && lines != [] && AllPlain(lines) && |s| == p + Size(lines)
    requires NoneNamed(lines, |lines|)
    ensures ContentLength(s, p) == 0
    decreases |lines|
  {
    var q := p + |lines[0]| + 2;
    FindLineEnd(s, p, lines[0]);
    if lines[1..] != [] && q + |LENGTH_NAME| <= |s| {
      NamedInLine(s, q, lines[1]);
      PassedOver(s, p, q - 2);
      NoLengthRead(s, q, lines[1..]);
    }
  }

  // ---------------------------------------------------------------------------
  // The status
  // ---------------------------------------------------------------------------

  ghost predicate NoSpace(s: string) {
    forall i :: 0 <= i < |s| ==> s[i] != ' '
  }

  /** The version, a space, three digits and the rest of the line. */
  function StatusLine(version: string, code: nat, reason: string): string
    requires code < 1000
  {
    version + " " + [Digit(code / 100), Digit(code / 10 % 10), Digit(code % 10)] + reason
  }

  lemma StatusAt(s: string, v: nat, a: nat, b: nat, c: nat)
    requires FindSpace(s, 0) == v && v + 3 < |s| && a < 10 && b < 10 && c < 10
    requires s[v + 1] == Digit(a) && s[v + 2] == Digit(b) && s[v + 3] == Digit(c)
    ensures StatusCode(s) == (a * 10 + b) * 10 + c
  {
  }

  lemma FirstSpace(s: string, v: nat)
    requires v < |s| && s[v] == ' ' && forall i :: 0 <= i < v ==> s[i] != ' '
    ensures FindSpace(s, 0) == v
  {
    FindSpaceIsFirst(s, 0, v);
  }

  /** For any text: the three digits behind the first space, and zero without them. */
  lemma StatusExactly(version: string, rest: string)
    requires NoSpace(version)
    ensures StatusCode(version) == 0
    ensures StatusCode(version + " " + rest) ==
            if |rest| >= 3 && (forall i :: 0 <= i < 3 ==> '0' <= rest[i] <= '9') then Value(rest[..3]) else 0
  {
    var s := version + " " + rest;
    var v := |version|;
    FirstSpace(s, v);
    assert s[v + 1..] == rest;
    assert |rest| >= 3 ==> s[v + 1] == rest[0] && s[v + 2] == rest[1] && s[v + 3] == rest[2];
    if |rest| >= 3 {
      ValueOfThree(rest[..3]);
    }
  }

  lemma ValueOfThree(ds: string)
    requires |ds| == 3
    ensures Value(ds) == (DigitValue(ds[0]) * 10 + DigitValue(ds[1])) * 10 + DigitValue(ds[2])
  {
    assert ds[..2][..1] == ds[..1] && ds[..1][..0] == "";
    assert Value(ds[..1]) == DigitValue(ds[0]);
    assert Value(ds[..2]) == Value(ds[..1]) * 10 + DigitValue(ds[1]);
  }

  lemma ThreeDigits(code: nat)
    requires code < 1000
    ensures ((code / 100) * 10 + code / 10 % 10) * 10 + code % 10 == code
  {
  }

  /** The first space stands behind the version, and the digits behind it. */
  lemma StatusParts(s: string, version: string, digits: string, reason: string)
    requires NoSpace(version) && At(s, version + " " + digits + reason, 0)
    ensures FindSpace(s, 0) == |version| && At(s, digits, |version| + 1)
  {
    var v := |version|;
    SplitAt(s, 0, version + " " + digits, reason);
    SplitAt(s, 0, version + " ", digits);
    SplitAt(s, 0, version, " ");
    assert s[0 + v + 0] == " "[0];
    forall i | 0 <= i < v
      ensures s[i] != ' '
    {
      assert s[0 + i] == version[i];
    }
    FirstSpace(s, v);
  }

  lemma StatusRead(version: string, code: nat, reason: string, s: string)
    requires code < 1000 && NoSpace(version) && At(s, StatusLine(version, code, reason), 0)
    ensures StatusCode(s) == code
  {
    var v := |version|;
    var digits := [Digit(code / 100), Digit(code / 10 % 10), Digit(code % 10)];
    StatusParts(s, version, digits, reason);
    assert s[v + 1 + 0] == digits[0] && s[v + 1 + 1] == digits[1] && s[v + 1 + 2] == digits[2];
    StatusAt(s, v, code / 100, code / 10 % 10, code % 10);
    ThreeDigits(code);
  }

  // ---------------------------------------------------------------------------
  // Reading back
  // ---------------------------------------------------------------------------

  /** The lines of a response: status line first, and at `k` the first length line; without
      one `k` is the number of lines, and the length zero. */
  ghost predicate WellFormed(lines: seq<string>, k: nat, version: string, code: nat, reason: string, n: nat) {
    && 0 < k <= |lines| && AllPlain(lines) && NoneNamed(lines, k)
    && (if k < |lines| then IsLength(lines[k], n) else n == 0)
    && code < 1000 && NoSpace(version) && lines[0] == StatusLine(version, code, reason)
  }

  /** What is read back of a response. */
  function ReadBack(lines: seq<string>, code: nat, body: string, o: Options): Outcome
    requires lines != []
  {
    Response(code, if o.storeHeaders then lines[1..] else [], if o.storeBody then body else "",
             if o.onChunk then body else "")
  }

  lemma WrittenMeans(lines: seq<string>, k: nat, version: string, code: nat, reason: string,
                     body: string, extra: string, o: Options)
    requires WellFormed(lines, k, version, code, reason, |body|)
    ensures var input := Section(lines) + body + extra;
            && BodyStart(input) == |Section(lines)| && ContentLength(input[..|Section(lines)|], 0) == |body|
            && Meaning(input, o) == ReadBack(lines, code, body, o)
  {
    var section := Section(lines);
    var input := section + body + extra;
    assert input[..|section|] == section;
    WrittenSection(input, 0, lines);
    BodyStartsAfterSection(lines, input);
    SectionMeans(lines, k, version, code, reason, |body|);
    assert input[|section|..|section| + |body|] == body;
  }

  /** A response whose first length line tells the length of its body, or that has neither
      length line nor body, is read back whole, whatever bytes follow the body, from every
      split of its bytes and for every way the buffer may grow, if and only if the body is
      not stored, or empty, or fits the capacity together with the header section. */
  lemma ResponseReadBack(lines: seq<string>, k: nat, version: string, code: nat, reason: string,
                         body: string, extra: string, capacity: nat, o: Options)
    requires WellFormed(lines, k, version, code, reason, |body|)
    requires |Section(lines)| <= HEADER_LIMIT + 1
    ensures (forall split: Split, growth: Growth ::
               Exchange(Section(lines) + body + extra, split, Memory(capacity, growth), o)
               == ReadBack(lines, code, body, o))
            <==> !o.storeBody || body == "" || |Section(lines)| + |body| <= capacity
  {
    var input := Section(lines) + body + extra;
    WrittenMeans(lines, k, version, code, reason, body, extra, o);
    SplitIndependentExactly(input, capacity, o);
    assert Fits(input, capacity, o) <==> !o.storeBody || body == "" || |Section(lines)| + |body| <= capacity;
  }

  lemma SectionMeans(lines: seq<string>, k: nat, version: string, code: nat, reason: string, n: nat)
    requires WellFormed(lines, k, version, code, reason, n)
    ensures StatusCode(Section(lines)) == code
    ensures HeaderLines(Section(lines)) == lines[1..]
    ensures ContentLength(Section(lines), 0) == n
  {
    var section := Section(lines);
    WrittenSection(section, 0, lines);
    StatusRead(version, code, reason, section);
    HeaderLinesRead(lines, section);
    if k < |lines| {
      LengthRead(section, 0, lines, k, n);
    } else {
      SectionSize(lines);
      NoLengthRead(section, 0, lines);
    }
  }

  /** A response without a body, such as one with status 204, is read back from every split
      and for every buffer, whatever bytes follow it. */
  lemma BodilessReadBack(lines: seq<string>, version: string, code: nat, reason: string, extra: string,
                         split: Split, m: Memory, o: Options)
    requires lines != [] && WellFormed(lines, |lines|, version, code, reason, 0)
    requires |Section(lines)| <= HEADER_LIMIT + 1
    ensures Exchange(Section(lines) + extra, split, m, o) == ReadBack(lines, code, "", o)
  {
    ResponseReadBack(lines, |lines|, version, code, reason, "", extra, m.capacity, o);
    assert Section(lines) + "" + extra == Section(lines) + extra;
    assert Memory(m.capacity, m.growth) == m;
  }

  /** A plain response: a section of 42 bytes and a body of 20000. */
  const PLAIN_LINES := ["HTTP/1.1 200 OK", "Content-Length: " + Digits(20000)]
  const PLAIN_BODY := seq(20000, _ => 'x')

  /** The usual way to write a length. */
  lemma UsualLength(n: nat)
    requires n < WORD
    ensures IsLength("Content-Length: " + Digits(n), n)
  {
    var line := "Content-Length: " + Digits(n);
    NamedUsually(Digits(n));
    ValueOfDigits(n);
    assert line[|LENGTH_NAME|..] == " " + Digits(n) + "";
    assert LengthParts(line[|LENGTH_NAME|..], " ", Digits(n), "");
  }

  lemma NamedUsually(ds: string)
    ensures NamedAt("Content-Length: " + ds, 0)
  {
    var name := "Content-Length: ";
    assert forall i :: 0 <= i < |name| ==> (name + ds)[i] == name[i];
  }

  lemma PlainLength()
    ensures PLAIN_LINES[1] == "Content-Length: 20000" && IsLength(PLAIN_LINES[1], 20000)
  {
    UsualLength(20000);
    PlainDigits();
  }

  lemma PlainDigits()
    ensures Digits(20000) == "20000"
  {
    assert Digits(2) == "2" && Digits(20) == "20";
    assert Digits(200) == "200" && Digits(2000) == "2000";
  }

  lemma PlainStatus()
    ensures StatusLine("HTTP/1.1", 200, " OK") == "HTTP/1.1 200 OK"
    ensures Plain("HTTP/1.1 200 OK") && NoSpace("HTTP/1.1")
  {
  }

  lemma PlainLengthLine()
    ensures Plain("Content-Length: 20000")
  {
  }

  lemma TwoLines(first: string, second: string, version: string, code: nat, reason: string, n: nat)
    requires Plain(first) && Plain(second) && IsLength(second, n)
    requires code < 1000 && NoSpace(version) && first == StatusLine(version, code, reason)
    ensures WellFormed([first, second], 1, version, code, reason, n)
    ensures |Section([first, second])| == |first| + |second| + 6
  {
    assert [first, second][1..] == [second] && [second][1..] == [];
    SectionSize([first, second]);
    assert AllPlain([second]);
    assert Size([second]) == |second| + 2 + Size([]);
  }

  lemma PlainIsWellFormed()
    ensures WellFormed(PLAIN_LINES, 1, "HTTP/1.1", 200, " OK", |PLAIN_BODY|)
    ensures |Section(PLAIN_LINES)| < 100
  {
    PlainLength();
    PlainStatus();
    PlainLengthLine();
    TwoLines("HTTP/1.1 200 OK", PLAIN_LINES[1], "HTTP/1.1", 200, " OK", 20000);
  }

  /** With a fresh buffer of 8192 bytes it is understood when it comes in one read, and
      parsed from a dangling view when it comes byte by byte. */
  lemma PlainResponseDangles(growth: Growth)
    ensures var input := Section(PLAIN_LINES) + PLAIN_BODY + "";
            var o := Options(false, true, true);
            && Exchange(input, AtOnce(), Memory(8192, growth), o) == ReadBack(PLAIN_LINES, 200, PLAIN_BODY, o)
            && Exchange(input, OneByOne(), Memory(8192, growth), o) == DanglingView
  {
    PlainIsWellFormed();
    var o := Options(false, true, true);
    WrittenMeans(PLAIN_LINES, 1, "HTTP/1.1", 200, " OK", PLAIN_BODY, "", o);
    OneReadOrMany(Section(PLAIN_LINES) + PLAIN_BODY + "", Memory(8192, growth), o);
  }
}
