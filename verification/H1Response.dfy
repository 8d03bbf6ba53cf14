/** Reading an HTTP/1.1 response on the light path: bytes arrive in reads of any size. */
module H1Responses {
  import opened Ascii

  const READ_SIZE := 32768
  const HEADER_LIMIT := 65536
  const WORD := 0x1_0000_0000_0000_0000
  const CRLF := "\r\n"

  // ---------------------------------------------------------------------------
  // Searching
  // ---------------------------------------------------------------------------

  /** A line end, a carriage return and a line feed, at `i`. */
  predicate EndAt(s: string, i: nat) {
    i + 1 < |s| && s[i] == '\r' && s[i + 1] == '\n'
  }

  /** Two line ends in a row. */
  predicate BlankAt(s: string, i: nat) {
    EndAt(s, i) && EndAt(s, i + 2)
  }

  /** The first line end at or after `from`, or -1. */
  function FindEnd(s: string, from: nat): (i: int)
    ensures i == -1 || (from <= i && EndAt(s, i))
    decreases |s| - from
  {
    if from >= |s| then -1 else if EndAt(s, from) then from else FindEnd(s, from + 1)
  }

  /** The first blank line at or after `from`, or -1. */
  function FindBlank(s: string, from: nat): (i: int)
    ensures i == -1 || (from <= i && BlankAt(s, i))
    decreases |s| - from
  {
    if from >= |s| then -1 else if BlankAt(s, from) then from else FindBlank(s, from + 1)
  }

  function FindSpace(s: string, from: nat): (i: int)
    ensures i == -1 || (from <= i < |s| && s[i] == ' ')
    decreases |s| - from
  {
    if from >= |s| then -1 else if s[from] == ' ' then from else FindSpace(s, from + 1)
  }

  /** Nothing before what is found. */
  lemma {:induction false} FindEndIsFirst(s: string, from: nat, j: nat)
    requires from <= j && EndAt(s, j)
    ensures from <= FindEnd(s, from) <= j
    decreases |s| - from
  {
    if !EndAt(s, from) {
      FindEndIsFirst(s, from + 1, j);
    }
  }

  lemma {:induction false} FindBlankIsFirst(s: string, from: nat, j: nat)
    requires from <= j && BlankAt(s, j)
    ensures from <= FindBlank(s, from) <= j
    decreases |s| - from
  {
    if !BlankAt(s, from) {
      FindBlankIsFirst(s, from + 1, j);
    }
  }

  lemma {:induction false} FindSpaceIsFirst(s: string, from: nat, j: nat)
    requires from <= j < |s| && s[j] == ' '
    ensures from <= FindSpace(s, from) <= j
    decreases |s| - from
  {
    if s[from] != ' ' {
      FindSpaceIsFirst(s, from + 1, j);
    }
  }

  // ---------------------------------------------------------------------------
  // Parsing the header section
  // ---------------------------------------------------------------------------

  predicate IsDigit(c: char) {
    '0' <= c <= '9'
  }

  function DigitValue(c: char): nat {
    if IsDigit(c) then (c - '0') as nat else 0
  }

  predicate IsSpace(c: char) {
    c == ' ' || '\t' <= c <= '\r'
  }

  function StatusCode(headers: string): nat {
    var space := FindSpace(headers, 0);
    if space < 0 || space + 4 > |headers| then 0
    else if !(IsDigit(headers[space + 1]) && IsDigit(headers[space + 2]) && IsDigit(headers[space + 3])) then 0
    else (DigitValue(headers[space + 1]) * 10 + DigitValue(headers[space + 2])) * 10 + DigitValue(headers[space + 3])
  }

  /** A number read digit by digit into a 64-bit word. */
  function Number(s: string, from: nat, sum: nat): nat
    requires from <= |s|
    decreases |s| - from
  {
    if from < |s| && IsDigit(s[from]) then
      Number(s, from + 1, (sum * 10 + DigitValue(s[from])) % WORD)
    else sum
  }

  function SkipSpace(s: string, from: nat): (r: nat)
    requires from <= |s|
    ensures from <= r <= |s|
    decreases |s| - from
  {
    if from < |s| && IsSpace(s[from]) then SkipSpace(s, from + 1) else from
  }

  const LENGTH_NAME := "content-length:"

  predicate NamedAt(s: string, from: nat) {
    from + |LENGTH_NAME| <= |s| &&
    forall i :: 0 <= i < |LENGTH_NAME| ==> LowerChar(s[from + i]) == LENGTH_NAME[i]
  }

  /** The first Content-Length among the lines that begin after `from`; zero without one. */
  function ContentLength(headers: string, from: nat): nat
    decreases |headers| - from
  {
    var line := FindEnd(headers, from);
    if line < 0 then 0
    else
      var start := line + 2;
      if start + |LENGTH_NAME| > |headers| then 0
      else if NamedAt(headers, start) then Number(headers, SkipSpace(headers, start + |LENGTH_NAME|), 0)
      else ContentLength(headers, start)
  }

  /** The lines from `start` up to an empty or an unfinished one. */
  function Lines(headers: string, start: nat): seq<string>
    decreases |headers| - start
  {
    if start >= |headers| then []
    else
      var end := FindEnd(headers, start);
      if end < 0 || end == start then [] else [headers[start..end]] + Lines(headers, end + 2)
  }

  function HeaderLines(headers: string): seq<string> {
    var first := FindEnd(headers, 0);
    if first < 0 then [] else Lines(headers, first + 2)
  }

  // ---------------------------------------------------------------------------
  // Reading
  // ---------------------------------------------------------------------------

  /** split(p) is the size the network chooses for the read that begins at byte p. */
  type Split = nat -> nat

  function ReadLength(split: Split, p: nat, wanted: nat, available: nat): (n: nat)
    requires wanted > 0 && available > 0
    ensures 1 <= n <= wanted && n <= available
  {
    var n := if split(p) == 0 then 1 else split(p);
    var n' := if n > wanted then wanted else n;
    if n' > available then available else n'
  }

  /** The capacity a string takes on when it must hold `needed` bytes and has `capacity`. */
  type Growth = (nat, nat) -> nat

  /** The read buffer of a connection as an exchange finds it: cleared, with its capacity
      kept.  Appending within the capacity leaves the bytes where they are; appending
      beyond it moves them. */
  datatype Memory = Memory(capacity: nat, growth: Growth)

  function Max(a: nat, b: nat): nat {
    if a < b then b else a
  }

  function Grown(growth: Growth, capacity: nat, size: nat): nat {
    if size <= capacity then capacity else Max(size, growth(capacity, size))
  }

  /** `end` is where the body begins, `read` how many bytes have been read, and `capacity`
      that of the buffer when the view of the header section is taken. */
  datatype HeaderResult = Headers(end: nat, read: nat, capacity: nat) | HeadersClosed | HeadersTooLarge

  /** The header loop after `p` bytes. */
  function ReadHeaders(input: string, split: Split, growth: Growth, p: nat, capacity: nat): (r: HeaderResult)
    requires p <= |input| && p <= capacity
    ensures r.Headers? ==> r.end <= r.read <= |input| && r.read <= r.capacity
    decreases |input| - p
  {
    if p == |input| then HeadersClosed
    else
      var p' := p + ReadLength(split, p, READ_SIZE, |input| - p);
      var capacity' := Grown(growth, capacity, p');
      var blank := FindBlank(input[..p'], 0);
      if blank >= 0 then Headers(blank + 4, p', capacity')
      else if p' > HEADER_LIMIT then HeadersTooLarge
      else ReadHeaders(input, split, growth, p', capacity')
  }

  /** `streamed` is what the chunk handler has received, chunk after chunk, and `intact`
      whether the view of the header section still points into the buffer. */
  datatype BodyResult = Body(read: nat, streamed: string, intact: bool) | BodyClosed

  function Min(a: nat, b: nat): nat {
    if a < b then a else b
  }

  /** The body loop after `p` bytes, up to byte `end`.  Only a body that is stored is
      appended to the buffer. */
  function ReadBody(input: string, split: Split, p: nat, end: nat, streamed: string,
                    store: bool, capacity: nat, intact: bool): (r: BodyResult)
    requires p <= |input|
    ensures r.Body? ==> end <= r.read <= |input|
    decreases |input| - p
  {
    if p >= end then Body(p, streamed, intact)
    else if p == |input| then BodyClosed
    else
      var n := ReadLength(split, p, Min(READ_SIZE, end - p), |input| - p);
      ReadBody(input, split, p + n, end, streamed + input[p..p + n], store, capacity,
               intact && (!store || p + n <= capacity))
  }

  datatype Options = Options(onChunk: bool, storeHeaders: bool, storeBody: bool)

  /** What the caller sees; `streamed` is what its chunk handler received in all.  With a
      dangling view, status and headers are read from memory that the buffer has left. */
  datatype Outcome =
    | Response(status: nat, headers: seq<string>, body: string, streamed: string)
    | DanglingView
    | ReadHeadersFailed
    | TooLarge
    | ReadBodyFailed

  /** The part of the body that arrived with the header section. */
  function FirstChunk(input: string, end: nat, read: nat, length: nat): string
    requires end <= read <= |input|
  {
    input[end..end + Min(read - end, length)]
  }

  function Assemble(headers: string, body: string, streamed: string, o: Options): Outcome {
    Response(StatusCode(headers),
             if o.storeHeaders then HeaderLines(headers) else [],
             if o.storeBody then body else "",
             if o.onChunk then streamed else "")
  }

  /** The rest of the exchange once `read` bytes hold a header section that ends at `end`
      and announces a body of `length` bytes. */
  function AfterHeaders(input: string, split: Split, o: Options, end: nat, read: nat, length: nat,
                        capacity: nat): Outcome
    requires end <= read <= |input|
  {
    match ReadBody(input, split, read, end + length, FirstChunk(input, end, read, length), o.storeBody, capacity, true)
    case BodyClosed => ReadBodyFailed
    case Body(_, streamed, intact) =>
      if intact then Assemble(input[..end], input[end..end + length], streamed, o) else DanglingView
  }

  function Exchange(input: string, split: Split, m: Memory, o: Options): Outcome {
    match ReadHeaders(input, split, m.growth, 0, m.capacity)
    case HeadersClosed => ReadHeadersFailed
    case HeadersTooLarge => TooLarge
    case Headers(end, read, capacity) =>
      AfterHeaders(input, split, o, end, read, ContentLength(input[..end], 0), capacity)
  }

  // ---------------------------------------------------------------------------
  // The loops
  // ---------------------------------------------------------------------------

  /** Reads until the blank line is in the buffer. */
  method FillHeaders(input: string, split: Split, m: Memory) returns (r: HeaderResult, readBuf: string)
    ensures r == ReadHeaders(input, split, m.growth, 0, m.capacity)
    ensures r.Headers? ==> readBuf == input[..r.read]
  {
    readBuf := "";
    var p, capacity := 0, m.capacity;
    while p < |input|
      invariant 0 <= p <= |input| && p <= capacity && readBuf == input[..p]
      invariant ReadHeaders(input, split, m.growth, p, capacity) == ReadHeaders(input, split, m.growth, 0, m.capacity)
    {
      var n := ReadLength(split, p, READ_SIZE, |input| - p);
      readBuf := readBuf + input[p..p + n];
      assert readBuf == input[..p + n];
      p := p + n;
      capacity := Grown(m.growth, capacity, p);
      var headerEnd := FindBlank(readBuf, 0);
      if headerEnd >= 0 {
        return Headers(headerEnd + 4, p, capacity), readBuf;
      }
      if |readBuf| > HEADER_LIMIT {
        return HeadersTooLarge, readBuf;
      }
    }
    r := HeadersClosed;
  }

  /** Reads the rest of the body; the buffer grows only if the body is to be stored. */
  method FillBody(input: string, split: Split, read: nat, end: nat, first: string, buffer: string,
                  store: bool, capacity: nat)
    returns (r: BodyResult, readBuf: string)
    requires read <= |input| && buffer == input[..read]
    ensures r == ReadBody(input, split, read, end, first, store, capacity, true)
    ensures r.Body? && store ==> readBuf == input[..r.read]
  {
    var p, streamed, intact := read, first, true;
    readBuf := buffer;
    while p < end
      invariant read <= p <= |input|
      invariant store ==> readBuf == input[..p]
      invariant ReadBody(input, split, p, end, streamed, store, capacity, intact)
             == ReadBody(input, split, read, end, first, store, capacity, true)
      decreases |input| - p
    {
      if p == |input| {
        return BodyClosed, readBuf;
      }
      var n := ReadLength(split, p, Min(READ_SIZE, end - p), |input| - p);
      var piece := input[p..p + n];
      if store {
        readBuf := readBuf + piece;
        assert readBuf == input[..p + n];
        intact := intact && |readBuf| <= capacity;
      }
      streamed := streamed + piece;
      p := p + n;
    }
    r := Body(p, streamed, intact);
  }

  /** The source's loops over the read buffer, after the header section. */
  method RunBody(input: string, split: Split, o: Options, start: nat, read: nat, length: nat, capacity: nat,
                 buffer: string)
    returns (out: Outcome)
    requires start <= read <= |input| && buffer == input[..read]
    ensures out == AfterHeaders(input, split, o, start, read, length, capacity)
  {
    var have := |buffer| - start;
    var first := buffer[start..start + Min(have, length)];
    assert first == FirstChunk(input, start, read, length);
    var r, readBuf := FillBody(input, split, read, start + length, first, buffer, o.storeBody, capacity);
    if r.BodyClosed? {
      return ReadBodyFailed;
    }
    if !r.intact {
      return DanglingView;
    }
    var body := "";
    if o.storeBody && length > 0 {
      body := readBuf[start..start + length];
    }
    assert o.storeBody ==> body == input[start..start + length];
    assert buffer[..start] == input[..start];
    return Assemble(buffer[..start], body, r.streamed, o);
  }

  method RunExchange(input: string, split: Split, m: Memory, o: Options) returns (out: Outcome)
    ensures out == Exchange(input, split, m, o)
  {
    var r, buffer := FillHeaders(input, split, m);
    match r {
      case HeadersClosed => return ReadHeadersFailed;
      case HeadersTooLarge => return TooLarge;
      case Headers(start, read, capacity) =>
        assert buffer[..start] == input[..start];
        out := RunBody(input, split, o, start, read, ContentLength(buffer[..start], 0), capacity, buffer);
    }
  }
}
