/** The response does not depend on how its bytes are split into reads. */
module H1ResponseLaws {
  import opened H1Responses

  // ---------------------------------------------------------------------------
  // The header loop
  // ---------------------------------------------------------------------------

  /** Where the body of a response begins: after the first blank line.  -1 without one. */
  function BodyStart(input: string): int {
    var blank := FindBlank(input, 0);
    if blank < 0 then -1 else blank + 4
  }

  /** A blank line is found as soon as its last byte has arrived. */
  lemma FoundOnArrival(input: string, p: nat)
    requires p <= |input|
    ensures FindBlank(input[..p], 0) ==
              (if 0 <= BodyStart(input) <= p then BodyStart(input) - 4 else -1)
  {
    var whole := FindBlank(input, 0);
    var part := FindBlank(input[..p], 0);
    if whole >= 0 && whole + 4 <= p {
      FindBlankIsFirst(input[..p], 0, whole);
    }
    if part >= 0 {
      FindBlankIsFirst(input, 0, part);
    }
  }

  /** With the blank line within the limit every split finds it. */
  lemma {:induction false} HeadersFound(input: string, split: Split, growth: Growth, p: nat, capacity: nat)
    requires p <= |input| && p <= capacity && p < BodyStart(input) <= HEADER_LIMIT + 1
    ensures var r := ReadHeaders(input, split, growth, p, capacity); r.Headers? && r.end == BodyStart(input)
    decreases |input| - p
  {
    if p < |input| {
      var p' := p + ReadLength(split, p, READ_SIZE, |input| - p);
      FoundOnArrival(input, p');
      if p' < BodyStart(input) {
        HeadersFound(input, split, growth, p', Grown(growth, capacity, p'));
      }
    }
  }

  lemma BodyStartWithin(input: string)
    ensures BodyStart(input) <= |input|
    ensures BodyStart(input) == -1 || BodyStart(input) >= 4
  {
  }

  /** Without a blank line, or with one that no read can reach from within the limit, the
      loop fails the same way for every split. */
  lemma {:induction false} HeadersNeverFound(input: string, split: Split, growth: Growth, p: nat, capacity: nat)
    requires p <= |input| && p <= HEADER_LIMIT && p <= capacity
    requires BodyStart(input) == -1 || BodyStart(input) > HEADER_LIMIT + READ_SIZE
    ensures ReadHeaders(input, split, growth, p, capacity) ==
              (if |input| <= HEADER_LIMIT then HeadersClosed else HeadersTooLarge)
    decreases |input| - p
  {
    BodyStartWithin(input);
    if p < |input| {
      var p' := p + ReadLength(split, p, READ_SIZE, |input| - p);
      FoundOnArrival(input, p');
      if p' <= HEADER_LIMIT {
        HeadersNeverFound(input, split, growth, p', Grown(growth, capacity, p'));
      }
    }
  }

  // ---------------------------------------------------------------------------
  // The body loop
  // ---------------------------------------------------------------------------

  /** The chunks handed on are the body, and the view survives exactly if nothing has to
      be appended beyond the capacity. */
  lemma {:induction false} BodyRead(input: string, split: Split, p: nat, start: nat, end: nat, streamed: string,
                                    store: bool, capacity: nat, intact: bool)
    requires start <= p <= |input| && start <= end
    requires streamed == input[start..Min(p, end)]
    ensures var r := ReadBody(input, split, p, end, streamed, store, capacity, intact);
            if end > |input| then r.BodyClosed?
            else r.Body? && r.streamed == input[start..end]
                 && r.intact == (intact && (!store || end <= p || end <= capacity))
    decreases |input| - p
  {
    if p < end && p < |input| {
      var n := ReadLength(split, p, Min(READ_SIZE, end - p), |input| - p);
      assert input[start..p] + input[p..p + n] == input[start..p + n];
      BodyRead(input, split, p + n, start, end, streamed + input[p..p + n], store, capacity,
               intact && (!store || p + n <= capacity));
    }
  }

  // ---------------------------------------------------------------------------
  // What the bytes mean, and when the view is still good
  // ---------------------------------------------------------------------------

  /** The outcome for a header section that ends at `start` and announces `length` bytes. */
  function Framed(input: string, o: Options, start: nat, length: nat): Outcome
    requires start <= |input|
  {
    if start + length > |input| then ReadBodyFailed
    else Assemble(input[..start], input[start..start + length], input[start..start + length], o)
  }

  /** What a response is, as a function of its bytes alone: the status and header lines of
      the section before the first blank line, and as many bytes after it as the first
      Content-Length says. */
  function Meaning(input: string, o: Options): Outcome {
    var start := BodyStart(input);
    if start < 0 || start > |input| then (if |input| <= HEADER_LIMIT then ReadHeadersFailed else TooLarge)
    else Framed(input, o, start, ContentLength(input[..start], 0))
  }

  /** The view taken after `read` bytes, at some capacity, outlives the body loop. */
  predicate ViewOutlives(o: Options, end: nat, length: nat, read: nat, capacity: nat) {
    !o.storeBody || end + length <= read || end + length <= capacity
  }

  /** After the header section the outcome is settled, for every split of the body: the
      meaning of the bytes if the view is intact when it is parsed, and otherwise not. */
  lemma BodyMeans(input: string, split: Split, o: Options, start: nat, read: nat, length: nat, capacity: nat)
    requires start <= read <= |input|
    ensures AfterHeaders(input, split, o, start, read, length, capacity) ==
              (if start + length <= |input| && !ViewOutlives(o, start, length, read, capacity) then DanglingView
               else Framed(input, o, start, length))
  {
    BodyRead(input, split, read, start, start + length, FirstChunk(input, start, read, length),
             o.storeBody, capacity, true);
  }

  /** The view is intact when it is parsed, or never parsed because the body is cut off. */
  predicate ViewIntact(input: string, split: Split, m: Memory, o: Options) {
    var r := ReadHeaders(input, split, m.growth, 0, m.capacity);
    r.Headers? ==>
      var length := ContentLength(input[..r.end], 0);
      r.end + length > |input| || ViewOutlives(o, r.end, length, r.read, r.capacity)
  }

  /** Once the header section is found the outcome is settled. */
  lemma FoundMeans(input: string, split: Split, m: Memory, o: Options)
    requires var r := ReadHeaders(input, split, m.growth, 0, m.capacity); r.Headers? && r.end == BodyStart(input)
    ensures Exchange(input, split, m, o) ==
              (if ViewIntact(input, split, m, o) then Meaning(input, o) else DanglingView)
  {
    var r := ReadHeaders(input, split, m.growth, 0, m.capacity);
    BodyMeans(input, split, o, r.end, r.read, ContentLength(input[..r.end], 0), r.capacity);
  }

  /** For every response whose header section, blank line included, has at most 65537
      bytes, and for every input without a blank line, the outcome is the meaning of the
      bytes exactly if the view of the header section is intact when it is parsed. */
  lemma IntactMeansMeaning(input: string, split: Split, m: Memory, o: Options)
    requires BodyStart(input) <= HEADER_LIMIT + 1
    ensures Exchange(input, split, m, o) ==
              (if ViewIntact(input, split, m, o) then Meaning(input, o) else DanglingView)
  {
    BodyStartWithin(input);
    if BodyStart(input) == -1 {
      HeadersNeverFound(input, split, m.growth, 0, m.capacity);
    } else {
      HeadersFound(input, split, m.growth, 0, m.capacity);
      FoundMeans(input, split, m, o);
    }
  }

  // ---------------------------------------------------------------------------
  // Independence of the split
  // ---------------------------------------------------------------------------

  /** A caller's guarantee that no append beyond the capacity can follow the view: no body
      is stored or comes at all, or section and body fit the capacity at the outset. */
  predicate Fits(input: string, capacity: nat, o: Options) {
    var start := BodyStart(input);
    0 <= start <= |input| ==>
      var length := ContentLength(input[..start], 0);
      !o.storeBody || length == 0 || start + length > |input| || start + length <= capacity
  }

  /** Capacities only grow. */
  lemma {:induction false} CapacityKept(input: string, split: Split, growth: Growth, p: nat, capacity: nat)
    requires p <= |input| && p <= capacity
    ensures var r := ReadHeaders(input, split, growth, p, capacity); r.Headers? ==> r.capacity >= capacity
    decreases |input| - p
  {
    if p < |input| {
      var p' := p + ReadLength(split, p, READ_SIZE, |input| - p);
      if FindBlank(input[..p'], 0) < 0 && p' <= HEADER_LIMIT {
        CapacityKept(input, split, growth, p', Grown(growth, capacity, p'));
      }
    }
  }

  /** For header sections within the limit: if the response fits, its outcome is the
      meaning of its bytes however they are split and however the buffer grows. */
  lemma SplitIndependent(input: string, split: Split, m: Memory, o: Options)
    requires BodyStart(input) <= HEADER_LIMIT + 1 && Fits(input, m.capacity, o)
    ensures Exchange(input, split, m, o) == Meaning(input, o)
  {
    IntactMeansMeaning(input, split, m, o);
    CapacityKept(input, split, m.growth, 0, m.capacity);
    BodyStartWithin(input);
    if BodyStart(input) >= 0 {
      HeadersFound(input, split, m.growth, 0, m.capacity);
    } else {
      HeadersNeverFound(input, split, m.growth, 0, m.capacity);
    }
  }

  lemma {:induction false} GrownCapacity(input: string, split: Split, growth: Growth, p: nat, capacity: nat, want: nat)
    requires p <= |input| && p <= capacity && p < BodyStart(input) <= HEADER_LIMIT + 1
    requires capacity >= want || capacity < BodyStart(input)
    requires forall c: nat, n: nat :: growth(c, n) >= want
    ensures var r := ReadHeaders(input, split, growth, p, capacity); r.Headers? && r.capacity >= want
    decreases |input| - p
  {
    if p < |input| {
      var p' := p + ReadLength(split, p, READ_SIZE, |input| - p);
      FoundOnArrival(input, p');
      if p' < BodyStart(input) {
        GrownCapacity(input, split, growth, p', Grown(growth, capacity, p'), want);
      }
    }
  }

  /** A buffer that is too small for the header section, and grows to more than the whole
      response when it must, keeps the view for every split: the danger is in buffers that
      hold the section and not the body. */
  lemma GrownInTime(input: string, split: Split, m: Memory, o: Options)
    requires 0 <= BodyStart(input) <= HEADER_LIMIT + 1 && m.capacity < BodyStart(input) <= |input|
    requires forall c: nat, n: nat ::
               m.growth(c, n) >= BodyStart(input) + ContentLength(input[..BodyStart(input)], 0)
    ensures Exchange(input, split, m, o) == Meaning(input, o)
  {
    BodyStartWithin(input);
    IntactMeansMeaning(input, split, m, o);
    HeadersFound(input, split, m.growth, 0, m.capacity);
    GrownCapacity(input, split, m.growth, 0, m.capacity,
                  BodyStart(input) + ContentLength(input[..BodyStart(input)], 0));
  }

  // ---------------------------------------------------------------------------
  // Where independence ends
  // ---------------------------------------------------------------------------

  function OneByOne(): Split {
    (p: nat) => 1
  }

  /** As many bytes as a read takes. */
  function AtOnce(): Split {
    (p: nat) => READ_SIZE
  }

  /** A string that grows to just what it needs. */
  function Tight(): Growth {
    (capacity: nat, needed: nat) => needed
  }

  lemma {:induction false} OneByOneTooLarge(input: string, growth: Growth, p: nat, capacity: nat)
    requires p <= HEADER_LIMIT && p <= capacity && HEADER_LIMIT + 1 < BodyStart(input)
    ensures p <= |input| && ReadHeaders(input, OneByOne(), growth, p, capacity) == HeadersTooLarge
    decreases HEADER_LIMIT - p
  {
    BodyStartWithin(input);
    FoundOnArrival(input, p + 1);
    assert ReadLength(OneByOne(), p, READ_SIZE, |input| - p) == 1;
    if p < HEADER_LIMIT {
      OneByOneTooLarge(input, growth, p + 1, Grown(growth, capacity, p + 1));
    }
  }

  /** One byte at a time up to the limit, then as many as a read takes. */
  function LeapAtLimit(): Split {
    (p: nat) => if p < HEADER_LIMIT then 1 else READ_SIZE
  }

  lemma {:induction false} LeapFinds(input: string, growth: Growth, p: nat, capacity: nat)
    requires p <= HEADER_LIMIT && p <= capacity
    requires HEADER_LIMIT + 1 < BodyStart(input) <= HEADER_LIMIT + READ_SIZE
    ensures p <= |input| && ReadHeaders(input, LeapAtLimit(), growth, p, capacity).Headers?
    decreases HEADER_LIMIT - p
  {
    BodyStartWithin(input);
    var n := ReadLength(LeapAtLimit(), p, READ_SIZE, |input| - p);
    FoundOnArrival(input, p + n);
    if p < HEADER_LIMIT {
      assert n == 1;
      LeapFinds(input, growth, p + 1, Grown(growth, capacity, p + 1));
    }
  }

  ghost predicate LimitWavers(input: string, m: Memory, o: Options) {
    exists a: Split, b: Split :: Exchange(input, a, m, o) == TooLarge && Exchange(input, b, m, o) != TooLarge
  }

  lemma NeverTooLarge(input: string, split: Split, m: Memory, o: Options)
    requires 0 <= BodyStart(input) <= HEADER_LIMIT + 1
    ensures Exchange(input, split, m, o) != TooLarge
  {
    IntactMeansMeaning(input, split, m, o);
    BodyStartWithin(input);
  }

  /** Whether the headers count as too large depends on the split exactly for header
      sections, blank line included, of more than 65537 bytes and at most 98304. */
  lemma LimitWaversExactly(input: string, m: Memory, o: Options)
    ensures LimitWavers(input, m, o) <==> HEADER_LIMIT + 1 < BodyStart(input) <= HEADER_LIMIT + READ_SIZE
  {
    BodyStartWithin(input);
    if HEADER_LIMIT + 1 < BodyStart(input) <= HEADER_LIMIT + READ_SIZE {
      OneByOneTooLarge(input, m.growth, 0, m.capacity);
      LeapFinds(input, m.growth, 0, m.capacity);
      assert Exchange(input, OneByOne(), m, o) == TooLarge && Exchange(input, LeapAtLimit(), m, o) != TooLarge;
    } else {
      forall a: Split, b: Split
        ensures !(Exchange(input, a, m, o) == TooLarge && Exchange(input, b, m, o) != TooLarge)
      {
        if 0 <= BodyStart(input) <= HEADER_LIMIT + 1 {
          NeverTooLarge(input, a, m, o);
        } else {
          HeadersNeverFound(input, a, m.growth, 0, m.capacity);
          HeadersNeverFound(input, b, m.growth, 0, m.capacity);
        }
      }
    }
  }

  /** Byte by byte the section is found with nothing of the body read. */
  lemma {:induction false} OneByOneFinds(input: string, growth: Growth, p: nat, capacity: nat)
    requires p < BodyStart(input) <= HEADER_LIMIT + 1 && p <= capacity
    ensures p <= |input|
    ensures var r := ReadHeaders(input, OneByOne(), growth, p, capacity);
            && r.Headers? && r.end == r.read == BodyStart(input)
            && (BodyStart(input) <= capacity ==> r.capacity == capacity)
            && (growth == Tight() ==> r.capacity == Max(capacity, BodyStart(input)))
    decreases BodyStart(input) - p
  {
    BodyStartWithin(input);
    FoundOnArrival(input, p + 1);
    assert ReadLength(OneByOne(), p, READ_SIZE, |input| - p) == 1;
    if p + 1 < BodyStart(input) {
      OneByOneFinds(input, growth, p + 1, Grown(growth, capacity, p + 1));
    }
  }

  /** The same bytes, a small section and a body that the first read can hold but the
      buffer cannot: read at once they are understood, read byte by byte the view
      dangles. */
  lemma OneReadOrMany(input: string, m: Memory, o: Options)
    requires o.storeBody && 0 <= BodyStart(input) <= HEADER_LIMIT + 1 && BodyStart(input) <= m.capacity
    requires BodyStart(input) + ContentLength(input[..BodyStart(input)], 0) <= |input| <= READ_SIZE
    requires m.capacity < BodyStart(input) + ContentLength(input[..BodyStart(input)], 0)
    ensures Exchange(input, AtOnce(), m, o) == Meaning(input, o) != DanglingView
    ensures Exchange(input, OneByOne(), m, o) == DanglingView
  {
    BodyStartWithin(input);
    IntactMeansMeaning(input, OneByOne(), m, o);
    OneByOneFinds(input, m.growth, 0, m.capacity);
    IntactMeansMeaning(input, AtOnce(), m, o);
    FoundOnArrival(input, |input|);
    assert ReadLength(AtOnce(), 0, READ_SIZE, |input|) == |input|;
    assert ReadHeaders(input, AtOnce(), m.growth, 0, m.capacity).read == |input|;
  }

  /** The outcome that bytes have when it does not depend on the split. */
  function Settled(input: string, o: Options): Outcome {
    if BodyStart(input) > HEADER_LIMIT + READ_SIZE then TooLarge else Meaning(input, o)
  }

  ghost predicate AlwaysSettled(input: string, capacity: nat, o: Options) {
    forall split: Split, growth: Growth :: Exchange(input, split, Memory(capacity, growth), o) == Settled(input, o)
  }

  lemma SettledIfFit(input: string, split: Split, m: Memory, o: Options)
    requires BodyStart(input) > HEADER_LIMIT + READ_SIZE ||
             (BodyStart(input) <= HEADER_LIMIT + 1 && Fits(input, m.capacity, o))
    ensures Exchange(input, split, m, o) == Settled(input, o)
  {
    if BodyStart(input) > HEADER_LIMIT + READ_SIZE {
      BodyStartWithin(input);
      HeadersNeverFound(input, split, m.growth, 0, m.capacity);
    } else {
      SplitIndependent(input, split, m, o);
    }
  }

  lemma DanglesUnlessFit(input: string, capacity: nat, o: Options)
    requires BodyStart(input) <= HEADER_LIMIT + 1 && !Fits(input, capacity, o)
    ensures Exchange(input, OneByOne(), Memory(capacity, Tight()), o) == DanglingView != Settled(input, o)
  {
    BodyStartWithin(input);
    IntactMeansMeaning(input, OneByOne(), Memory(capacity, Tight()), o);
    OneByOneFinds(input, Tight(), 0, capacity);
  }

  /** For a buffer of a given capacity the outcome is the same for every split and every
      way the buffer may grow, if and only if the header section, blank line included, has
      more than 98304 bytes, or at most 65537 and the response fits. */
  lemma SplitIndependentExactly(input: string, capacity: nat, o: Options)
    ensures AlwaysSettled(input, capacity, o) <==>
              BodyStart(input) > HEADER_LIMIT + READ_SIZE ||
              (BodyStart(input) <= HEADER_LIMIT + 1 && Fits(input, capacity, o))
  {
    if BodyStart(input) > HEADER_LIMIT + READ_SIZE ||
       (BodyStart(input) <= HEADER_LIMIT + 1 && Fits(input, capacity, o)) {
      forall split: Split, growth: Growth
        ensures Exchange(input, split, Memory(capacity, growth), o) == Settled(input, o)
      {
        SettledIfFit(input, split, Memory(capacity, growth), o);
      }
    } else if BodyStart(input) <= HEADER_LIMIT + 1 {
      DanglesUnlessFit(input, capacity, o);
    } else {
      BodyStartWithin(input);
      OneByOneTooLarge(input, Tight(), 0, capacity);
      assert Exchange(input, OneByOne(), Memory(capacity, Tight()), o) == TooLarge != Settled(input, o);
    }
  }
}
