/** The chunked transfer coding (section 7.1 of RFC 9112) as the proxy tunnel decodes it
    (backend/capabilities/proxyFetch.ts, lines 439-480). */
module ChunkedBody {
  import opened Options

  /** No bound on a byte is ever needed: only the low seven bits of a size line count. */
  type Byte = int

  const CR: Byte := 13
  const LF: Byte := 10
  const COLON: Byte := 58
  const SEMICOLON: Byte := 59
  const CRLF: seq<Byte> := [CR, LF]
  const MAX_SAFE_INTEGER: nat := 0x1F_FFFF_FFFF_FFFF

  datatype Fault = InvalidSizeLine | UnsafeSize | InvalidTrailer | MissingCrlf

  /** What stands at the front of the buffer. */
  datatype Step = NeedMore | Broken(fault: Fault) | Chunk(payload: seq<Byte>, rest: seq<Byte>) | End(rest: seq<Byte>)

  datatype Decoded = Failed(fault: Fault) | Decoded(chunks: seq<seq<Byte>>, remaining: seq<Byte>, done: bool)

  // ----- lines

  function FindCrlf(data: seq<Byte>): (r: Option<nat>)
    ensures r.Some? ==> r.value + 2 <= |data| && data[r.value] == CR && data[r.value + 1] == LF
    ensures forall i: nat | i + 2 <= |data| && (r.Some? ==> i < r.value) :: !(data[i] == CR && data[i + 1] == LF)
  {
    if |data| < 2 then None
    else if data[0] == CR && data[1] == LF then Some(0)
    else
      var later := FindCrlf(data[1..]);
      if later.Some? then Some(later.value + 1) else None
  }

  /** A CRLF is found at e when one is there and none before. */
  lemma FoundAt(data: seq<Byte>, e: nat)
    requires e + 2 <= |data| && data[e] == CR && data[e + 1] == LF
    requires forall i: nat | i < e :: !(data[i] == CR && data[i + 1] == LF)
    ensures FindCrlf(data) == Some(e)
  {
    var found := FindCrlf(data);
    assert found.Some? ==> data[found.value] == CR && data[found.value + 1] == LF;
  }

  lemma NoneFound(data: seq<Byte>)
    requires forall i: nat | i + 2 <= |data| :: !(data[i] == CR && data[i + 1] == LF)
    ensures FindCrlf(data) == None
  {
    var found := FindCrlf(data);
  }

  lemma FoundStays(data: seq<Byte>, more: seq<Byte>)
    requires FindCrlf(data).Some?
    ensures FindCrlf(data + more) == FindCrlf(data)
  {
    var e := FindCrlf(data).value;
    forall i: nat | i < e ensures !((data + more)[i] == CR && (data + more)[i + 1] == LF) {
      assert (data + more)[i] == data[i] && (data + more)[i + 1] == data[i + 1];
    }
    FoundAt(data + more, e);
  }

  // ----- the size line

  /** Decoding as ASCII drops the high bit. */
  function Ascii(line: seq<Byte>): seq<Byte> {
    seq(|line|, i requires 0 <= i < |line| => line[i] % 128)
  }

  function BeforeSemicolon(line: seq<Byte>): seq<Byte> {
    if line == [] || line[0] == SEMICOLON then [] else [line[0]] + BeforeSemicolon(line[1..])
  }

  predicate IsSpace(b: Byte) {
    9 <= b <= 13 || b == 32
  }

  function Trim(line: seq<Byte>): seq<Byte> {
    if line == [] then []
    else if IsSpace(line[0]) then Trim(line[1..])
    else if IsSpace(line[|line| - 1]) then Trim(line[..|line| - 1])
    else line
  }

  predicate IsHexDigit(b: Byte) {
    48 <= b <= 57 || 65 <= b <= 70 || 97 <= b <= 102
  }

  function DigitValue(b: Byte): nat
    requires IsHexDigit(b)
  {
    if b <= 57 then b - 48 else if b <= 70 then b - 55 else b - 87
  }

  predicate AllHex(token: seq<Byte>) {
    forall i | 0 <= i < |token| :: IsHexDigit(token[i])
  }

  function HexValue(token: seq<Byte>): nat
    requires AllHex(token)
  {
    if token == [] then 0 else 16 * HexValue(token[..|token| - 1]) + DigitValue(token[|token| - 1])
  }

  datatype Size = Size(value: nat) | NoSize(fault: Fault)

  function ChunkSize(line: seq<Byte>): Size {
    var token := Trim(BeforeSemicolon(Ascii(line)));
    if token == [] || !AllHex(token) then NoSize(InvalidSizeLine)
    else if HexValue(token) > MAX_SAFE_INTEGER then NoSize(UnsafeSize)
    else Size(HexValue(token))
  }

  // ----- one step, and all of them

  function Trailers(data: seq<Byte>): (step: Step)
    ensures !step.Chunk?
    decreases |data|
  {
    var e := FindCrlf(data);
    if e == None then NeedMore
    else if e.value == 0 then End(data[2..])
    else if COLON !in data[..e.value] then Broken(InvalidTrailer)
    else Trailers(data[e.value + 2..])
  }

  function StepOf(data: seq<Byte>): (step: Step)
    ensures step.Chunk? ==> 0 < |step.payload| && |step.rest| < |data|
  {
    var e := FindCrlf(data);
    if e == None then NeedMore
    else
      var size, body := ChunkSize(data[..e.value]), data[e.value + 2..];
      if size.NoSize? then Broken(size.fault)
      else if size.value == 0 then Trailers(body)
      else if |body| < size.value + 2 then NeedMore
      else if body[size.value] != CR || body[size.value + 1] != LF then Broken(MissingCrlf)
      else Chunk(body[..size.value], body[size.value + 2..])
  }

  function Prepended(chunks: seq<seq<Byte>>, decoded: Decoded): Decoded {
    if decoded.Failed? then decoded else decoded.(chunks := chunks + decoded.chunks)
  }

  function Decode(data: seq<Byte>): Decoded
    decreases |data|
  {
    match StepOf(data)
    case NeedMore => Decoded([], data, false)
    case Broken(fault) => Failed(fault)
    case End(rest) => Decoded([], rest, true)
    case Chunk(payload, rest) => Prepended([payload], Decode(rest))
  }

  // ----- a decided step stays decided

  function More(step: Step, more: seq<Byte>): Step {
    match step
    case Chunk(payload, rest) => Chunk(payload, rest + more)
    case End(rest) => End(rest + more)
    case _ => step
  }

  lemma CutLine(data: seq<Byte>, more: seq<Byte>, e: nat)
    requires e + 2 <= |data|
    ensures (data + more)[..e] == data[..e] && (data + more)[e + 2..] == data[e + 2..] + more
  {}

  lemma {:induction false} TrailersStay(data: seq<Byte>, more: seq<Byte>)
    requires Trailers(data) != NeedMore
    ensures Trailers(data + more) == More(Trailers(data), more)
    decreases |data|
  {
    FoundStays(data, more);
    var e := FindCrlf(data).value;
    CutLine(data, more, e);
    if e > 0 && COLON in data[..e] { TrailersStay(data[e + 2..], more); }
  }

  lemma StepStays(data: seq<Byte>, more: seq<Byte>)
    requires StepOf(data) != NeedMore
    ensures StepOf(data + more) == More(StepOf(data), more)
  {
    hide FindCrlf, ChunkSize, Trailers;
    FoundStays(data, more);
    var e := FindCrlf(data).value;
    CutLine(data, more, e);
    var size, body := ChunkSize(data[..e]), data[e + 2..];
    if size.Size? && size.value == 0 {
      TrailersStay(body, more);
    } else if size.Size? {
      PayloadStays(body, more, size.value);
    }
  }

  lemma PayloadStays(body: seq<Byte>, more: seq<Byte>, n: nat)
    requires n + 2 <= |body|
    ensures (body + more)[n] == body[n] && (body + more)[n + 1] == body[n + 1]
    ensures (body + more)[..n] == body[..n] && (body + more)[n + 2..] == body[n + 2..] + more
  {}

  lemma Reprepend(a: seq<seq<Byte>>, b: seq<seq<Byte>>, decoded: Decoded)
    ensures Prepended(a, Prepended(b, decoded)) == Prepended(a + b, decoded)
  {
    if decoded.Decoded? { assert a + (b + decoded.chunks) == (a + b) + decoded.chunks; }
  }

  /** Decoding what came first, then what was left over with what came next, is decoding it all. */
  lemma {:induction false} DecodeInTwo(data: seq<Byte>, more: seq<Byte>)
    ensures var first := Decode(data);
      Decode(data + more) ==
        if first.Failed? then first
        else if first.done then first.(remaining := first.remaining + more)
        else Prepended(first.chunks, Decode(first.remaining + more))
    decreases |data|
  {
    var step := StepOf(data);
    if step.NeedMore? {
      Nothing(Decode(data + more));
    } else {
      StepStays(data, more);
      if step.Chunk? {
        DecodeInTwo(step.rest, more);
        hide StepOf;
        var later := Decode(step.rest);
        assert Decode(data + more) == Prepended([step.payload], Decode(step.rest + more));
        hide Decode;
        if later.Decoded? && !later.done {
          Reprepend([step.payload], later.chunks, Decode(later.remaining + more));
        }
      }
    }
  }

  lemma Nothing(decoded: Decoded)
    ensures Prepended([], decoded) == decoded
  {
    if decoded.Decoded? { assert [] + decoded.chunks == decoded.chunks; }
  }

  // ----- the coding

  /** One coded chunk: its size line as it stands on the wire, and its payload. */
  datatype Coded = Coded(line: seq<Byte>, payload: seq<Byte>)
  datatype Body = Body(chunks: seq<Coded>, lastLine: seq<Byte>, trailers: seq<seq<Byte>>)

  ghost predicate IsCoded(c: Coded) {
    c.payload != [] && FindCrlf(c.line) == None && ChunkSize(c.line) == Size(|c.payload|)
  }

  ghost predicate IsTrailer(line: seq<Byte>) {
    line != [] && FindCrlf(line) == None && COLON in line
  }

  /** Section 7.1 of RFC 9112, with any spelling of the sizes that the decoder reads. */
  ghost predicate IsBody(body: Body) {
    && (forall i | 0 <= i < |body.chunks| :: IsCoded(body.chunks[i]))
    && FindCrlf(body.lastLine) == None && ChunkSize(body.lastLine) == Size(0)
    && (forall i | 0 <= i < |body.trailers| :: IsTrailer(body.trailers[i]))
  }

  function EncodeTrailers(trailers: seq<seq<Byte>>): seq<Byte> {
    if trailers == [] then CRLF else trailers[0] + (CRLF + EncodeTrailers(trailers[1..]))
  }

  function Encode(body: Body): seq<Byte>
    decreases |body.chunks|
  {
    if body.chunks == [] then body.lastLine + (CRLF + EncodeTrailers(body.trailers))
    else
      var c := body.chunks[0];
      c.line + (CRLF + (c.payload + (CRLF + Encode(body.(chunks := body.chunks[1..])))))
  }

  function Payloads(chunks: seq<Coded>): seq<seq<Byte>> {
    if chunks == [] then [] else [chunks[0].payload] + Payloads(chunks[1..])
  }

  lemma JoinLine(line: seq<Byte>, after: seq<Byte>)
    ensures var data := line + (CRLF + after);
      && |data| == |line| + 2 + |after| && data[|line|] == CR && data[|line| + 1] == LF
      && data[..|line|] == line && data[|line| + 2..] == after
      && forall i: nat | i < |line| :: data[i] == line[i]
  {}

  /** A line, its CRLF, and anything after: the line is found. */
  lemma LineIsFound(line: seq<Byte>, after: seq<Byte>)
    requires FindCrlf(line) == None
    ensures var data := line + (CRLF + after);
      FindCrlf(data) == Some(|line|) && data[..|line|] == line && data[|line| + 2..] == after
  {
    JoinLine(line, after);
    NoCrlfBefore(line, line + (CRLF + after));
    FoundAt(line + (CRLF + after), |line|);
  }

  lemma NoCrlfBefore(line: seq<Byte>, data: seq<Byte>)
    requires FindCrlf(line) == None && |line| + 2 <= |data|
    requires data[|line|] == CR && forall i: nat | i < |line| :: data[i] == line[i]
    ensures forall i: nat | i < |line| :: !(data[i] == CR && data[i + 1] == LF)
  {
    forall i: nat | i < |line| ensures !(data[i] == CR && data[i + 1] == LF) {
      assert i + 1 < |line| ==> !(line[i] == CR && line[i + 1] == LF);
    }
  }

  lemma {:induction false} TrailersRoundTrip(trailers: seq<seq<Byte>>, more: seq<Byte>)
    requires forall i | 0 <= i < |trailers| :: IsTrailer(trailers[i])
    ensures Trailers(EncodeTrailers(trailers) + more) == End(more)
  {
    if trailers == [] {
      LineIsFound([], more);
      assert [] + (CRLF + more) == CRLF + more;
    } else {
      var after := EncodeTrailers(trailers[1..]);
      TrailersRoundTrip(trailers[1..], more);
      assert IsTrailer(trailers[0]);
      LineIsFound(trailers[0], after + more);
      Regroup(trailers[0], CRLF, after, more);
    }
  }

  lemma Regroup(a: seq<Byte>, b: seq<Byte>, c: seq<Byte>, d: seq<Byte>)
    ensures a + (b + c) + d == a + (b + (c + d))
  {}

  lemma EncodedChunk(c: Coded, after: seq<Byte>, more: seq<Byte>)
    ensures c.line + (CRLF + (c.payload + (CRLF + after))) + more == c.line + (CRLF + (c.payload + (CRLF + (after + more))))
  {
    Regroup(c.line, CRLF, c.payload + (CRLF + after), more);
    Regroup(c.payload, CRLF, after, more);
  }

  lemma DecodesStep(data: seq<Byte>)
    ensures StepOf(data).Chunk? ==> Decode(data) == Prepended([StepOf(data).payload], Decode(StepOf(data).rest))
    ensures StepOf(data).End? ==> Decode(data) == Decoded([], StepOf(data).rest, true)
  {}

  lemma LastIsStep(line: seq<Byte>, trailers: seq<seq<Byte>>, more: seq<Byte>)
    requires FindCrlf(line) == None && ChunkSize(line) == Size(0)
    requires forall i | 0 <= i < |trailers| :: IsTrailer(trailers[i])
    ensures StepOf(line + (CRLF + EncodeTrailers(trailers)) + more) == End(more)
  {
    TrailersRoundTrip(trailers, more);
    LineIsFound(line, EncodeTrailers(trailers) + more);
    hide FindCrlf, ChunkSize;
    Regroup(line, CRLF, EncodeTrailers(trailers), more);
  }

  /** The decoder takes back exactly what the coding put in, and stops exactly where the coding ends. */
  lemma {:induction false} RoundTrip(body: Body, more: seq<Byte>)
    requires IsBody(body)
    ensures Decode(Encode(body) + more) == Decoded(Payloads(body.chunks), more, true)
    decreases |body.chunks|
  {
    hide StepOf, Decode, FindCrlf, ChunkSize, IsCoded, IsTrailer;
    DecodesStep(Encode(body) + more);
    if body.chunks == [] {
      LastIsStep(body.lastLine, body.trailers, more);
    } else {
      var c, rest := body.chunks[0], body.(chunks := body.chunks[1..]);
      assert IsCoded(c);
      RoundTrip(rest, more);
      EncodedChunk(c, Encode(rest), more);
      ChunkIsStep(c, Encode(rest) + more);
    }
  }

  /** The definition of StepOf when the line, the payload and what follows are known. */
  lemma StepIs(data: seq<Byte>, line: seq<Byte>, payload: seq<Byte>, rest: seq<Byte>)
    requires FindCrlf(data) == Some(|line|) && data[..|line|] == line && payload != [] && ChunkSize(line) == Size(|payload|)
    requires var body, n := data[|line| + 2..], |payload|;
      n + 2 <= |body| && body[n] == CR && body[n + 1] == LF && body[..n] == payload && body[n + 2..] == rest
    ensures StepOf(data) == Chunk(payload, rest)
  {
    hide FindCrlf, ChunkSize;
  }

  lemma ChunkIsStep(c: Coded, after: seq<Byte>)
    requires IsCoded(c)
    ensures StepOf(c.line + (CRLF + (c.payload + (CRLF + after)))) == Chunk(c.payload, after)
  {
    hide StepOf, FindCrlf, ChunkSize;
    LineIsFound(c.line, c.payload + (CRLF + after));
    JoinLine(c.payload, after);
    StepIs(c.line + (CRLF + (c.payload + (CRLF + after))), c.line, c.payload, after);
  }

  lemma LineIsCut(data: seq<Byte>, e: nat)
    requires FindCrlf(data) == Some(e)
    ensures FindCrlf(data[..e]) == None && data == data[..e] + (CRLF + data[e + 2..])
  {
    var line := data[..e];
    forall i: nat | i + 2 <= e ensures !(line[i] == CR && line[i + 1] == LF) {
      assert line[i] == data[i] && line[i + 1] == data[i + 1];
    }
    NoneFound(line);
    assert CRLF + data[e + 2..] == data[e..];
  }

  lemma {:induction false} TrailersAreCoded(data: seq<Byte>) returns (trailers: seq<seq<Byte>>)
    requires Trailers(data).End?
    ensures forall i | 0 <= i < |trailers| :: IsTrailer(trailers[i])
    ensures data == EncodeTrailers(trailers) + Trailers(data).rest
    decreases |data|
  {
    TrailersFacts(data);
    var e := FindCrlf(data).value;
    LineIsCut(data, e);
    hide FindCrlf, Trailers, IsTrailer, EncodeTrailers;
    if e == 0 {
      trailers := [];
      NoTrailers(data);
    } else {
      var later := TrailersAreCoded(data[e + 2..]);
      trailers := [data[..e]] + later;
      TrailerBefore(data[..e], later, Trailers(data).rest);
    }
  }

  lemma NoTrailers(data: seq<Byte>)
    requires FindCrlf(data) == Some(0)
    ensures data == EncodeTrailers([]) + data[2..]
  {}

  lemma TrailerBefore(line: seq<Byte>, later: seq<seq<Byte>>, rest: seq<Byte>)
    ensures line + (CRLF + (EncodeTrailers(later) + rest)) == EncodeTrailers([line] + later) + rest
  {
    assert ([line] + later)[1..] == later;
    Regroup(line, CRLF, EncodeTrailers(later), rest);
  }

  /** The definition of Trailers, read off a complete one. */
  lemma TrailersFacts(data: seq<Byte>)
    requires Trailers(data).End?
    ensures FindCrlf(data).Some?
    ensures var e := FindCrlf(data).value;
      if e == 0 then Trailers(data).rest == data[2..]
      else IsTrailer(data[..e]) && Trailers(data[e + 2..]) == Trailers(data)
  {
    LineIsCut(data, FindCrlf(data).value);
  }

  lemma PayloadIsCut(after: seq<Byte>, n: nat)
    requires n + 2 <= |after| && after[n] == CR && after[n + 1] == LF
    ensures after == after[..n] + (CRLF + after[n + 2..])
  {
    assert after[n..] == CRLF + after[n + 2..];
  }

  /** The definition of StepOf, read off a chunk. */
  lemma ChunkFacts(data: seq<Byte>)
    requires StepOf(data).Chunk?
    ensures FindCrlf(data).Some?
    ensures var e := FindCrlf(data).value; var after, n := data[e + 2..], |StepOf(data).payload|;
      && ChunkSize(data[..e]) == Size(n) && n + 2 <= |after| && after[n] == CR && after[n + 1] == LF
      && StepOf(data).payload == after[..n] && StepOf(data).rest == after[n + 2..]
  {
    hide FindCrlf, ChunkSize, Trailers;
    NotAnEnd(data);
  }

  lemma NotAnEnd(data: seq<Byte>)
    ensures !Trailers(data).Chunk?
  {}

  lemma ChunkIsCoded(data: seq<Byte>) returns (c: Coded)
    requires StepOf(data).Chunk?
    ensures IsCoded(c) && c.payload == StepOf(data).payload
    ensures data == c.line + (CRLF + (c.payload + (CRLF + StepOf(data).rest)))
  {
    ChunkFacts(data);
    var e := FindCrlf(data).value;
    LineIsCut(data, e);
    var step := StepOf(data);
    assert step.payload != [];
    hide FindCrlf, StepOf, ChunkSize;
    c := Coded(data[..e], step.payload);
    PayloadIsCut(data[e + 2..], |step.payload|);
  }

  /** A body is complete only when what was read is a whole coded body followed by what remains. */
  lemma {:induction false} CompleteIsCoded(data: seq<Byte>) returns (body: Body)
    requires Decode(data).Decoded? && Decode(data).done
    ensures IsBody(body) && Payloads(body.chunks) == Decode(data).chunks && data == Encode(body) + Decode(data).remaining
    decreases |data|
  {
    var remaining := Decode(data).remaining;
    if StepOf(data).End? {
      var e := FindCrlf(data).value;
      LineIsCut(data, e);
      var trailers := TrailersAreCoded(data[e + 2..]);
      body := Body([], data[..e], trailers);
      Regroup(data[..e], CRLF, EncodeTrailers(trailers), remaining);
    } else {
      var later := CompleteIsCoded(StepOf(data).rest);
      var c := ChunkIsCoded(data);
      hide StepOf, IsCoded;
      body := PrependCoded(c, later);
      assert Payloads(body.chunks) == [c.payload] + Payloads(later.chunks);
      Regroup(c.payload, CRLF, Encode(later), remaining);
      Regroup(c.line, CRLF, c.payload + (CRLF + Encode(later)), remaining);
    }
  }

  lemma PrependCoded(c: Coded, later: Body) returns (body: Body)
    requires IsCoded(c) && IsBody(later)
    ensures IsBody(body) && body.chunks == [c] + later.chunks && Payloads(body.chunks) == [c.payload] + Payloads(later.chunks)
    ensures Encode(body) == c.line + (CRLF + (c.payload + (CRLF + Encode(later))))
  {
    body := later.(chunks := [c] + later.chunks);
    assert body.chunks[1..] == later.chunks;
  }

  // ----- canonical sizes

  function HexDigit(d: nat): Byte
    requires d < 16
  {
    if d < 10 then 48 + d else 87 + d
  }

  function HexDigits(n: nat): seq<Byte> {
    if n < 16 then [HexDigit(n)] else HexDigits(n / 16) + [HexDigit(n % 16)]
  }

  lemma {:induction false} HexValueOfDigits(n: nat)
    ensures HexDigits(n) != [] && AllHex(HexDigits(n)) && HexValue(HexDigits(n)) == n
  {
    if n >= 16 {
      HexValueOfDigits(n / 16);
      var high := HexDigits(n / 16);
      assert (high + [HexDigit(n % 16)])[..|high|] == high;
    } else {
      assert HexDigits(n)[..0] == [];
    }
  }

  lemma {:induction false} NoSemicolon(line: seq<Byte>)
    requires AllHex(line)
    ensures BeforeSemicolon(line) == line
  {
    if line != [] {
      assert IsHexDigit(line[0]);
      assert forall i | 0 <= i < |line| - 1 :: line[1..][i] == line[i + 1];
      NoSemicolon(line[1..]);
    }
  }

  lemma HexIsAscii(line: seq<Byte>)
    requires AllHex(line)
    ensures Ascii(line) == line
  {
    assert forall i | 0 <= i < |line| :: IsHexDigit(line[i]);
  }

  lemma HexHasNoCrlf(line: seq<Byte>)
    requires AllHex(line)
    ensures FindCrlf(line) == None
  {
    assert forall i | 0 <= i < |line| :: IsHexDigit(line[i]);
    NoneFound(line);
  }

  /** Lower-case hexadecimal sizes are read back, up to the largest safe integer and no further. */
  lemma CanonicalSizes(n: nat)
    ensures FindCrlf(HexDigits(n)) == None
    ensures ChunkSize(HexDigits(n)) == if n <= MAX_SAFE_INTEGER then Size(n) else NoSize(UnsafeSize)
  {
    hide HexDigits, HexValue, AllHex, FindCrlf, ChunkSize;
    HexValueOfDigits(n);
    HexHasNoCrlf(HexDigits(n));
    PlainSize(HexDigits(n));
  }

  lemma PlainSize(digits: seq<Byte>)
    requires digits != [] && AllHex(digits)
    ensures ChunkSize(digits) == if HexValue(digits) <= MAX_SAFE_INTEGER then Size(HexValue(digits)) else NoSize(UnsafeSize)
  {
    hide HexValue, BeforeSemicolon, Ascii;
    NoSemicolon(digits);
    HexIsAscii(digits);
    assert IsHexDigit(digits[0]) && IsHexDigit(digits[|digits| - 1]);
  }

  // ----- other spellings of a size

  predicate IsDigitOf(b: Byte, value: nat) {
    if value < 10 then b == 48 + value else value < 16 && (b == 87 + value || b == 55 + value)
  }

  /** The hexadecimal digits of n, in either case, leading zeros allowed. */
  predicate Spells(digits: seq<Byte>, n: nat) {
    && digits != []
    && IsDigitOf(digits[|digits| - 1], n % 16)
    && if |digits| == 1 then n < 16 else Spells(digits[..|digits| - 1], n / 16)
  }

  lemma {:induction false} SpelledIsRead(digits: seq<Byte>, n: nat)
    requires Spells(digits, n)
    ensures AllHex(digits) && HexValue(digits) == n
  {
    var m := |digits| - 1;
    var front := digits[..m];
    if m > 0 { SpelledIsRead(front, n / 16); }
    forall i | 0 <= i < |digits| ensures IsHexDigit(digits[i]) {
      if i < m { assert front[i] == digits[i]; }
    }
  }

  predicate AllSpace(line: seq<Byte>) {
    forall i | 0 <= i < |line| :: IsSpace(line[i])
  }

  lemma {:induction false} LeftIsTrimmed(left: seq<Byte>, token: seq<Byte>)
    requires AllSpace(left)
    ensures Trim(left + token) == Trim(token)
  {
    if left == [] {
      assert left + token == token;
    } else {
      assert (left + token)[1..] == left[1..] + token;
      LeftIsTrimmed(left[1..], token);
    }
  }

  lemma {:induction false} RightIsTrimmed(token: seq<Byte>, right: seq<Byte>)
    requires AllSpace(right) && token != [] && !IsSpace(token[0]) && !IsSpace(token[|token| - 1])
    ensures Trim(token + right) == token
  {
    if right == [] {
      assert token + right == token;
    } else {
      var n := |right| - 1;
      assert (token + right)[..|token| + n] == token + right[..n];
      RightIsTrimmed(token, right[..n]);
    }
  }

  lemma {:induction false} ExtensionIsCut(line: seq<Byte>, extension: seq<Byte>)
    requires SEMICOLON !in line && (extension != [] ==> extension[0] == SEMICOLON)
    ensures BeforeSemicolon(line + extension) == line
  {
    if line == [] {
      assert line + extension == extension;
    } else {
      assert (line + extension)[1..] == line[1..] + extension;
      ExtensionIsCut(line[1..], extension);
    }
  }

  /** A size may be spelled in either case, with leading zeros and white space around it, and be followed by any
      extensions (section 7.1.1 of RFC 9112): it is read as the number its digits spell. */
  lemma AnySpellingIsRead(left: seq<Byte>, digits: seq<Byte>, right: seq<Byte>, extension: seq<Byte>, n: nat)
    requires AllSpace(left) && AllSpace(right) && Spells(digits, n) && (extension != [] ==> extension[0] == SEMICOLON)
    ensures ChunkSize(left + digits + right + extension) == if n <= MAX_SAFE_INTEGER then Size(n) else NoSize(UnsafeSize)
  {
    hide Trim, BeforeSemicolon, HexValue, Spells;
    SpelledIsRead(digits, n);
    var line := left + digits + right;
    assert SEMICOLON !in line;
    assert Ascii(line + extension) == line + Ascii(extension);
    ExtensionIsCut(line, Ascii(extension));
    SpelledHasDigits(digits, n);
    assert line == left + (digits + right);
    LeftIsTrimmed(left, digits + right);
    assert IsHexDigit(digits[0]) && IsHexDigit(digits[|digits| - 1]);
    RightIsTrimmed(digits, right);
  }

  lemma SpelledHasDigits(digits: seq<Byte>, n: nat)
    requires Spells(digits, n)
    ensures digits != []
  {}

  // ----- the loop over the buffer

  method IndexOfCrlf(data: seq<Byte>, from: nat) returns (index: int)
    requires from <= |data|
    ensures FindCrlf(data[from..]) == if index < 0 then None else Some(index - from)
    ensures index < 0 || (from <= index && index + 2 <= |data|)
  {
    index := from;
    while index + 2 <= |data|
      invariant from <= index
      invariant forall i: nat | i < index - from && from + i + 2 <= |data| :: !(data[from..][i] == CR && data[from..][i + 1] == LF)
    {
      if data[index] == CR && data[index + 1] == LF {
        FoundAt(data[from..], index - from);
        return;
      }
      assert data[from..][index - from] == data[index] && data[from..][index + 1 - from] == data[index + 1];
      index := index + 1;
    }
    NoneFound(data[from..]);
    index := -1;
  }

  lemma Cuts(data: seq<Byte>, from: nat, to: nat)
    requires from <= to && to + 2 <= |data|
    ensures data[from..][..to - from] == data[from..to] && data[from..][to - from + 2..] == data[to + 2..]
  {}

  /** The definition of Trailers, read at an offset. */
  lemma TrailersAt(data: seq<Byte>, offset: nat, e: int)
    requires offset <= |data| && (e < 0 || offset <= e)
    requires FindCrlf(data[offset..]) == if e < 0 then None else Some(e - offset)
    ensures e < 0 || e + 2 <= |data|
    ensures Trailers(data[offset..]) ==
      if e < 0 then NeedMore else if e == offset then End(data[e + 2..])
      else if COLON !in data[offset..e] then Broken(InvalidTrailer) else Trailers(data[e + 2..])
  {
    if e >= 0 { Cuts(data, offset, e); }
  }

  /** Reads the trailer lines after the last chunk; None when they are not complete yet. */
  method SkipTrailers(data: seq<Byte>, start: nat) returns (end: Option<nat>, fault: Option<Fault>)
    requires start <= |data|
    ensures end.Some? ==> end.value <= |data|
    ensures Trailers(data[start..]) ==
      if fault.Some? then Broken(fault.value) else if end.Some? then End(data[end.value..]) else NeedMore
  {
    hide Trailers, FindCrlf;
    var offset: nat := start;
    end, fault := None, None;
    while true
      invariant offset <= |data| && Trailers(data[start..]) == Trailers(data[offset..])
      decreases |data| - offset
    {
      var trailerEnd := IndexOfCrlf(data, offset);
      TrailersAt(data, offset, trailerEnd);
      if trailerEnd < 0 { return None, None; }
      if trailerEnd == offset { return Some(trailerEnd + 2), None; }
      if COLON !in data[offset..trailerEnd] { return None, Some(InvalidTrailer); }
      offset := trailerEnd + 2;
    }
  }

  /** The definition of StepOf, read at an offset. */
  lemma StepAt(data: seq<Byte>, offset: nat, e: int)
    requires offset <= |data| && (e < 0 || offset <= e)
    requires FindCrlf(data[offset..]) == if e < 0 then None else Some(e - offset)
    ensures e < 0 || e + 2 <= |data|
    ensures StepOf(data[offset..]) ==
      if e < 0 then NeedMore
      else
        var size, start := ChunkSize(data[offset..e]), e + 2;
        if size.NoSize? then Broken(size.fault)
        else if size.value == 0 then Trailers(data[start..])
        else
          var end := start + size.value;
          if end + 2 > |data| then NeedMore
          else if data[end] != CR || data[end + 1] != LF then Broken(MissingCrlf)
          else Chunk(data[start..end], data[end + 2..])
  {
    hide FindCrlf, Trailers, ChunkSize;
    if e >= 0 {
      Cuts(data, offset, e);
      var size, start := ChunkSize(data[offset..e]), e + 2;
      if size.Size? && start + size.value + 2 <= |data| { Cuts(data, start, start + size.value); }
    }
  }

  /** The definition of Decode, one step further on. */
  lemma DecodeOneMore(chunks: seq<seq<Byte>>, data: seq<Byte>)
    ensures Prepended(chunks, Decode(data)) ==
      match StepOf(data)
      case NeedMore => Decoded(chunks, data, false)
      case Broken(fault) => Failed(fault)
      case End(rest) => Decoded(chunks, rest, true)
      case Chunk(payload, rest) => Prepended(chunks + [payload], Decode(rest))
  {
    hide StepOf;
    var step := StepOf(data);
    if step.Chunk? { Reprepend(chunks, [step.payload], Decode(step.rest)); }
  }

  /** The front of the buffer by its offsets: a chunk's payload, or the end of the body. */
  datatype Front = Partial | Bad(fault: Fault) | Payload(start: nat, end: nat) | Tail(offset: nat)

  ghost predicate IsFront(data: seq<Byte>, offset: nat, front: Front)
    requires offset <= |data|
  {
    match front
    case Partial => StepOf(data[offset..]) == NeedMore
    case Bad(fault) => StepOf(data[offset..]) == Broken(fault)
    case Tail(next) => next <= |data| && StepOf(data[offset..]) == End(data[next..])
    case Payload(start, end) => offset < start <= end && end + 2 <= |data| && StepOf(data[offset..]) == Chunk(data[start..end], data[end + 2..])
  }

  /** One turn of the decoding loop, up to the use of what it found. */
  method ReadFront(data: seq<Byte>, offset: nat) returns (front: Front)
    requires offset <= |data|
    ensures IsFront(data, offset, front)
  {
    hide StepOf, Trailers, FindCrlf, ChunkSize;
    var sizeEnd := IndexOfCrlf(data, offset);
    StepAt(data, offset, sizeEnd);
    if sizeEnd < 0 { return Partial; }
    var size := ChunkSize(data[offset..sizeEnd]);
    if size.NoSize? { return Bad(size.fault); }
    var start := sizeEnd + 2;
    if size.value == 0 {
      var end, fault := SkipTrailers(data, start);
      return if fault.Some? then Bad(fault.value) else if end.Some? then Tail(end.value) else Partial;
    }
    var end := start + size.value;
    if end + 2 > |data| { return Partial; }
    if data[end] != CR || data[end + 1] != LF { return Bad(MissingCrlf); }
    return Payload(start, end);
  }

  method DecodeChunkedStream(data: seq<Byte>) returns (decoded: Decoded)
    ensures decoded == Decode(data)
  {
    hide Decode, StepOf, Prepended;
    var chunks: seq<seq<Byte>> := [];
    var offset: nat := 0;
    Nothing(Decode(data));
    assert data[0..] == data;
    while offset < |data|
      invariant offset <= |data|
      invariant Decode(data) == Prepended(chunks, Decode(data[offset..]))
    {
      var front := ReadFront(data, offset);
      DecodeOneMore(chunks, data[offset..]);
      match front
      case Partial => return Decoded(chunks, data[offset..], false);
      case Bad(fault) => return Failed(fault);
      case Tail(next) => return Decoded(chunks, data[next..], true);
      case Payload(start, end) =>
        chunks := chunks + [data[start..end]];
        offset := end + 2;
    }
    DecodeOneMore(chunks, data[offset..]);
    NothingLeft(data[offset..]);
    return Decoded(chunks, data[offset..], false);
  }

  lemma NothingLeft(data: seq<Byte>)
    requires data == []
    ensures StepOf(data) == NeedMore
  {}
}
