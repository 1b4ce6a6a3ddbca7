/** The body of a response read from the proxy tunnel: pieces of any size, then an end, a close or a fault
    (backend/capabilities/proxyFetch.ts, lines 279-335, 380-390 and 401-422; sections 6.3 and 7.1 of
    RFC 9112). */
module ResponseBody {
  import opened Options
  import opened ChunkedBody

  datatype Framing = ChunkedCoding | FixedLength(length: nat) | UntilEnd
  datatype Lifecycle = Open | Completed | Errored
  datatype Event = Data(piece: seq<Byte>) | Ended | Closed | Fault

  /** delivered holds the bytes handed to the consumer so far. */
  datatype Reader = Reader(framing: Framing, buffer: seq<Byte>, received: nat, delivered: seq<Byte>, lifecycle: Lifecycle)

  function Flat(chunks: seq<seq<Byte>>): seq<Byte> {
    if chunks == [] then [] else Flat(chunks[..|chunks| - 1]) + chunks[|chunks| - 1]
  }

  function Start(framing: Framing, noBody: bool): Reader {
    Reader(framing, [], 0, [], if noBody || framing == FixedLength(0) then Completed else Open)
  }

  function Feed(reader: Reader, piece: seq<Byte>): Reader {
    if reader.lifecycle != Open || piece == [] then reader
    else match reader.framing
      case ChunkedCoding =>
        var decoded := Decode(reader.buffer + piece);
        if decoded.Failed? then reader.(lifecycle := Errored, buffer := reader.buffer + piece)
        else reader.(buffer := decoded.remaining, delivered := reader.delivered + Flat(decoded.chunks),
                     lifecycle := if decoded.done then Completed else Open)
      case FixedLength(length) =>
        if reader.received + |piece| > length then reader.(lifecycle := Errored)
        else reader.(received := reader.received + |piece|, delivered := reader.delivered + piece,
                     lifecycle := if reader.received + |piece| == length then Completed else Open)
      case UntilEnd => reader.(delivered := reader.delivered + piece)
  }

  function Eof(reader: Reader, closed: bool): Reader {
    if reader.lifecycle != Open then reader
    else reader.(lifecycle := if reader.framing == UntilEnd && !closed then Completed else Errored)
  }

  function Next(reader: Reader, event: Event): Reader {
    match event
    case Data(piece) => Feed(reader, piece)
    case Ended => Eof(reader, false)
    case Closed => Eof(reader, true)
    case Fault => if reader.lifecycle == Open then reader.(lifecycle := Errored) else reader
  }

  function Run(reader: Reader, events: seq<Event>): Reader {
    if events == [] then reader else Next(Run(reader, events[..|events| - 1]), events[|events| - 1])
  }

  // ----- the reader itself

  class BodyReader {
    const isChunked: bool
    const contentLength: Option<nat>
    var chunkedBuffer: seq<Byte>
    var chunkedDone: bool
    var nonChunkedReceived: nat
    var delivered: seq<Byte>
    var lifecycleFinished: bool
    var errored: bool

    ghost predicate Valid()
      reads this
    {
      && (isChunked ==> contentLength == None)
      && (errored ==> lifecycleFinished) && (chunkedDone ==> lifecycleFinished)
      && (contentLength.Some? && !lifecycleFinished ==> nonChunkedReceived < contentLength.value)
    }

    ghost function View(): Reader
      reads this
    {
      Reader(if isChunked then ChunkedCoding else if contentLength.Some? then FixedLength(contentLength.value) else UntilEnd,
             chunkedBuffer, nonChunkedReceived, delivered,
             if !lifecycleFinished then Open else if errored then Errored else Completed)
    }

    /** The state once the headers are parsed; a chunked response ignores its Content-Length. */
    constructor (chunked: bool, length: Option<nat>, noBody: bool)
      ensures Valid()
      ensures View() == Start(if chunked then ChunkedCoding else if length.Some? then FixedLength(length.value) else UntilEnd, noBody)
    {
      isChunked := chunked;
      contentLength := if chunked then None else length;
      chunkedBuffer, chunkedDone, nonChunkedReceived, delivered := [], false, 0, [];
      lifecycleFinished := noBody || (!chunked && length == Some(0));
      errored := false;
    }

    method Fail()
      requires Valid()
      modifies this
      ensures Valid() && View() == Next(old(View()), Fault)
    {
      if lifecycleFinished { return; }
      lifecycleFinished, errored := true, true;
    }

    method ProcessBodyData(data: seq<Byte>)
      requires Valid()
      modifies this
      ensures Valid() && View() == Next(old(View()), Data(data))
    {
      if lifecycleFinished || data == [] { return; }
      if isChunked {
        chunkedBuffer := chunkedBuffer + data;
        var decoded := DecodeChunkedStream(chunkedBuffer);
        if decoded.Failed? {
          Fail();
          return;
        }
        chunkedBuffer := decoded.remaining;
        var pushed: seq<Byte> := [];
        for i := 0 to |decoded.chunks|
          invariant pushed == Flat(decoded.chunks[..i])
        {
          assert decoded.chunks[..i + 1][..i] == decoded.chunks[..i];
          pushed := pushed + decoded.chunks[i];
        }
        assert decoded.chunks[..|decoded.chunks|] == decoded.chunks;
        delivered := delivered + pushed;
        if decoded.done {
          chunkedDone := true;
          lifecycleFinished := true;
        }
        return;
      }
      if contentLength.Some? {
        var remaining := contentLength.value - nonChunkedReceived;
        if |data| > remaining {
          Fail();
          return;
        }
        nonChunkedReceived := nonChunkedReceived + |data|;
        delivered := delivered + data;
        if nonChunkedReceived == contentLength.value { lifecycleFinished := true; }
        return;
      }
      delivered := delivered + data;
    }

    method ValidateEof(closed: bool)
      requires Valid()
      modifies this
      ensures Valid() && View() == Next(old(View()), if closed then Closed else Ended)
    {
      if lifecycleFinished { return; }
      if isChunked && !chunkedDone { Fail(); return; }
      if contentLength.Some? && nonChunkedReceived != contentLength.value { Fail(); return; }
      if closed { Fail(); return; }
      lifecycleFinished := true;
    }
  }

  // ----- what the outcome depends on

  function PieceOf(event: Event): seq<Byte> {
    if event.Data? then event.piece else []
  }

  function Joined(events: seq<Event>): seq<Byte> {
    if events == [] then [] else Joined(events[..|events| - 1]) + PieceOf(events[|events| - 1])
  }

  lemma JoinedPush(events: seq<Event>, event: Event)
    ensures Joined(events + [event]) == Joined(events) + PieceOf(event)
  {
    assert (events + [event])[..|events|] == events;
  }

  lemma {:induction false} FlatJoin(a: seq<seq<Byte>>, b: seq<seq<Byte>>)
    ensures Flat(a + b) == Flat(a) + Flat(b)
  {
    if b == [] {
      assert a + b == a;
    } else {
      hide Flat;
      var n := |b| - 1;
      FlatJoin(a, b[..n]);
      assert a + b == a + b[..n] + [b[n]] && b == b[..n] + [b[n]];
      FlatPush(a + b[..n], b[n]);
      FlatPush(b[..n], b[n]);
      RegroupBytes(Flat(a), Flat(b[..n]), b[n]);
    }
  }

  lemma FlatPush(chunks: seq<seq<Byte>>, chunk: seq<Byte>)
    ensures Flat(chunks + [chunk]) == Flat(chunks) + chunk
  {
    assert (chunks + [chunk])[..|chunks|] == chunks;
  }

  lemma RegroupBytes(a: seq<Byte>, b: seq<Byte>, c: seq<Byte>)
    ensures a + (b + c) == (a + b) + c
  {}

  /** The payload decoded before a fault, if there is one. */
  function Salvaged(data: seq<Byte>): seq<seq<Byte>>
    decreases |data|
  {
    match StepOf(data)
    case Chunk(payload, rest) => [payload] + Salvaged(rest)
    case _ => []
  }

  lemma Reassociate(a: seq<seq<Byte>>, b: seq<seq<Byte>>, c: seq<seq<Byte>>)
    ensures a + (b + c) == (a + b) + c
  {}

  lemma {:induction false} SalvagedInTwo(data: seq<Byte>, more: seq<Byte>)
    requires Decode(data).Decoded? && !Decode(data).done
    ensures Salvaged(data + more) == Decode(data).chunks + Salvaged(Decode(data).remaining + more)
    decreases |data|
  {
    var step := StepOf(data);
    if step.Chunk? {
      StepStays(data, more);
      SalvagedInTwo(step.rest, more);
      hide StepOf;
      var later := Decode(step.rest);
      Reassociate([step.payload], later.chunks, Salvaged(later.remaining + more));
    } else {
      assert [] + Salvaged(data + more) == Salvaged(data + more);
    }
  }

  lemma {:induction false} SalvagedWhenDecoded(data: seq<Byte>)
    requires Decode(data).Decoded?
    ensures Salvaged(data) == Decode(data).chunks
    decreases |data|
  {
    if StepOf(data).Chunk? { SalvagedWhenDecoded(StepOf(data).rest); }
  }

  /** How the reader stands to the bytes it has taken in. */
  ghost predicate Accounts(reader: Reader, data: seq<Byte>) {
    match reader.framing
    case ChunkedCoding =>
      var decoded := Decode(data);
      (match reader.lifecycle
       case Open => decoded.Decoded? && !decoded.done && reader.buffer == decoded.remaining && reader.delivered == Flat(decoded.chunks)
       case Completed => decoded.Decoded? && decoded.done && reader.buffer == decoded.remaining && reader.delivered == Flat(decoded.chunks)
       case Errored => exists more :: reader.delivered + more == Flat(Salvaged(data)))
    case FixedLength(length) =>
      (match reader.lifecycle
       case Open => reader.delivered == data && reader.received == |data| < length
       case Completed => reader.delivered == data && |data| == length
       case Errored => reader.delivered <= data)
    case UntilEnd => reader.delivered == data
  }

  lemma FlatPrefix(a: seq<seq<Byte>>, b: seq<seq<Byte>>)
    ensures Flat(a + b) == Flat(a) + Flat(b)
    ensures exists more :: Flat(a) + more == Flat(a + b)
  {
    FlatJoin(a, b);
    assert Flat(a) + Flat(b) == Flat(a + b);
  }

  /** Taking in one more piece while open keeps the account. */
  lemma ChunkedPiece(reader: Reader, data: seq<Byte>, piece: seq<Byte>)
    requires reader.framing == ChunkedCoding && reader.lifecycle == Open && Accounts(reader, data)
    ensures Accounts(Feed(reader, piece), data + piece)
  {
    var first, now := Decode(data), Decode(reader.buffer + piece);
    DecodeInTwo(data, piece);
    if piece == [] {
      assert data + piece == data;
    } else if now.Failed? {
      SalvagedInTwo(data, piece);
      FlatPrefix(first.chunks, Salvaged(reader.buffer + piece));
    } else {
      FlatJoin(first.chunks, now.chunks);
    }
  }

  lemma EventKeepsAccount(reader: Reader, data: seq<Byte>, event: Event)
    requires reader.lifecycle == Open && Accounts(reader, data)
    ensures Accounts(Next(reader, event), data + PieceOf(event))
  {
    if event.Data? && reader.framing == ChunkedCoding {
      ChunkedPiece(reader, data, event.piece);
    } else if !event.Data? {
      assert data + PieceOf(event) == data;
      if reader.framing == ChunkedCoding {
        SalvagedWhenDecoded(data);
        assert reader.delivered + [] == Flat(Salvaged(data));
      }
    }
  }

  /** Every run accounts for the bytes of its first k events, all of them while the body is still open;
      the k-th event is the one that ended it. */
  lemma {:induction false} RunAccounts(framing: Framing, events: seq<Event>) returns (k: nat)
    requires framing != FixedLength(0)
    ensures k <= |events| && Accounts(Run(Start(framing, false), events), Joined(events[..k]))
    ensures Run(Start(framing, false), events).framing == framing
    ensures Run(Start(framing, false), events) == Run(Start(framing, false), events[..k])
    ensures Run(Start(framing, false), events).lifecycle == Open ==> k == |events|
    ensures framing == UntilEnd && Run(Start(framing, false), events).lifecycle == Completed ==> k > 0 && events[k - 1] == Ended
  {
    hide Accounts, Feed, Eof, Start, Next, Joined;
    NothingTaken(framing);
    var start := Start(framing, false);
    if events == [] {
      assert events[..0] == [];
      k := 0;
    } else {
      var n := |events| - 1;
      k := RunAccounts(framing, events[..n]);
      var before := Run(start, events[..n]);
      assert Run(start, events) == Next(before, events[n]);
      hide Run;
      CutTwice(events, k);
      NextFacts(before, events[n]);
      if before.lifecycle == Open {
        CutTwice(events, n);
        EventKeepsAccount(before, Joined(events[..n]), events[n]);
        JoinedPush(events[..n], events[n]);
        assert events[..n] + [events[n]] == events;
        k := n + 1;
        assert events[..k] == events;
      }
    }
  }

  lemma NothingTaken(framing: Framing)
    requires framing != FixedLength(0)
    ensures Accounts(Start(framing, false), Joined([])) && Start(framing, false).framing == framing && Start(framing, false).lifecycle == Open
  {
    if framing == ChunkedCoding { assert StepOf([]) == NeedMore; }
  }

  lemma CutTwice(events: seq<Event>, k: nat)
    requires k < |events|
    ensures events[..|events| - 1][..k] == events[..k]
  {}

  lemma NextFacts(reader: Reader, event: Event)
    ensures Next(reader, event).framing == reader.framing
    ensures reader.lifecycle != Open ==> Next(reader, event) == reader
    ensures reader.framing == UntilEnd && reader.lifecycle == Open && Next(reader, event).lifecycle == Completed ==> event == Ended
  {}

  /** A clean close means the framing was complete: the bytes taken in are exactly one body, all of it delivered. */
  lemma CleanCloseIsComplete(framing: Framing, events: seq<Event>) returns (k: nat)
    requires framing != FixedLength(0)
    requires Run(Start(framing, false), events).lifecycle == Completed
    ensures k <= |events|
    ensures var delivered, data := Run(Start(framing, false), events).delivered, Joined(events[..k]);
      match framing
      case ChunkedCoding => Decode(data).Decoded? && Decode(data).done && delivered == Flat(Decode(data).chunks)
      case FixedLength(length) => |data| == length && delivered == data
      case UntilEnd => delivered == data && k > 0 && events[k - 1] == Ended
  {
    k := RunAccounts(framing, events);
  }

  ghost predicate OnlyData(events: seq<Event>) {
    forall i | 0 <= i < |events| :: events[i].Data?
  }

  /** A finished chunked decoding is the same for any longer stream, up to what remains. */
  lemma StaysDecided(events: seq<Event>, k: nat)
    requires k <= |events|
    ensures var first, all := Decode(Joined(events[..k])), Decode(Joined(events));
      (first.Failed? ==> all.Failed?) && (first.Decoded? && first.done ==> all.Decoded? && all.done && all.chunks == first.chunks)
  {
    hide Joined, Decode;
    assert events == events[..k] + events[k..];
    JoinedJoin(events[..k], events[k..]);
    StaysDecidedBy(Joined(events[..k]), Joined(events[k..]));
  }

  lemma {:induction false} JoinedJoin(a: seq<Event>, b: seq<Event>)
    ensures Joined(a + b) == Joined(a) + Joined(b)
  {
    if b == [] {
      assert a + b == a;
    } else {
      hide Joined;
      var n := |b| - 1;
      JoinedJoin(a, b[..n]);
      assert a + b == a + b[..n] + [b[n]] && b == b[..n] + [b[n]];
      JoinedPush(a + b[..n], b[n]);
      JoinedPush(b[..n], b[n]);
      RegroupBytes(Joined(a), Joined(b[..n]), PieceOf(b[n]));
    }
  }

  lemma StaysDecidedBy(data: seq<Byte>, more: seq<Byte>)
    ensures var first, all := Decode(data), Decode(data + more);
      (first.Failed? ==> all.Failed?) && (first.Decoded? && first.done ==> all.Decoded? && all.done && all.chunks == first.chunks)
  {
    DecodeInTwo(data, more);
    hide Decode;
  }

  /** However a chunked body is cut into pieces, its outcome is that of the whole stream at once:
      whether it is complete, broken or still open, and all bytes delivered unless it is broken. */
  lemma ChunkedSplitInvariance(events: seq<Event>)
    requires OnlyData(events)
    ensures var reader, whole := Run(Start(ChunkedCoding, false), events), Decode(Joined(events));
      && (reader.lifecycle == Errored <==> whole.Failed?)
      && (reader.lifecycle == Completed <==> whole.Decoded? && whole.done)
      && (whole.Decoded? ==> reader.delivered == Flat(whole.chunks))
  {
    var k := RunAccounts(ChunkedCoding, events);
    StaysDecided(events, k);
    assert k == |events| ==> events[..k] == events;
    if Run(Start(ChunkedCoding, false), events).lifecycle == Errored {
      BrokenByData(events, k);
    }
  }

  /** With data only, a reader ends broken only when the stream up to there is. */
  lemma {:induction false} BrokenByData(events: seq<Event>, k: nat)
    requires OnlyData(events) && Run(Start(ChunkedCoding, false), events).lifecycle == Errored
    ensures Decode(Joined(events)).Failed?
    decreases |events|
  {
    var n, start := |events| - 1, Start(ChunkedCoding, false);
    assert events[n].Data?;
    var before := Run(start, events[..n]);
    assert OnlyData(events[..n]) by { assert forall i | 0 <= i < n :: events[..n][i] == events[i]; }
    DecodeInTwo(Joined(events[..n]), events[n].piece);
    if before.lifecycle == Errored {
      BrokenByData(events[..n], k);
    } else {
      var j := RunAccounts(ChunkedCoding, events[..n]);
      assert before.lifecycle == Open ==> events[..n][..j] == events[..n];
    }
  }

  /** A body of known length completes exactly when some first pieces hold that many bytes. */
  lemma {:induction false} FixedLengthCompletes(length: nat, events: seq<Event>)
    requires 0 < length && OnlyData(events)
    ensures Run(Start(FixedLength(length), false), events).lifecycle == Completed
      <==> exists k: nat :: k <= |events| && |Joined(events[..k])| == length
  {
    var start := Start(FixedLength(length), false);
    if Run(start, events).lifecycle == Completed {
      var k := RunAccounts(FixedLength(length), events);
    } else {
      forall k: nat | k <= |events| && |Joined(events[..k])| == length ensures false {
        CompleteAt(length, events, k);
      }
    }
  }

  lemma {:induction false} OpenBelow(length: nat, events: seq<Event>)
    requires OnlyData(events) && |Joined(events)| < length
    ensures var reader := Run(Start(FixedLength(length), false), events);
      reader.lifecycle == Open && reader.received == |Joined(events)| && reader.framing == FixedLength(length)
  {
    if events != [] {
      var n := |events| - 1;
      assert events[n].Data?;
      assert OnlyData(events[..n]) by { assert forall i | 0 <= i < n :: events[..n][i] == events[i]; }
      OpenBelow(length, events[..n]);
    }
  }

  lemma {:induction false} CompleteAt(length: nat, events: seq<Event>, k: nat)
    requires 0 < length && OnlyData(events) && k <= |events| && |Joined(events[..k])| == length
    ensures Run(Start(FixedLength(length), false), events).lifecycle == Completed
    decreases |events|
  {
    if events == [] { return; }
    var n, start := |events| - 1, Start(FixedLength(length), false);
    var before := Run(start, events[..n]);
    assert OnlyData(events[..n]) by { assert forall i | 0 <= i < n :: events[..n][i] == events[i]; }
    assert events[n].Data?;
    assert k == |events| ==> events[..k] == events;
    assert events[..n][..n] == events[..n];
    if k < |events| || |Joined(events[..n])| == length {
      CutTwice(events, if k < |events| then k else n);
      CompleteAt(length, events[..n], if k < |events| then k else n);
      hide Feed;
      NextFacts(before, events[n]);
    } else {
      OpenBelow(length, events[..n]);
    }
  }

  ghost predicate EndsAt(events: seq<Event>, k: nat) {
    k < |events| && events[k] == Ended && OnlyData(events[..k])
  }

  /** A body that runs until the end completes exactly when nothing but data came before that end. */
  lemma {:induction false} UntilEndCompletes(events: seq<Event>)
    ensures Run(Start(UntilEnd, false), events).lifecycle == Completed
      <==> exists k: nat :: EndsAt(events, k)
    ensures Run(Start(UntilEnd, false), events).lifecycle == Open <==> OnlyData(events)
    ensures Run(Start(UntilEnd, false), events).framing == UntilEnd
  {
    if events != [] {
      var n := |events| - 1;
      UntilEndCompletes(events[..n]);
      OnlyDataPush(events);
      FirstEnd(events);
    }
  }

  lemma OnlyDataPush(events: seq<Event>)
    requires events != []
    ensures OnlyData(events) <==> OnlyData(events[..|events| - 1]) && events[|events| - 1].Data?
  {
    assert events == events[..|events| - 1] + [events[|events| - 1]];
  }

  lemma FirstEnd(events: seq<Event>)
    requires events != []
    ensures var n := |events| - 1;
      (exists k: nat :: EndsAt(events, k)) <==> (exists k: nat :: EndsAt(events[..n], k)) || EndsAt(events, n)
  {
    var n := |events| - 1;
    forall k: nat | k < n ensures EndsAt(events[..n], k) <==> EndsAt(events, k) {
      assert events[..n][k] == events[k] && events[..n][..k] == events[..k];
    }
  }

  /** An end or a close before a body is complete is a failure, except for the end of one that runs until it. */
  lemma EofExactly(reader: Reader, event: Event)
    requires reader.lifecycle == Open && (event == Ended || event == Closed)
    ensures Next(reader, event).lifecycle == if reader.framing == UntilEnd && event == Ended then Completed else Errored
    ensures Next(reader, event).delivered == reader.delivered
  {}
}
