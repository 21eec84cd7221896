/**
  Reading a large object in chunks: the server's checks on what a provider
  streams, and the in-memory provider's stream.
 */
module LobStreams {
  import opened Options

  const MAX_UINT64 := 0xffff_ffff_ffff_ffff

  newtype uint64 = x: int | 0 <= x <= MAX_UINT64

  type Byte = b: int | 0 <= b < 0x100

  /** Data in memory, so its length is a 64-bit number. */
  type Data = d: seq<Byte> | |d| <= MAX_UINT64

  function Length(d: Data): uint64 {
    |d| as uint64
  }

  datatype Request = Request(offset: uint64, length: Option<uint64>, maxChunkBytes: uint64)

  datatype Chunk = Chunk(offset: uint64, data: Data, endOfRead: bool)

  /** What the provider's stream answers to a request for the next chunk. */
  datatype Reply = EndOfStream | ProviderFails(reason: int) | NoResponse | Delivers(chunk: Chunk)

  datatype Fault = EndedEarly | FailedWith(reason: int) | NilResponse | WrongOffset | EmptyChunk | ChunkTooLarge
                 | TooLong | OffsetOverflow | SendFailed

  datatype Result = Complete | Stopped(fault: Fault)

  // ---------- The server's checks ----------

  /** Why the server refuses a chunk, if it does. The subtractions cannot wrap around. */
  function Check(r: Request, expected: uint64, sent: uint64, c: Chunk): Option<Fault> {
    var size := Length(c.data);
    if c.offset != expected then Some(WrongOffset)
    else if !c.endOfRead && size == 0 then Some(EmptyChunk)
    else if r.maxChunkBytes > 0 && size > r.maxChunkBytes then Some(ChunkTooLarge)
    else if r.length.Some? && (size > r.length.value || sent > r.length.value - size) then Some(TooLong)
    else if size > (MAX_UINT64 as uint64) - expected then Some(OffsetOverflow)
    else None
  }

  /** The k-th answer of a provider, and whether the k-th send succeeds, for every k. */
  type Provider = nat -> Reply
  type Link = nat -> bool

  /** What is sent from the k-th chunk on, and how the read ends. */
  function Serve(r: Request, provider: Provider, link: Link, k: nat, expected: uint64, sent: uint64): (seq<Chunk>, Result)
    requires sent <= expected
    decreases MAX_UINT64 - expected as int
  {
    match provider(k)
    case EndOfStream => ([], Stopped(EndedEarly))
    case ProviderFails(reason) => ([], Stopped(FailedWith(reason)))
    case NoResponse => ([], Stopped(NilResponse))
    case Delivers(c) =>
      var fault := Check(r, expected, sent, c);
      if fault.Some? then ([], Stopped(fault.value))
      else if !link(k) then ([], Stopped(SendFailed))
      else if c.endOfRead then ([c], Complete)
      else
        var size := Length(c.data);
        var (more, result) := Serve(r, provider, link, k + 1, expected + size, sent + size);
        ([c] + more, result)
  }

  /** The server's loop. It ends for every provider, even one that never does. */
  method ReadLob(r: Request, provider: Provider, link: Link) returns (sent: seq<Chunk>, result: Result)
    ensures (sent, result) == Serve(r, provider, link, 0, r.offset, 0)
  {
    sent := [];
    PrependedNothing(Serve(r, provider, link, 0, r.offset, 0));
    var expected, bytesSent := r.offset, 0 as uint64;
    var k := 0;
    while true
      invariant bytesSent <= expected
      invariant Serve(r, provider, link, 0, r.offset, 0) == Prepended(sent, Serve(r, provider, link, k, expected, bytesSent))
      decreases MAX_UINT64 - expected as int
    {
      assert sent + [] == sent;
      match provider(k) {
        case EndOfStream => return sent, Stopped(EndedEarly);
        case ProviderFails(reason) => return sent, Stopped(FailedWith(reason));
        case NoResponse => return sent, Stopped(NilResponse);
        case Delivers(response) =>
          var size := Length(response.data);
          var fault := Check(r, expected, bytesSent, response);
          if fault.Some? {
            return sent, Stopped(fault.value);
          }
          if !link(k) {
            return sent, Stopped(SendFailed);
          }
          ghost var before := sent;
          sent := sent + [response];
          if response.endOfRead {
            return sent, Complete;
          }
          PrependedMore(before, response, Serve(r, provider, link, k + 1, expected + size, bytesSent + size));
          expected := expected + size;
          bytesSent := bytesSent + size;
          k := k + 1;
      }
    }
  }

  function Prepended(sent: seq<Chunk>, rest: (seq<Chunk>, Result)): (seq<Chunk>, Result) {
    (sent + rest.0, rest.1)
  }

  lemma PrependedNothing(rest: (seq<Chunk>, Result))
    ensures Prepended([], rest) == rest
  {
    assert [] + rest.0 == rest.0;
  }

  lemma PrependedMore(sent: seq<Chunk>, c: Chunk, rest: (seq<Chunk>, Result))
    ensures Prepended(sent, Prepended([c], rest)) == Prepended(sent + [c], rest)
  {
    assert sent + ([c] + rest.0) == sent + [c] + rest.0;
  }

  // ---------- What may be sent ----------

  function Bytes(chunks: seq<Chunk>): seq<Byte> {
    if chunks == [] then [] else chunks[0].data + Bytes(chunks[1..])
  }

  /** Chunks follow each other from the offset on, within the bounds; only the last may be terminal or empty. */
  ghost predicate WellSent(r: Request, chunks: seq<Chunk>, from: int, already: int)
    decreases |chunks|
  {
    chunks == [] ||
    var c := chunks[0];
    && c.offset as int == from
    && (r.maxChunkBytes > 0 ==> |c.data| <= r.maxChunkBytes as int)
    && (r.length.Some? ==> already + |c.data| <= r.length.value as int)
    && from + |c.data| <= MAX_UINT64
    && (c.data == [] ==> c.endOfRead)
    && (c.endOfRead ==> |chunks| == 1)
    && WellSent(r, chunks[1..], from + |c.data|, already + |c.data|)
  }

  lemma CheckFacts(r: Request, expected: uint64, sent: uint64, c: Chunk)
    requires Check(r, expected, sent, c).None? && sent <= expected
    ensures Fitting(r, expected as int, sent as int, c)
  {
  }

  /** What was sent is what the provider delivered, well sent, and complete exactly with a terminal chunk. */
  ghost predicate ServedOk(r: Request, provider: Provider, k: nat, from: int, already: int, served: (seq<Chunk>, Result)) {
    var (chunks, result) := served;
    && WellSent(r, chunks, from, already)
    && (result.Complete? <==> chunks != [] && chunks[|chunks| - 1].endOfRead)
    && (forall i :: 0 <= i < |chunks| ==> provider(k + i) == Delivers(chunks[i]))
  }

  lemma NothingServed(r: Request, provider: Provider, k: nat, from: int, already: int, fault: Fault)
    ensures ServedOk(r, provider, k, from, already, ([], Stopped(fault)))
  {
  }

  predicate Fitting(r: Request, from: int, already: int, c: Chunk) {
    && c.offset as int == from && (c.data == [] ==> c.endOfRead) && from + |c.data| <= MAX_UINT64
    && (r.maxChunkBytes > 0 ==> |c.data| <= r.maxChunkBytes as int)
    && (r.length.Some? ==> already + |c.data| <= r.length.value as int)
  }

  lemma LastServed(r: Request, provider: Provider, k: nat, from: int, already: int, c: Chunk)
    requires Fitting(r, from, already, c) && c.endOfRead && provider(k) == Delivers(c)
    ensures ServedOk(r, provider, k, from, already, ([c], Complete))
  {
    assert [c][1..] == [];
  }

  lemma OneMoreServed(r: Request, provider: Provider, k: nat, from: int, already: int, c: Chunk, rest: (seq<Chunk>, Result))
    requires Fitting(r, from, already, c) && !c.endOfRead && provider(k) == Delivers(c)
    requires ServedOk(r, provider, k + 1, from + |c.data|, already + |c.data|, rest)
    ensures ServedOk(r, provider, k, from, already, Prepended([c], rest))
  {
    var all := [c] + rest.0;
    assert all[1..] == rest.0;
    forall i | 0 <= i < |all| ensures provider(k + i) == Delivers(all[i]) {
      if i > 0 { assert provider(k + 1 + (i - 1)) == Delivers(rest.0[i - 1]); }
    }
  }

  /**
    Whatever the provider streams, what is sent is contiguous from the offset, within the length, the chunk
    bound and 64 bits, ends with its only terminal chunk if it has one, and completes exactly then.
   */
  lemma {:induction false} ServedIsWellSent(r: Request, provider: Provider, link: Link, k: nat, expected: uint64,
                                            sent: uint64)
    requires sent <= expected
    ensures ServedOk(r, provider, k, expected as int, sent as int, Serve(r, provider, link, k, expected, sent))
    decreases MAX_UINT64 - expected as int
  {
    hide ServedOk;
    forall fault ensures ServedOk(r, provider, k, expected as int, sent as int, ([], Stopped(fault))) {
      NothingServed(r, provider, k, expected as int, sent as int, fault);
    }
    if provider(k).Delivers? && Check(r, expected, sent, provider(k).chunk).None? && link(k) {
      var c := provider(k).chunk;
      CheckFacts(r, expected, sent, c);
      hide Check;
      if c.endOfRead {
        LastServed(r, provider, k, expected as int, sent as int, c);
      } else {
        var size := Length(c.data);
        ServedIsWellSent(r, provider, link, k + 1, expected + size, sent + size);
        OneMoreServed(r, provider, k, expected as int, sent as int, c,
                      Serve(r, provider, link, k + 1, expected + size, sent + size));
      }
    }
  }

  // ---------- Why a read stops ----------

  /** The first rule, in the order they are checked, that the chunk breaks; on numbers without bounds. */
  predicate Breaks(r: Request, from: int, already: int, c: Chunk, fault: Fault) {
    var follows, filled := c.offset as int == from, c.data != [] || c.endOfRead;
    var small := r.maxChunkBytes > 0 ==> |c.data| <= r.maxChunkBytes as int;
    var within := r.length.Some? ==> already + |c.data| <= r.length.value as int;
    match fault
    case WrongOffset => !follows
    case EmptyChunk => follows && !filled
    case ChunkTooLarge => follows && filled && !small
    case TooLong => follows && filled && small && !within
    case OffsetOverflow => follows && filled && small && within && from + |c.data| > MAX_UINT64
    case _ => false
  }

  lemma CheckMeans(r: Request, expected: uint64, sent: uint64, c: Chunk)
    ensures Check(r, expected, sent, c).None? <==> Fitting(r, expected as int, sent as int, c)
    ensures forall fault :: Check(r, expected, sent, c) == Some(fault) <==>
              Breaks(r, expected as int, sent as int, c, fault)
  {
  }

  /** The read stops at the answer, for the reason given. */
  predicate StopsBy(r: Request, reply: Reply, arrives: bool, from: int, already: int, fault: Fault) {
    match reply
    case EndOfStream => fault == EndedEarly
    case ProviderFails(reason) => fault == FailedWith(reason)
    case NoResponse => fault == NilResponse
    case Delivers(c) =>
      if Fitting(r, from, already, c) then !arrives && fault == SendFailed else Breaks(r, from, already, c, fault)
  }

  lemma ServeGoesOn(r: Request, provider: Provider, link: Link, k: nat, expected: uint64, sent: uint64)
    requires sent <= expected && provider(k).Delivers? && link(k)
    requires Fitting(r, expected as int, sent as int, provider(k).chunk)
    ensures var c, size := provider(k).chunk, |provider(k).chunk.data|;
            && expected as int + size <= MAX_UINT64
            && Serve(r, provider, link, k, expected, sent) ==
               if c.endOfRead then ([c], Complete)
               else Prepended([c], Serve(r, provider, link, k + 1, (expected as int + size) as uint64, (sent as int + size) as uint64))
  {
    CheckMeans(r, expected, sent, provider(k).chunk);
    hide Check, Fitting;
  }

  lemma ServeStops(r: Request, provider: Provider, link: Link, k: nat, expected: uint64, sent: uint64)
    requires sent <= expected
    requires !(provider(k).Delivers? && link(k) && Fitting(r, expected as int, sent as int, provider(k).chunk))
    ensures var (chunks, result) := Serve(r, provider, link, k, expected, sent);
            && chunks == [] && result.Stopped?
            && StopsBy(r, provider(k), link(k), expected as int, sent as int, result.fault)
  {
    if provider(k).Delivers? {
      CheckMeans(r, expected, sent, provider(k).chunk);
    }
    hide Check, Fitting, Breaks;
  }

  lemma BytesOfFirst(c: Chunk, more: seq<Chunk>)
    ensures Bytes([c] + more) == c.data + Bytes(more)
  {
    assert ([c] + more)[1..] == more;
  }

  /**
    A read that does not complete stops at the answer behind what was
    sent: it is no chunk, breaks a rule or is not sent.
   */
  lemma {:induction false} StopsForAReason(r: Request, provider: Provider, link: Link, k: nat, expected: uint64,
                                           sent: uint64)
    requires sent <= expected
    ensures var (chunks, result) := Serve(r, provider, link, k, expected, sent);
            var n, bytes := k + |chunks|, |Bytes(chunks)|;
            result.Stopped? ==> StopsBy(r, provider(n), link(n), expected as int + bytes, sent as int + bytes, result.fault)
    decreases MAX_UINT64 - expected as int
  {
    hide Serve, StopsBy;
    if provider(k).Delivers? && link(k) && Fitting(r, expected as int, sent as int, provider(k).chunk) {
      ServeGoesOn(r, provider, link, k, expected, sent);
      var c := provider(k).chunk;
      if !c.endOfRead {
        assert c.data != [];
        hide Fitting;
        var next, already := (expected as int + |c.data|) as uint64, (sent as int + |c.data|) as uint64;
        StopsForAReason(r, provider, link, k + 1, next, already);
        BytesOfFirst(c, Serve(r, provider, link, k + 1, next, already).0);
        hide Bytes;
      }
    } else {
      ServeStops(r, provider, link, k, expected, sent);
    }
  }

  /** The provider answers with the chunks, one after another, and they can be sent. */
  ghost predicate Streams(provider: Provider, link: Link, k: nat, chunks: seq<Chunk>) {
    forall i :: 0 <= i < |chunks| ==> provider(k + i) == Delivers(chunks[i]) && link(k + i)
  }

  lemma StreamsFirst(provider: Provider, link: Link, k: nat, chunks: seq<Chunk>)
    requires Streams(provider, link, k, chunks) && chunks != []
    ensures provider(k) == Delivers(chunks[0]) && link(k) && Streams(provider, link, k + 1, chunks[1..])
  {
    assert provider(k + 0) == Delivers(chunks[0]) && link(k + 0);
    forall i | 0 <= i < |chunks| - 1 ensures provider(k + 1 + i) == Delivers(chunks[1..][i]) && link(k + 1 + i) {
      assert provider(k + (i + 1)) == Delivers(chunks[i + 1]) && link(k + (i + 1));
    }
  }

  /** Chunks that may be sent, the last one terminal. */
  ghost predicate Whole(r: Request, chunks: seq<Chunk>, from: int, already: int) {
    WellSent(r, chunks, from, already) && chunks != [] && chunks[|chunks| - 1].endOfRead
  }

  lemma WholeFirst(r: Request, chunks: seq<Chunk>, from: int, already: int)
    requires Whole(r, chunks, from, already)
    ensures var c, more := chunks[0], chunks[1..];
            && Fitting(r, from, already, c) && chunks == [c] + more
            && (if c.endOfRead then chunks == [c] else c.data != [] && Whole(r, more, from + |c.data|, already + |c.data|))
  {
  }

  /** Whatever stream delivers chunks that may be sent, the last one terminal, completes with exactly those chunks. */
  lemma {:induction false} WellFormedCompletes(r: Request, provider: Provider, link: Link, k: nat, expected: uint64,
                                               sent: uint64,
                                               chunks: seq<Chunk>)
    requires sent <= expected && Whole(r, chunks, expected as int, sent as int) && Streams(provider, link, k, chunks)
    ensures Serve(r, provider, link, k, expected, sent) == (chunks, Complete)
    decreases |chunks|
  {
    WholeFirst(r, chunks, expected as int, sent as int);
    hide Serve, Streams, Whole;
    StreamsFirst(provider, link, k, chunks);
    ServeGoesOn(r, provider, link, k, expected, sent);
    hide Fitting;
    var c := chunks[0];
    if !c.endOfRead {
      var next, already := (expected as int + |c.data|) as uint64, (sent as int + |c.data|) as uint64;
      WellFormedCompletes(r, provider, link, k + 1, next, already, chunks[1..]);
    }
  }

  // ---------- The in-memory stream ----------

  const MAX_LOB_CHUNK_BYTES: uint64 := 0x1_0000

  datatype Stream = Stream(data: Data, offset: uint64, chunkSize: uint64, done: bool)

  predicate StreamOk(s: Stream) {
    s.chunkSize > 0 && s.offset as int + |s.data| <= MAX_UINT64
  }

  /** The end of the requested range of an object, or None when it starts behind the object's end. */
  function RangeEnd(size: uint64, offset: uint64, length: Option<uint64>): Option<uint64> {
    if offset > size then None
    else if length.Some? && length.value < size - offset then Some(offset + length.value)
    else Some(size)
  }

  method OpenLob(lob: Data, r: Request) returns (s: Option<Stream>)
    ensures s == match RangeEnd(Length(lob), r.offset, r.length)
                 case None => None
                 case Some(end) =>
                   Some(Stream(lob[r.offset..end], r.offset,
                               if 0 < r.maxChunkBytes < 65536 then r.maxChunkBytes else 65536,
                               false))
  {
    var offset := r.offset;
    var size := Length(lob);
    if offset > size {
      return None;
    }
    var end := size;
    if r.length.Some? && r.length.value < size - offset {
      end := offset + r.length.value;
    }
    var chunkSize := MAX_LOB_CHUNK_BYTES;
    if r.maxChunkBytes > 0 && r.maxChunkBytes < chunkSize {
      chunkSize := r.maxChunkBytes;
    }
    return Some(Stream(lob[offset..end], offset, chunkSize, false));
  }

  function NextChunk(s: Stream): (Reply, Stream)
    requires StreamOk(s)
  {
    if s.done then (EndOfStream, s)
    else
      var n := if Length(s.data) > s.chunkSize then s.chunkSize else Length(s.data);
      var last := n == Length(s.data);
      (Delivers(Chunk(s.offset, s.data[..n], last)), Stream(s.data[n..], s.offset + n, s.chunkSize, last))
  }

  /** The stream, advanced in place. */
  class InMemoryLobStream {
    var data: Data
    var offset: uint64
    const chunkSize: uint64
    var done: bool
    var closed: bool

    ghost function View(): Stream
      reads this
    {
      Stream(data, offset, chunkSize, done)
    }

    ghost predicate Valid()
      reads this
    {
      StreamOk(View())
    }

    constructor (s: Stream)
      requires StreamOk(s)
      ensures Valid() && View() == s && !closed
    {
      data, offset, chunkSize, done, closed := s.data, s.offset, s.chunkSize, s.done, false;
    }

    method Next() returns (reply: Reply)
      requires Valid()
      modifies this`data, this`offset, this`done
      ensures Valid()
      ensures (reply, View()) == if closed then (EndOfStream, old(View())) else NextChunk(old(View()))
    {
      if closed || done {
        return EndOfStream;
      }
      var chunkLength := Length(data);
      if chunkLength > chunkSize {
        chunkLength := chunkSize;
      }
      var endOfRead := chunkLength == Length(data);
      reply := Delivers(Chunk(offset, data[..chunkLength], endOfRead));
      offset := offset + chunkLength;
      data := data[chunkLength..];
      done := endOfRead;
    }
  }

  /** The k-th answer of an open in-memory stream. */
  function Answer(s: Stream, k: nat): Reply
    requires StreamOk(s)
    decreases k
  {
    var (reply, next) := NextChunk(s);
    if k == 0 then reply else Answer(next, k - 1)
  }

  /** The stream's answers from one point on are those of the stream as it is then. */
  ghost predicate Continues(provider: Provider, k: nat, s: Stream)
    requires StreamOk(s)
  {
    forall i: nat :: provider(k + i) == Answer(s, i)
  }

  lemma ContinuesNext(provider: Provider, k: nat, s: Stream)
    requires StreamOk(s) && Continues(provider, k, s)
    ensures provider(k) == NextChunk(s).0 && Continues(provider, k + 1, NextChunk(s).1)
  {
    assert provider(k + 0) == Answer(s, 0);
    forall i: nat ensures provider(k + 1 + i) == Answer(NextChunk(s).1, i) {
      assert provider(k + (i + 1)) == Answer(s, i + 1);
    }
  }

  /** The request admits what the stream holds: the bounds the server checks cannot be broken. */
  predicate Admits(r: Request, s: Stream, sent: uint64) {
    && StreamOk(s) && !s.done
    && (r.maxChunkBytes > 0 ==> s.chunkSize <= r.maxChunkBytes)
    && (r.length.Some? ==> sent as int + |s.data| <= r.length.value as int)
  }

  /** Served from an in-memory stream over a working link, a read completes with exactly the stream's bytes. */
  lemma {:induction false} StreamIsDelivered(r: Request, provider: Provider, link: Link, k: nat, s: Stream, sent: uint64)
    requires Admits(r, s, sent) && sent <= s.offset && Continues(provider, k, s) && forall i :: link(i)
    ensures var (chunks, result) := Serve(r, provider, link, k, s.offset, sent);
            result == Complete && Bytes(chunks) == s.data
    decreases |s.data|
  {
    ContinuesNext(provider, k, s);
    var next := NextChunk(s).1;
    var c := NextChunk(s).0.chunk;
    assert Check(r, s.offset, sent, c).None?;
    hide Check;
    if c.endOfRead {
      assert Bytes([c][1..]) == [] && c.data == s.data;
      assert Bytes([c]) == c.data + [] == c.data;
    } else {
      StreamIsDelivered(r, provider, link, k + 1, next, sent + Length(c.data));
      var (more, result) := Serve(r, provider, link, k + 1, next.offset, sent + Length(c.data));
      assert ([c] + more)[1..] == more;
      assert c.data + next.data == s.data;
    }
  }

  /**
    Reading an object held in memory always completes, with exactly the bytes
    from the offset to the end of the requested range.
   */
  lemma InMemoryReadDeliversRange(lob: Data, r: Request, s: Stream, provider: Provider, link: Link)
    requires r.offset <= Length(lob)
    requires s == Stream(lob[r.offset..RangeEnd(Length(lob), r.offset, r.length).value], r.offset,
                         if 0 < r.maxChunkBytes < 65536 then r.maxChunkBytes else 65536, false)
    requires StreamOk(s) && Continues(provider, 0, s) && forall i :: link(i)
    ensures var (chunks, result) := Serve(r, provider, link, 0, r.offset, 0);
            var end := if r.length.Some? && r.offset as int + r.length.value as int < |lob|
                       then r.offset as int + r.length.value as int else |lob|;
            result == Complete && Bytes(chunks) == lob[r.offset as int..end]
  {
    StreamIsDelivered(r, provider, link, 0, s, 0);
  }
}
