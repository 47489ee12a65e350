/**
 * One proxied connection (`src/connection.rs`): the session that reads the
 * SOCKS4 request (or uses the configured target), dials the target, replies
 * to the client, and then relays bytes, and the copy loop each relay
 * direction runs.
 */
module Connection {
  import opened Results
  import opened Net
  import opened Errors
  import opened Streams
  import opened Config
  import opened Socks4

  /** The size of the buffer each relay direction reads into and writes from. */
  const BufferSize := 4096

  /** What one `read` into that buffer can hand back: at most `BufferSize` bytes. */
  type Chunk = s: seq<Byte> | |s| <= BufferSize

  /** How the source of a relay direction ends once its chunks are used up. */
  datatype ReadEnd = Eof | ReadFault(err: IoError)

  /**
   * The source of a relay direction: its i-th `read` returns `chunks[i]`, and
   * every read after the last chunk returns `end`. A zero-length chunk is an
   * end of stream.
   */
  datatype ReadScript = ReadScript(chunks: seq<Chunk>, end: ReadEnd)

  /** The destination of a relay direction: every write succeeds, or the write of the `index`-th chunk (with its flush) fails with `err`. */
  datatype WriterBehaviour = Accepting | FailsOnWrite(index: nat, err: IoError)

  /** The concatenation of `chunks`, in order. */
  function Flatten(chunks: seq<seq<Byte>>): seq<Byte>
  {
    if chunks == [] then [] else Flatten(chunks[..|chunks| - 1]) + chunks[|chunks| - 1]
  }

  /** The index of the first zero-length chunk, or `|chunks|` when there is none. */
  function FirstEmpty(chunks: seq<seq<Byte>>): (k: nat)
    ensures k <= |chunks|
    ensures forall i | 0 <= i < k :: chunks[i] != []
    ensures k < |chunks| ==> chunks[k] == []
  {
    if chunks == [] || chunks[0] == [] then 0 else 1 + FirstEmpty(chunks[1..])
  }

  /** What a run of the copy loop did: the buffers passed to `write_all`, the bytes the writer took, the number of reads, and the outcome. */
  datatype Forwarded = Forwarded(writes: seq<seq<Byte>>, written: seq<Byte>, readCalls: nat, result: Result<(), IoError>)

  /**
   * The copy loop's run on `source` and `sink`: every chunk up to the first
   * zero-length read is written, in order; the loop ends Ok at that read or at
   * the end of stream, and with the error at a read fault or at the first
   * failing write.
   */
  function Forward(source: ReadScript, sink: WriterBehaviour): Forwarded
  {
    var chunks := source.chunks;
    var k := FirstEmpty(chunks);
    if sink.FailsOnWrite? && sink.index < k then
      Forwarded(chunks[..sink.index + 1], Flatten(chunks[..sink.index]), sink.index + 1, Err(sink.err))
    else if k < |chunks| then
      Forwarded(chunks[..k], Flatten(chunks[..k]), k + 1, Ok(()))
    else
      Forwarded(chunks, Flatten(chunks), k + 1, if source.end.Eof? then Ok(()) else Err(source.end.err))
  }

  /**
   * `forward_data`: reads from the source into one reused 4096-byte buffer and
   * writes (and flushes) exactly the bytes just read, until a read returns
   * zero bytes or a read or write fails.
   */
  method ForwardData(source: ReadScript, sink: WriterBehaviour)
    returns (writes: seq<seq<Byte>>, written: seq<Byte>, readCalls: nat, result: Result<(), IoError>)
    ensures Forwarded(writes, written, readCalls, result) == Forward(source, sink)
  {
    var buffer := new Byte[BufferSize];
    writes, written, readCalls := [], [], 0;
    while true
      invariant readCalls <= FirstEmpty(source.chunks)
      invariant writes == source.chunks[..readCalls]
      invariant written == Flatten(writes)
      invariant sink.FailsOnWrite? ==> readCalls <= sink.index
      decreases |source.chunks| - readCalls
    {
      // One read into the reused buffer: n bytes, or the end of stream, or a fault.
      var n: nat;
      if readCalls < |source.chunks| {
        var chunk := source.chunks[readCalls];
        Fill(buffer, chunk);
        n := |chunk|;
      } else {
        assert source.chunks[..readCalls] == source.chunks;
        match source.end
        case Eof =>
          n := 0;
        case ReadFault(e) =>
          readCalls := readCalls + 1;
          result := Err(e);
          return;
      }
      readCalls := readCalls + 1;
      if n == 0 {
        result := Ok(());
        return;
      }
      // Write and flush exactly the n bytes just read; bytes past them are left from earlier reads.
      var data := buffer[..n];
      assert data == source.chunks[readCalls - 1];
      assert source.chunks[..readCalls] == source.chunks[..readCalls - 1] + [data];
      writes := writes + [data];
      if sink.FailsOnWrite? && sink.index == readCalls - 1 {
        result := Err(sink.err);
        return;
      }
      assert writes[..|writes| - 1] == source.chunks[..readCalls - 1];
      written := written + data;
    }
  }

  /** A read that hands back `chunk` puts it at the front of `buffer`, leaving the rest as it was. */
  method Fill(buffer: array<Byte>, chunk: seq<Byte>)
    requires |chunk| <= buffer.Length
    modifies buffer
    ensures buffer[..|chunk|] == chunk
    ensures buffer[|chunk|..] == old(buffer[|chunk|..])
  {
    forall i | 0 <= i < |chunk| {
      buffer[i] := chunk[i];
    }
  }

  lemma {:induction false} FlattenPrefix(chunks: seq<seq<Byte>>, i: nat, j: nat)
    requires i <= j <= |chunks|
    ensures Flatten(chunks[..i]) <= Flatten(chunks[..j])
    decreases j - i
  {
    if i < j {
      FlattenPrefix(chunks, i, j - 1);
      assert chunks[..j][..j - 1] == chunks[..j - 1];
    }
  }

  lemma {:induction false} FlattenAppend(a: seq<seq<Byte>>, b: seq<seq<Byte>>)
    ensures Flatten(a + b) == Flatten(a) + Flatten(b)
    decreases |b|
  {
    if b == [] {
      assert a + b == a;
    } else {
      var b' := b[..|b| - 1];
      assert (a + b)[..|a + b| - 1] == a + b';
      FlattenAppend(a, b');
      assert (a + b)[|a + b| - 1] == b[|b| - 1];
    }
  }

  /** What the writer receives is always a prefix of the bytes read before the first zero-length read: nothing is invented or reordered. */
  lemma ForwardWritesPrefixOfInput(source: ReadScript, sink: WriterBehaviour)
    ensures Forward(source, sink).written <= Flatten(source.chunks[..FirstEmpty(source.chunks)])
  {
    var k := FirstEmpty(source.chunks);
    if sink.FailsOnWrite? && sink.index < k {
      FlattenPrefix(source.chunks, sink.index, k);
    } else if k == |source.chunks| {
      assert source.chunks[..k] == source.chunks;
    }
  }

  /** A run that ends Ok stopped at the first zero-length read (or the end of stream) and wrote every byte read, in order. */
  lemma ForwardOkIsLossless(source: ReadScript, sink: WriterBehaviour)
    requires Forward(source, sink).result.Ok?
    ensures var k := FirstEmpty(source.chunks);
      && Forward(source, sink).written == Flatten(source.chunks[..k])
      && Forward(source, sink).readCalls == k + 1
      && (k < |source.chunks| || source.end == Eof)
  {
    var k := FirstEmpty(source.chunks);
    if k == |source.chunks| {
      assert source.chunks[..k] == source.chunks;
    }
  }

  /** Every buffer handed to the writer holds between 1 and 4096 bytes, and the bytes taken are those of the writes that succeeded. */
  lemma ForwardWriteSizes(source: ReadScript, sink: WriterBehaviour)
    ensures var f := Forward(source, sink);
      && (forall i | 0 <= i < |f.writes| :: 0 < |f.writes[i]| <= BufferSize)
      && (f.result.Ok? ==> f.written == Flatten(f.writes))
  {
    var k := FirstEmpty(source.chunks);
    if k == |source.chunks| {
      assert source.chunks[..k] == source.chunks;
    }
  }

  /** A run that fails reports either the failing write's error or the source's read fault. */
  lemma ForwardErrorCause(source: ReadScript, sink: WriterBehaviour)
    requires Forward(source, sink).result.Err?
    ensures var e := Forward(source, sink).result.error;
      (sink.FailsOnWrite? && e == sink.err) || source.end == ReadFault(e)
  {
  }

  /** `data` as a reader with a 4096-byte buffer may hand it over: full buffers, then the rest. */
  function SplitReads(data: seq<Byte>): (chunks: seq<Chunk>)
    decreases |data|
  {
    if data == [] then []
    else if |data| <= BufferSize then [data]
    else [data[..BufferSize]] + SplitReads(data[BufferSize..])
  }

  lemma {:induction false} SplitReadsFlatten(data: seq<Byte>)
    ensures Flatten(SplitReads(data)) == data
    ensures FirstEmpty(SplitReads(data)) == |SplitReads(data)|
    decreases |data|
  {
    if data == [] {
    } else if |data| <= BufferSize {
      assert SplitReads(data)[..0] == [];
    } else {
      var rest := SplitReads(data[BufferSize..]);
      SplitReadsFlatten(data[BufferSize..]);
      FlattenAppend([data[..BufferSize]], rest);
      assert [data[..BufferSize]][..0] == [];
      assert data == data[..BufferSize] + data[BufferSize..];
    }
  }

  /** Relaying any byte string, read in full buffers and ended by a clean end of stream, delivers it byte for byte and ends Ok. */
  lemma RelayIsLossless(data: seq<Byte>)
    ensures var f := Forward(ReadScript(SplitReads(data), Eof), Accepting);
      f.result == Ok(()) && f.written == data
  {
    SplitReadsFlatten(data);
  }

  /** Which relay direction finishes first. */
  datatype Direction = ClientToServer | ServerToClient

  /** The relay direction that completes first, with its source and destination; the other direction is abandoned. */
  datatype RelayRace = RelayRace(first: Direction, source: ReadScript, sink: WriterBehaviour)

  /** Why `handle` fails. */
  datatype HandleError =
    | Handshake(decode: DecodeError)
    | CommandRejected(command: Byte)
    | ReplyWrite(io: IoError)
    | ConnectFailed(io: IoError)

  /** `ConnectionHandler`: one accepted client connection and the configured mode. */
  class ConnectionHandler {
    const client: DuplexStream
    const clientAddr: SocketAddr
    const mode: ProxyMode

    /** `ConnectionHandler::new`. */
    constructor (client: DuplexStream, clientAddr: SocketAddr, mode: ProxyMode)
      ensures this.client == client && this.clientAddr == clientAddr && this.mode == mode
    {
      this.client := client;
      this.clientAddr := clientAddr;
      this.mode := mode;
    }

    /**
     * `handle_socks4_handshake`: reads one request from the client. A CONNECT
     * yields its destination; any other decoded command is answered with the
     * rejection frame and fails, and a failure to write that frame is what is
     * reported.
     */
    method HandleSocks4Handshake() returns (r: Result<SocketAddr, HandleError>)
      modifies client
      ensures var d := Decode(old(client.unread));
        && client.unread == old(client.unread)[d.consumed..]
        && (d.result.Err? ==> r == Err(Handshake(d.result.error)) && client.outgoing == old(client.outgoing))
        && (d.result.Ok? && d.result.value.command == CommandConnect ==>
              r == Ok(V4(d.result.value.DestinationAddr())) && client.outgoing == old(client.outgoing))
        && (d.result.Ok? && d.result.value.command != CommandConnect ==>
              && client.outgoing == old(client.outgoing) + client.Delivered(Socks4Response.Failure().Encode())
              && r == if client.writeError.Some? then Err(ReplyWrite(client.writeError.value))
                      else Err(CommandRejected(d.result.value.command)))
    {
      var request, consumed := Socks4Request.ReadFrom(client.unread);
      client.Consume(consumed);
      if request.Err? {
        return Err(Handshake(request.error));
      }
      var req := request.value;
      if req.command != CommandConnect {
        var response := Socks4Response.Failure();
        var written := response.WriteTo(client);
        if written.Err? {
          return Err(ReplyWrite(written.error));
        }
        return Err(CommandRejected(req.command));
      }
      r := Ok(V4(req.DestinationAddr()));
    }

    /**
     * `forward_traffic`: relays in both directions until the first of them
     * completes; that direction's result is only logged, and the connection
     * ends Ok however it finished.
     */
    method ForwardTraffic(race: RelayRace) returns (r: Result<(), HandleError>)
      ensures r == Ok(())
    {
      var writes, written, readCalls, result := ForwardData(race.source, race.sink);
      r := Ok(());
    }

    /**
     * `handle`: finds the target (the configured one, or by the SOCKS4
     * handshake), dials it once, tells a SOCKS4 client the outcome with one
     * reply frame, and relays.
     */
    method Handle(dialer: Dialer, race: RelayRace) returns (r: Result<(), HandleError>)
      modifies client, dialer
      // Direct mode: no handshake is read and no frame is written, whatever the dial gives.
      ensures mode.Direct? ==>
        && client.unread == old(client.unread)
        && client.outgoing == old(client.outgoing)
        && dialer.dialed == old(dialer.dialed) + [mode.target]
        && r == if dialer.outcome.Ok? then Ok(()) else Err(ConnectFailed(dialer.outcome.error))
      // SOCKS4 mode readCalls exactly one request.
      ensures mode.Socks4? ==>
        client.unread == old(client.unread)[Decode(old(client.unread)).consumed..]
      // A request that does not decode: its error, no reply, no dial.
      ensures mode.Socks4? && Decode(old(client.unread)).result.Err? ==>
        && client.outgoing == old(client.outgoing)
        && dialer.dialed == old(dialer.dialed)
        && r == Err(Handshake(Decode(old(client.unread)).result.error))
      // A decoded command other than CONNECT: one rejection frame, no dial, an error (the write's, if it failed).
      ensures mode.Socks4? && Decode(old(client.unread)).result.Ok? ==>
        var req := Decode(old(client.unread)).result.value;
        req.command != CommandConnect ==>
          && client.outgoing == old(client.outgoing) + client.Delivered(Socks4Response.Failure().Encode())
          && dialer.dialed == old(dialer.dialed)
          && r == if client.writeError.Some? then Err(ReplyWrite(client.writeError.value)) else Err(CommandRejected(req.command))
      // CONNECT: one dial to the requested destination, then one reply: the rejection frame if the dial
      // failed (its write error ignored, the dial's error returned), else the grant echoing the destination.
      ensures mode.Socks4? && Decode(old(client.unread)).result.Ok? ==>
        var req := Decode(old(client.unread)).result.value;
        req.command == CommandConnect ==>
          && dialer.dialed == old(dialer.dialed) + [V4(req.DestinationAddr())]
          && client.outgoing == old(client.outgoing) + client.Delivered(
               if dialer.outcome.Ok? then Socks4Response.Success(req.DestinationAddr()).Encode()
               else Socks4Response.Failure().Encode())
          && r == if dialer.outcome.Err? then Err(ConnectFailed(dialer.outcome.error))
                  else if client.writeError.Some? then Err(ReplyWrite(client.writeError.value))
                  else Ok(())
    {
      var targetAddr: SocketAddr;
      match mode {
        case Direct(addr) =>
          targetAddr := addr;
        case Socks4 =>
          var target := HandleSocks4Handshake();
          if target.Err? {
            return Err(target.error);
          }
          targetAddr := target.value;
      }
      var connected := dialer.Connect(targetAddr);
      if connected.Err? {
        if mode.Socks4? {
          var response := Socks4Response.Failure();
          var ignored := response.WriteTo(client);
        }
        return Err(ConnectFailed(connected.error));
      }
      if mode.Socks4? {
        var response := match Socks4Response.TryFromSocketAddr(targetAddr)
          case Ok(granted) => granted
          case Err(_) => Socks4Response.Failure();
        var written := response.WriteTo(client);
        if written.Err? {
          return Err(ReplyWrite(written.error));
        }
      }
      r := ForwardTraffic(race);
    }
  }
}
