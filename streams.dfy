/**
 * The sockets a connection talks to, reduced to what the proxy observes of
 * them: the bytes a peer sends, the bytes written back to it, whether writes
 * succeed, and the outcome of dialling the target.
 */
module Streams {
  import opened Results
  import opened Net
  import opened Errors

  /**
   * One end of a TCP connection as the proxy sees it. `unread` is what the
   * peer has sent and the proxy has not read yet (end of stream after it);
   * `outgoing` is what the proxy has written and flushed to the peer. Whether
   * writes succeed is fixed for the stream: with `writeError == None` every
   * write succeeds, otherwise every write fails with that error.
   */
  class DuplexStream {
    var unread: seq<Byte>
    var outgoing: seq<Byte>
    const writeError: Option<IoError>

    constructor (incoming: seq<Byte>, writeError: Option<IoError>)
      ensures unread == incoming && outgoing == []
      ensures this.writeError == writeError
    {
      unread := incoming;
      outgoing := [];
      this.writeError := writeError;
    }

    /** What a successful write of `bytes` adds to `outgoing`: all of them, or nothing when writes fail. */
    function Delivered(bytes: seq<Byte>): seq<Byte>
    {
      if writeError.None? then bytes else []
    }

    /** The reader's cursor moves past `n` bytes it has read. */
    method Consume(n: nat)
      requires n <= |unread|
      modifies this`unread
      ensures unread == old(unread)[n..]
    {
      unread := unread[n..];
    }

    /** `write_all`: the bytes reach the peer in full, or the write fails and nothing does. */
    method WriteAll(bytes: seq<Byte>) returns (r: Result<(), IoError>)
      modifies this`outgoing
      ensures r.Ok? <==> writeError.None?
      ensures r.Err? ==> r.error == writeError.value
      ensures outgoing == old(outgoing) + Delivered(bytes)
    {
      if writeError.None? {
        outgoing := outgoing + bytes;
        r := Ok(());
      } else {
        r := Err(writeError.value);
      }
    }

    /** `flush`: everything written is already in `outgoing`; fails like a write. */
    method Flush() returns (r: Result<(), IoError>)
      ensures r.Ok? <==> writeError.None?
      ensures r.Err? ==> r.error == writeError.value
    {
      r := if writeError.None? then Ok(()) else Err(writeError.value);
    }
  }

  /**
   * `TcpStream::connect` as seen from one connection: every call returns
   * `outcome`, and `dialed` records each address a connection was attempted to.
   */
  class Dialer {
    const outcome: Result<(), IoError>
    var dialed: seq<SocketAddr>

    constructor (outcome: Result<(), IoError>)
      ensures this.outcome == outcome && dialed == []
    {
      this.outcome := outcome;
      dialed := [];
    }

    method Connect(addr: SocketAddr) returns (r: Result<(), IoError>)
      modifies this
      ensures dialed == old(dialed) + [addr]
      ensures r == outcome
    {
      dialed := dialed + [addr];
      r := outcome;
    }
  }
}
