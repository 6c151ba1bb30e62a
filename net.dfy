/** The network seen from the transport: a TCP address, the outcomes of the calls into
    the operating system that the model cannot see (dial, write, close), and a socket
    object that records what was written to it and serves the bytes its peer sent. */
module Net {
  import opened Base
  import Tls

  /** `net.TCPAddr`, as produced by `net.ResolveTCPAddr`. */
  datatype TcpAddr = TcpAddr(ip: seq<uint8>, port: int, zone: string)

  /** `net.ResolveTCPAddr("tcp", s)`: an oracle, since it may consult the resolver. */
  type Resolver = string -> Result<TcpAddr>

  /** How a socket came to exist: dialled by this node (to `addr`, with `dialTimeout`
      as the dialer's timeout and `tlsConfig` as the TLS client configuration), or
      accepted from a listener. */
  datatype Origin =
    | Dialed(addr: string, dialTimeout: Duration, tlsConfig: Option<Tls.Config>)
    | Accepted

  /** Outcome of `tls.DialWithDialer`: a socket whose peer will send `inbound`, or an
      error. */
  datatype DialOutcome = DialOk(inbound: seq<uint8>) | DialErr(error: string)

  /** Outcome of one `net.Conn.Write` call, chosen by the environment. */
  datatype WriteOutcome = WriteOutcome(n: int, err: Option<string>)

  /** The error `io.ReadFull` reports when the stream ends after `got` bytes, before it
      could fill its buffer: `io.EOF` when nothing was read, `io.ErrUnexpectedEOF`
      otherwise. */
  function ReadFullError(got: nat): (e: string)
    ensures e == "EOF" <==> got == 0
  {
    if got == 0 then "EOF" else "unexpected EOF"
  }

  /** A `net.Conn`. `inbound` holds the bytes the peer has sent that have not been
      consumed; `writes` holds the buffer of every `Write` call, in order, so that one
      call is one contiguous run on the wire. */
  class NetConn {
    const origin: Origin
    var inbound: seq<uint8>
    var writes: seq<seq<uint8>>
    var closed: bool

    constructor (origin: Origin, inbound: seq<uint8>)
      ensures this.origin == origin && this.inbound == inbound
      ensures writes == [] && !closed
    {
      this.origin := origin;
      this.inbound := inbound;
      writes := [];
      closed := false;
    }

    /** `net.Conn.Write(b)`: the call hands over all of `b` at once, and the
        environment decides what it returns. */
    method Write(b: seq<uint8>, outcome: WriteOutcome) returns (n: int, err: Option<string>)
      modifies this
      ensures writes == old(writes) + [b]
      ensures inbound == old(inbound) && closed == old(closed)
      ensures n == outcome.n && err == outcome.err
    {
      writes := writes + [b];
      n, err := outcome.n, outcome.err;
    }

    /** `io.ReadFull` of `count` bytes: either exactly `count` bytes, or an error once
        the stream ends early (having consumed what there was). */
    method ReadFull(count: nat) returns (data: seq<uint8>, err: Option<string>)
      modifies this
      ensures err.None? <==> count <= |old(inbound)|
      ensures err.None? ==> data == old(inbound)[..count] && inbound == old(inbound)[count..]
      ensures err.Some? ==> err == Some(ReadFullError(|old(inbound)|)) && inbound == []
      ensures writes == old(writes) && closed == old(closed)
    {
      if count <= |inbound| {
        data, err := inbound[..count], None;
        inbound := inbound[count..];
      } else {
        data, err := [], Some(ReadFullError(|inbound|));
        inbound := [];
      }
    }

    /** `net.Conn.Close()`: the socket is closed and the environment decides the error. */
    method Close(outcome: Option<string>) returns (err: Option<string>)
      modifies this
      ensures closed && err == outcome
      ensures inbound == old(inbound) && writes == old(writes)
    {
      closed := true;
      err := outcome;
    }
  }
}
