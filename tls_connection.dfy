/** `tlsConn`: one TLS socket, the write timeout it was dialled with and a liveness
    flag. Writes and closes change the flag; it starts true and can only become false.
    Packets and stream signals are written through it in the wire format of module
    Wire, and `Read` decodes one frame from it. The mutex is left out: calls are taken
    one at a time. */
module TlsConnection {
  import opened Base
  import opened Net
  import opened Wire
  import Tls

  class TlsConn {
    /** The socket; nil only when built by RcvTlsConn from a nil connection. */
    const connection: NetConn?
    const timeout: Duration
    var live: bool

    /** The struct literal of `dialTLSConn` and `rcvTLSConn`. */
    constructor (connection: NetConn?, timeout: Duration)
      ensures this.connection == connection && this.timeout == timeout
      ensures live
    {
      this.connection := connection;
      this.timeout := timeout;
      live := true;
    }

    /** `Write`: exactly one socket write with the whole buffer; the connection dies
        exactly when that write fails, and the socket's result is returned unchanged. */
    method Write(b: seq<uint8>, outcome: WriteOutcome) returns (n: int, err: Option<string>)
      requires connection != null
      modifies this, connection
      ensures connection.writes == old(connection.writes) + [b]
      ensures connection.inbound == old(connection.inbound) && connection.closed == old(connection.closed)
      ensures n == outcome.n && err == outcome.err
      ensures live == (old(live) && err.None?)
    {
      n, err := connection.Write(b, outcome);
      if err.Some? {
        live := false;
      }
    }

    /** `alive`: reads the flag and changes nothing. */
    method Alive() returns (b: bool)
      ensures b == live
    {
      b := live;
    }

    /** `writePacket`: marshal a PACKET envelope from `fromAddr` carrying `b` and write
        it behind its length in a single `Write`; a marshalling error writes nothing. */
    method WritePacket(codec: Codec, fromAddr: string, b: seq<uint8>, outcome: WriteOutcome)
      returns (err: Option<string>)
      requires connection != null
      modifies this, connection
      ensures match EncodePacket(codec, fromAddr, b)
              case Err(e) =>
                && err == Some(e)
                && connection.writes == old(connection.writes)
                && live == old(live)
              case Ok(frame) =>
                && connection.writes == old(connection.writes) + [frame]
                && err == outcome.err
                && live == (old(live) && outcome.err.None?)
      ensures connection.inbound == old(connection.inbound) && connection.closed == old(connection.closed)
    {
      match EncodePacket(codec, fromAddr, b)
      case Err(e) =>
        err := Some(e);
      case Ok(frame) =>
        var _, e := Write(frame, outcome);
        err := e;
    }

    /** `writeStream`: the same framing around the STREAM envelope, which has no address
        and no payload. */
    method WriteStream(codec: Codec, outcome: WriteOutcome) returns (err: Option<string>)
      requires connection != null
      modifies this, connection
      ensures match EncodeStream(codec)
              case Err(e) =>
                && err == Some(e)
                && connection.writes == old(connection.writes)
                && live == old(live)
              case Ok(frame) =>
                && connection.writes == old(connection.writes) + [frame]
                && err == outcome.err
                && live == (old(live) && outcome.err.None?)
      ensures connection.inbound == old(connection.inbound) && connection.closed == old(connection.closed)
    {
      match EncodeStream(codec)
      case Err(e) =>
        err := Some(e);
      case Ok(frame) =>
        var _, e := Write(frame, outcome);
        err := e;
    }

    /** `read`: on a nil connection an error without reading; otherwise read the 4-byte
        length, then exactly that many bytes, then parse and dispatch on the kind. Its
        result is DecodeFrame of the bytes the peer sent. What is left in the socket
        afterwards is not specified, since the buffered reader may read ahead. */
    method Read(codec: Codec, resolve: Resolver, now: int) returns (r: ReadResult)
      modifies connection
      ensures connection == null ==> r == ReadError("nil connection")
      ensures connection != null ==> r == DecodeFrame(codec, resolve, now, old(connection.inbound))
      ensures connection != null ==> connection.writes == old(connection.writes) && connection.closed == old(connection.closed)
    {
      if connection == null {
        return ReadError("nil connection");
      }
      ghost var input := connection.inbound;
      var lenBuf, err := connection.ReadFull(LengthPrefixSize);
      if err.Some? {
        return ReadError(Wrap(err.value, "error reading message length"));
      }
      assert lenBuf == input[..LengthPrefixSize];
      var msgLen := Uint32LE(lenBuf);
      var msgBuf;
      msgBuf, err := connection.ReadFull(msgLen);
      if err.Some? {
        return ReadError(Wrap(err.value, "error reading message"));
      }
      assert msgBuf == FrameBody(input);
      var pb := codec.unmarshal(msgBuf);
      if pb.Err? {
        return ReadError(Wrap(pb.error, "error parsing message"));
      }
      r := Dispatch(pb.value, resolve, now);
    }

    /** `Close`: the connection is dead afterwards whatever happens; a nil socket is not
        touched and yields no error, otherwise the socket is closed and its error
        returned. */
    method Close(outcome: Option<string>) returns (err: Option<string>)
      modifies this, connection
      ensures !live
      ensures connection == null ==> err == None
      ensures connection != null ==> connection.closed && err == outcome
      ensures connection != null ==> connection.writes == old(connection.writes) && connection.inbound == old(connection.inbound)
    {
      live := false;
      if connection == null {
        return None;
      }
      err := connection.Close(outcome);
    }
  }

  /** `dialTLSConn`: dial `addr` with `timeout` as the dialer's timeout; on success a
      new live connection recording `timeout`, on failure the dial error and nothing. */
  method DialTlsConn(addr: string, timeout: Duration, tlsConfig: Option<Tls.Config>, dial: DialOutcome)
    returns (conn: TlsConn?, err: Option<string>)
    ensures err.None? <==> dial.DialOk?
    ensures dial.DialErr? ==> conn == null && err == Some(dial.error)
    ensures dial.DialOk? ==>
              && conn != null && fresh(conn) && fresh(conn.connection)
              && conn.connection != null
              && conn.live && conn.timeout == timeout
              && conn.connection.origin == Dialed(addr, timeout, tlsConfig)
              && conn.connection.inbound == dial.inbound
              && conn.connection.writes == [] && !conn.connection.closed
  {
    if dial.DialErr? {
      return null, Some(dial.error);
    }
    var socket := new NetConn(Dialed(addr, timeout, tlsConfig), dial.inbound);
    conn := new TlsConn(socket, timeout);
    err := None;
  }

  /** `rcvTLSConn`: wrap an accepted socket (possibly nil) as a live connection with the
      zero timeout. */
  method RcvTlsConn(connection: NetConn?) returns (conn: TlsConn)
    ensures fresh(conn)
    ensures conn.connection == connection && conn.timeout == 0 && conn.live
  {
    conn := new TlsConn(connection, 0);
  }
}
