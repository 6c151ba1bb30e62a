/** `connectionPool` of the TLS transport: outbound connections cached by destination
    address and write timeout. A cached connection is handed out again while it is
    alive; a missing or dead one is replaced by a fresh dial. Nothing is ever removed. */
module TlsConnectionPool {
  import opened Base
  import opened Net
  import opened Decimal
  import opened TlsConnection
  import Tls

  /** A pool entry is consistent when its connection was dialled, with the pool's TLS
      configuration, to the address and with the timeout that its key names. */
  predicate EntryMatches(key: string, conn: TlsConn, tlsConfig: Option<Tls.Config>) {
    && conn.connection != null
    && conn.connection.origin.Dialed?
    && conn.connection.origin.dialTimeout == conn.timeout
    && conn.connection.origin.tlsConfig == tlsConfig
    && key == Key(conn.connection.origin.addr, conn.timeout)
  }

  class ConnectionPool {
    var conns: map<string, TlsConn>
    const tlsConfig: Option<Tls.Config>

    ghost predicate Valid()
      reads this
    {
      forall key | key in conns :: EntryMatches(key, conns[key], tlsConfig)
    }

    /** `newConnectionPool`: an empty map. */
    constructor (tlsConfig: Option<Tls.Config>)
      ensures Valid()
      ensures conns == map[] && this.tlsConfig == tlsConfig
    {
      conns := map[];
      this.tlsConfig := tlsConfig;
    }

    /** `borrowConnection`: reuse the live entry at `Key(addr, timeout)` untouched, or
        dial, store and return a new connection there; a failed dial leaves the map as
        it was. Only the entry at that key can change. */
    method BorrowConnection(addr: string, timeout: Duration, dial: DialOutcome)
      returns (conn: TlsConn?, err: Option<string>)
      requires Valid()
      modifies this
      ensures Valid()
      ensures var key := Key(addr, timeout);
              if key in old(conns) && old(conns[key].live) then
                && conn == old(conns[key]) && err == None
                && conns == old(conns)
              else if dial.DialErr? then
                && conn == null && err == Some(dial.error)
                && conns == old(conns)
              else
                && conn != null && fresh(conn) && fresh(conn.connection) && err == None
                && conns == old(conns)[key := conn]
                && conn.timeout == timeout && conn.connection != null
                && conn.connection.origin == Dialed(addr, timeout, tlsConfig)
                && conn.connection.inbound == dial.inbound
      ensures err.None? ==> conn != null && conn.live && Key(addr, timeout) in conns && conns[Key(addr, timeout)] == conn
      ensures forall key | key in old(conns) && key != Key(addr, timeout) :: key in conns && conns[key] == old(conns[key])
      ensures forall key | key in conns && key != Key(addr, timeout) :: key in old(conns)
    {
      var key := Key(addr, timeout);
      var isLive := false;
      if key in conns {
        conn := conns[key];
        isLive := conn.Alive();
      }
      if !isLive {
        conn, err := DialTlsConn(addr, timeout, tlsConfig, dial);
        if err.Some? {
          return null, err;
        }
        conns := conns[key := conn];
      }
      err := None;
    }
  }

  /** In a consistent pool the entry found under `Key(addr, timeout)` is a connection to
      `addr` with write timeout `timeout`, never one to another destination. */
  lemma EntryIsForItsDestination(pool: ConnectionPool, addr: string, timeout: Duration)
    requires pool.Valid()
    requires Key(addr, timeout) in pool.conns
    ensures pool.conns[Key(addr, timeout)].connection != null
    ensures pool.conns[Key(addr, timeout)].connection.origin.Dialed?
    ensures pool.conns[Key(addr, timeout)].connection.origin.addr == addr
    ensures pool.conns[Key(addr, timeout)].timeout == timeout
  {
    var c := pool.conns[Key(addr, timeout)];
    assert EntryMatches(Key(addr, timeout), c, pool.tlsConfig);
    KeyInjective(addr, timeout, c.connection.origin.addr, c.timeout);
  }

  /** When the first of two borrows in a row for one destination and timeout succeeds,
      the second returns the same connection (the first dial is never repeated). */
  method BorrowTwice(pool: ConnectionPool, addr: string, timeout: Duration, dial1: DialOutcome, dial2: DialOutcome)
    returns (c1: TlsConn?, c2: TlsConn?)
    requires pool.Valid()
    modifies pool
    ensures pool.Valid()
    ensures c1 != null ==> c2 == c1
  {
    var e1, e2;
    c1, e1 := pool.BorrowConnection(addr, timeout, dial1);
    c2, e2 := pool.BorrowConnection(addr, timeout, dial2);
  }

  /** Once a borrowed connection has been closed, the next borrow for the same key and
      a successful dial returns a different, new connection. */
  method BorrowAfterClose(pool: ConnectionPool, addr: string, timeout: Duration, dial1: DialOutcome, dial2: DialOutcome, closeOutcome: Option<string>)
    returns (c1: TlsConn?, c2: TlsConn?)
    requires pool.Valid()
    requires dial2.DialOk?
    modifies pool, pool.conns.Values, set c | c in pool.conns.Values && c.connection != null :: c.connection
    ensures pool.Valid()
    ensures c2 != null && c2 != c1 && fresh(c2) && c2.live
  {
    var e1, e2;
    c1, e1 := pool.BorrowConnection(addr, timeout, dial1);
    if c1 != null {
      var _ := c1.Close(closeOutcome);
    }
    c2, e2 := pool.BorrowConnection(addr, timeout, dial2);
  }
}
