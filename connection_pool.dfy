/** The older generation of the connection pool (`connectionPool` over `connWrapper`).
    It uses the same key as the TLS pool, but every connection is dialled with the
    transport-wide DefaultTcpTimeout while the requested timeout is only recorded, and
    the liveness flag is read without taking the lock. */
module LegacyConnectionPool {
  import opened Base
  import opened Net
  import opened Decimal
  import Tls

  /** `DefaultTcpTimeout`, ten seconds in nanoseconds. */
  const DefaultTcpTimeout: Duration := 10_000_000_000

  class ConnWrapper {
    const connection: NetConn
    const timeout: Duration
    var live: bool

    constructor (connection: NetConn, timeout: Duration)
      ensures this.connection == connection && this.timeout == timeout && live
    {
      this.connection := connection;
      this.timeout := timeout;
      live := true;
    }

    /** `Write`: one socket write of the whole buffer; the wrapper dies exactly when it
        fails, and the socket's result is passed through. */
    method Write(b: seq<uint8>, outcome: WriteOutcome) returns (n: int, err: Option<string>)
      modifies this, connection
      ensures connection.writes == old(connection.writes) + [b]
      ensures connection.inbound == old(connection.inbound) && connection.closed == old(connection.closed)
      ensures n == outcome.n && err == outcome.err
      ensures live == (old(live) && err.None?)
    {
      n, err := connection.Write(b, outcome);
      if err.Some? {
        live := false;
      }
    }

    /** `isAlive`: the flag, with no side effect. */
    method IsAlive() returns (b: bool)
      ensures b == live
    {
      b := live;
    }
  }

  /** The entry under `key` was dialled with DefaultTcpTimeout and the pool's TLS
      configuration, to the address its key names, and records the key's timeout. */
  predicate EntryMatches(key: string, conn: ConnWrapper, tlsConf: Option<Tls.Config>) {
    && conn.connection.origin.Dialed?
    && conn.connection.origin.dialTimeout == DefaultTcpTimeout
    && conn.connection.origin.tlsConfig == tlsConf
    && key == Key(conn.connection.origin.addr, conn.timeout)
  }

  class ConnectionPool {
    var pool: map<string, ConnWrapper>
    const tlsConf: Option<Tls.Config>

    ghost predicate Valid()
      reads this
    {
      forall key | key in pool :: EntryMatches(key, pool[key], tlsConf)
    }

    /** `newConnectionPool`: an empty map. */
    constructor (tlsConf: Option<Tls.Config>)
      ensures Valid()
      ensures pool == map[] && this.tlsConf == tlsConf
    {
      pool := map[];
      this.tlsConf := tlsConf;
    }

    /** `createConnection`: dial `addr` with DefaultTcpTimeout (not `timeout`), and on
        success wrap the socket as a live connection that records `timeout`. */
    method CreateConnection(addr: string, timeout: Duration, dial: DialOutcome)
      returns (conn: ConnWrapper?, err: Option<string>)
      ensures err.None? <==> dial.DialOk?
      ensures dial.DialErr? ==> conn == null && err == Some(dial.error)
      ensures dial.DialOk? ==>
                && conn != null && fresh(conn) && fresh(conn.connection)
                && conn.live && conn.timeout == timeout
                && conn.connection.origin == Dialed(addr, DefaultTcpTimeout, tlsConf)
                && conn.connection.inbound == dial.inbound
                && conn.connection.writes == [] && !conn.connection.closed
    {
      if dial.DialErr? {
        return null, Some(dial.error);
      }
      var socket := new NetConn(Dialed(addr, DefaultTcpTimeout, tlsConf), dial.inbound);
      conn := new ConnWrapper(socket, timeout);
      err := None;
    }

    /** `borrowConnection`: reuse the live entry at `Key(addr, timeout)` untouched, or
        create, store and return a new connection there; a failed creation leaves the
        map as it was. Only the entry at that key can change. */
    method BorrowConnection(addr: string, timeout: Duration, dial: DialOutcome)
      returns (conn: ConnWrapper?, err: Option<string>)
      requires Valid()
      modifies this
      ensures Valid()
      ensures var key := Key(addr, timeout);
              if key in old(pool) && old(pool[key].live) then
                && conn == old(pool[key]) && err == None
                && pool == old(pool)
              else if dial.DialErr? then
                && conn == null && err == Some(dial.error)
                && pool == old(pool)
              else
                && conn != null && fresh(conn) && fresh(conn.connection) && err == None
                && pool == old(pool)[key := conn]
                && conn.timeout == timeout
                && conn.connection.origin == Dialed(addr, DefaultTcpTimeout, tlsConf)
                && conn.connection.inbound == dial.inbound
      ensures err.None? ==> conn != null && conn.live && Key(addr, timeout) in pool && pool[Key(addr, timeout)] == conn
      ensures forall key | key in old(pool) && key != Key(addr, timeout) :: key in pool && pool[key] == old(pool[key])
      ensures forall key | key in pool && key != Key(addr, timeout) :: key in old(pool)
    {
      var key := Key(addr, timeout);
      var isLive := false;
      if key in pool {
        conn := pool[key];
        isLive := conn.IsAlive();
      }
      if !isLive {
        conn, err := CreateConnection(addr, timeout, dial);
        if err.Some? {
          return null, err;
        }
        pool := pool[key := conn];
      }
      err := None;
    }
  }

  /** In a consistent pool the entry under `Key(addr, timeout)` goes to `addr`, records
      `timeout`, and was dialled with DefaultTcpTimeout whatever `timeout` is. */
  lemma EntryIsForItsDestination(p: ConnectionPool, addr: string, timeout: Duration)
    requires p.Valid()
    requires Key(addr, timeout) in p.pool
    ensures p.pool[Key(addr, timeout)].connection.origin.Dialed?
    ensures p.pool[Key(addr, timeout)].connection.origin.addr == addr
    ensures p.pool[Key(addr, timeout)].timeout == timeout
    ensures p.pool[Key(addr, timeout)].connection.origin.dialTimeout == DefaultTcpTimeout
  {
    var c := p.pool[Key(addr, timeout)];
    assert EntryMatches(Key(addr, timeout), c, p.tlsConf);
    KeyInjective(addr, timeout, c.connection.origin.addr, c.timeout);
  }
}
