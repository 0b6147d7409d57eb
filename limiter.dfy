/** The fixed-window rate limiter and the client address it is keyed on
    (internal/http/middleware/limiter.go). Time is an integer count of
    nanoseconds passed in by the caller. */
module Middleware {
  import opened Strings

  /** `Connection`: when the client's current window opened, and how many
      calls it has made in it. */
  datatype Connection = Connection(lastUpdateTime: int, tries: int)

  type Connections = map<string, Connection>

  /** The entry for `ip` after one `CheckConn` at time `now`: a new
      client's entry opens at `now` with no tries; a window older than
      `period` restarts at `now`; then the call is counted. */
  function NextEntry(conns: Connections, ip: string, now: int, period: int): (c: Connection)
    ensures ip !in conns ==> c == Connection(now, 1)
    ensures ip in conns && now - conns[ip].lastUpdateTime > period ==> c == Connection(now, 1)
    ensures ip in conns && now - conns[ip].lastUpdateTime <= period ==>
      c == Connection(conns[ip].lastUpdateTime, conns[ip].tries + 1)
  {
    var conn := if ip in conns then conns[ip] else Connection(now, 0);
    var conn := if now - conn.lastUpdateTime > period then Connection(now, 0) else conn;
    conn.(tries := conn.tries + 1)
  }

  /** The table after one call: only the caller's entry is created or
      changed, and no entry is removed. */
  function Update(conns: Connections, ip: string, now: int, period: int): (m: Connections)
    ensures m.Keys == conns.Keys + {ip}
    ensures forall k :: k in conns && k != ip ==> m[k] == conns[k]
    ensures m[ip] == NextEntry(conns, ip, now, period)
  {
    conns[ip := NextEntry(conns, ip, now, period)]
  }

  /** One request reaching the middleware. */
  datatype Call = Call(ip: string, now: int)

  /** The table after a sequence of calls. */
  function Replay(conns: Connections, calls: seq<Call>, period: int): Connections
    decreases |calls|
  {
    if calls == [] then conns
    else
      var c := calls[|calls| - 1];
      Update(Replay(conns, calls[..|calls| - 1], period), c.ip, c.now, period)
  }

  /** What `CheckConn` answered to each of the calls, in order. */
  function Decisions(conns: Connections, calls: seq<Call>, limit: int, period: int): (d: seq<bool>)
    ensures |d| == |calls|
    decreases |calls|
  {
    if calls == [] then []
    else
      var c := calls[|calls| - 1];
      var prev := Replay(conns, calls[..|calls| - 1], period);
      Decisions(conns, calls[..|calls| - 1], limit, period)
        + [NextEntry(prev, c.ip, c.now, period).tries > limit]
  }

  /** The calls made by one client. */
  function CallsFrom(calls: seq<Call>, ip: string): (r: seq<Call>)
    ensures forall i :: 0 <= i < |r| ==> r[i].ip == ip
    decreases |calls|
  {
    if calls == [] then []
    else
      var c := calls[|calls| - 1];
      CallsFrom(calls[..|calls| - 1], ip) + (if c.ip == ip then [c] else [])
  }

  /** An entry's next value depends on that entry alone. */
  lemma NextEntryIsLocal(m1: Connections, m2: Connections, ip: string, now: int, period: int)
    requires ip in m1 <==> ip in m2
    requires ip in m1 ==> m1[ip] == m2[ip]
    ensures NextEntry(m1, ip, now, period) == NextEntry(m2, ip, now, period)
  {
  }

  /** Clients do not interfere: a client's entry is what its own calls
      alone would have made of it. */
  lemma {:induction false} ReplayIsolation(conns: Connections, calls: seq<Call>, ip: string, period: int)
    ensures ip in Replay(conns, calls, period) <==> ip in Replay(conns, CallsFrom(calls, ip), period)
    ensures ip in Replay(conns, calls, period) ==>
      Replay(conns, calls, period)[ip] == Replay(conns, CallsFrom(calls, ip), period)[ip]
    decreases |calls|
  {
    if calls != [] {
      var init := calls[..|calls| - 1];
      var c := calls[|calls| - 1];
      ReplayIsolation(conns, init, ip, period);
      var own := CallsFrom(init, ip);
      var a, b := Replay(conns, init, period), Replay(conns, own, period);
      if c.ip == ip {
        assert CallsFrom(calls, ip) == own + [c];
        assert (own + [c])[..|own|] == own;
        NextEntryIsLocal(a, b, ip, c.now, period);
      } else {
        assert CallsFrom(calls, ip) == own;
      }
    }
  }

  /** Within one window, opened by a client's first call or by the first
      call after its previous window expired, the entry keeps the time of
      that call and counts every call, refused or not. */
  lemma {:induction false} WindowEntry(conns: Connections, calls: seq<Call>, ip: string, period: int)
    requires calls != []
    requires ip !in conns || calls[0].now - conns[ip].lastUpdateTime > period
    requires forall i :: 0 <= i < |calls| ==> calls[i].ip == ip && 0 <= calls[i].now - calls[0].now <= period
    ensures ip in Replay(conns, calls, period)
    ensures Replay(conns, calls, period)[ip] == Connection(calls[0].now, |calls|)
    decreases |calls|
  {
    var init := calls[..|calls| - 1];
    if init != [] {
      assert init[0] == calls[0];
      WindowEntry(conns, init, ip, period);
    }
  }

  /** Within one window, whether a client's first or one opened by a
      reset: the first `limit` calls are let through and every later call
      is refused. */
  lemma {:induction false} FixedWindow(conns: Connections, calls: seq<Call>, ip: string, limit: int, period: int)
    requires calls != []
    requires ip !in conns || calls[0].now - conns[ip].lastUpdateTime > period
    requires forall i :: 0 <= i < |calls| ==> calls[i].ip == ip && 0 <= calls[i].now - calls[0].now <= period
    ensures forall i :: 0 <= i < |calls| ==> (Decisions(conns, calls, limit, period)[i] <==> i + 1 > limit)
    decreases |calls|
  {
    var init := calls[..|calls| - 1];
    var d := Decisions(conns, calls, limit, period);
    if init != [] {
      assert init[0] == calls[0];
      FixedWindow(conns, init, ip, limit, period);
      WindowEntry(conns, init, ip, period);
      var before := Decisions(conns, init, limit, period);
      assert d == before + [d[|init|]];
      forall i | 0 <= i < |init| ensures d[i] <==> i + 1 > limit {
        assert d[i] == before[i];
      }
    }
  }

  /** `Limiter`. */
  class Limiter {
    const limit: int
    const period: int
    var connections: Connections

    /** `NewLimiter`. */
    constructor (limit: int, period: int)
      ensures this.limit == limit && this.period == period && connections == map[]
    {
      this.limit := limit;
      this.period := period;
      connections := map[];
    }

    /** `CheckConn` at time `now`: counts the call against the client's
        window and says whether the client is over its limit. */
    method CheckConn(ip: string, now: int) returns (limited: bool)
      modifies this
      ensures connections == Update(old(connections), ip, now, period)
      ensures limited <==> connections[ip].tries > limit
    {
      var conn: Connection;
      if ip !in connections {
        conn := Connection(now, 0);
        connections := connections[ip := conn];
      } else {
        conn := connections[ip];
      }
      if now - conn.lastUpdateTime > period {
        conn := Connection(now, 0);
      }
      conn := conn.(tries := conn.tries + 1);
      connections := connections[ip := conn];
      limited := conn.tries > limit;
    }
  }

  /** `getClientIP` over the three request fields it reads (a missing
      header is ""): the first X-Forwarded-For entry, trimmed; otherwise
      X-Real-Ip; otherwise the host part of RemoteAddr. */
  function ClientIp(forwardedFor: string, realIp: string, remoteAddr: string): (ip: string)
    ensures forwardedFor != "" ==>
      && ip == TrimSpace(CutBefore(forwardedFor, ','))
      && ',' !in ip
      && Trimmed(ip, Blanks)
    ensures forwardedFor == "" && realIp != "" ==> ip == realIp
    ensures forwardedFor == "" && realIp == "" ==>
      && ':' !in ip && HasPrefix(remoteAddr, ip)
      && (':' in remoteAddr ==> remoteAddr[|ip|] == ':')
      && (':' !in remoteAddr ==> ip == remoteAddr)
  {
    if forwardedFor != "" then
      var idx := IndexOf(forwardedFor, ',');
      if idx != -1 then
        TrimKeepsOut(forwardedFor[..idx], Blanks, ',');
        TrimSpace(forwardedFor[..idx])
      else
        TrimKeepsOut(forwardedFor, Blanks, ',');
        TrimSpace(forwardedFor)
    else if realIp != "" then realIp
    else CutBefore(remoteAddr, ':')
  }
}
