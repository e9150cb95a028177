/** The client's pool of verified session connections (listen/pool.go:17-115,
    181-204): who owns each connection, and what a pool key stands for. A
    connection is a number; dialing, the clock and whether an idle connection is
    intact are answers given from outside. */
module Pools {
  import opened Options

  const POOL_IDLE := 10_000_000_000      // ten seconds, in nanoseconds
  const POOL_PER_ENDPOINT := 4

  // ---------------------------------------------------------------- the key

  /** A server process is named by its id and the text of its start time. */
  datatype Process = Process(pid: int, started: string)
  datatype Server = Server(kind: string, sid: string, uid: int, program: string, process: Option<Process>)

  function Digits(n: nat): (s: string)
    ensures 0 < |s| && '\0' !in s && '-' !in s
  {
    var d := ['0' + (n % 10) as char];
    if n < 10 then d else Digits(n / 10) + d
  }

  /** strconv.Itoa. */
  function Itoa(n: int): (s: string)
    ensures '\0' !in s
  {
    if n < 0 then "-" + Digits(-n) else Digits(n)
  }

  lemma {:induction false} DigitsInjective(a: nat, b: nat)
    requires Digits(a) == Digits(b)
    ensures a == b
    decreases a
  {
    var s := Digits(a);
    assert s[|s| - 1] == '0' + (a % 10) as char == '0' + (b % 10) as char;
    assert a % 10 == b % 10;
    if 10 <= a && 10 <= b {
      assert Digits(a / 10) == s[..|s| - 1] == Digits(b / 10);
      DigitsInjective(a / 10, b / 10);
    }
  }

  lemma ItoaInjective(a: int, b: int)
    requires Itoa(a) == Itoa(b)
    ensures a == b
  {
    if a < 0 && b < 0 {
      assert Digits(-a) == Itoa(a)[1..] == Digits(-b);
      DigitsInjective(-a, -b);
    } else if 0 <= a && 0 <= b {
      DigitsInjective(a, b);
    } else {
      assert false;
    }
  }

  /** The fields of a key, in order. */
  function Fields(endpoint: string, server: Option<Server>): (f: seq<string>)
    ensures |f| == if server.None? then 1 else if server.value.process.None? then 5 else 7
  {
    match server
    case None => [endpoint]
    case Some(s) =>
      [endpoint, s.kind, s.sid, Itoa(s.uid), s.program]
      + (if s.process.Some? then [Itoa(s.process.value.pid), s.process.value.started] else [])
  }

  function Joined(f: seq<string>): string {
    if f == [] then "" else if |f| == 1 then f[0] else f[0] + "\0" + Joined(f[1..])
  }

  function PoolKey(endpoint: string, server: Option<Server>): string {
    Joined(Fields(endpoint, server))
  }

  predicate NulFree(f: seq<string>) {
    forall i :: 0 <= i < |f| ==> '\0' !in f[i]
  }

  /** Where the first separator is, a field ends. */
  lemma FirstField(a: string, s: string, b: string, t: string)
    requires '\0' !in a && '\0' !in b && a + "\0" + s == b + "\0" + t
    ensures a == b && s == t
  {
    var j := a + "\0" + s;
    assert j[|a|] == '\0' == j[|b|];
    assert forall i :: 0 <= i < |a| ==> j[i] == a[i];
    assert forall i :: 0 <= i < |b| ==> j[i] == b[i];
    assert |a| == |b|;
    assert a == j[..|a|] == b && s == j[|a| + 1..] == t;
  }

  lemma Separated(f: seq<string>)
    requires f != [] && NulFree(f)
    ensures '\0' in Joined(f) <==> 2 <= |f|
  {
    if 2 <= |f| {
      assert Joined(f)[|f[0]|] == '\0';
    }
  }

  lemma {:induction false} JoinedInjective(f: seq<string>, g: seq<string>)
    requires f != [] && g != [] && NulFree(f) && NulFree(g) && Joined(f) == Joined(g)
    ensures f == g
    decreases |f|
  {
    Separated(f);
    Separated(g);
    if |f| == 1 {
      assert f == [f[0]] && g == [g[0]];
    } else {
      FirstField(f[0], Joined(f[1..]), g[0], Joined(g[1..]));
      JoinedInjective(f[1..], g[1..]);
      assert f == [f[0]] + f[1..] && g == [g[0]] + g[1..];
    }
  }

  /** Two callers share a key only for the same endpoint and the same expectation
      of the server, as long as no field holds a NUL. */
  lemma KeyIsInjective(endpoint: string, server: Option<Server>, endpoint': string, server': Option<Server>)
    requires NulFree(Fields(endpoint, server)) && NulFree(Fields(endpoint', server'))
    requires PoolKey(endpoint, server) == PoolKey(endpoint', server')
    ensures endpoint == endpoint' && server == server'
  {
    var f, g := Fields(endpoint, server), Fields(endpoint', server');
    JoinedInjective(f, g);
    assert f[0] == g[0];
    if server.Some? {
      assert f[1] == g[1] && f[2] == g[2] && f[3] == g[3] && f[4] == g[4];
      ItoaInjective(server.value.uid, server'.value.uid);
      if server.value.process.Some? {
        assert f[5] == g[5] && f[6] == g[6];
        ItoaInjective(server.value.process.value.pid, server'.value.process.value.pid);
      }
    }
  }

  /** With a NUL in an endpoint the key says less: this endpoint, with no
      expectation at all, has the key of another one with an expectation. */
  lemma NulCollides(endpoint: string, server: Server)
    ensures PoolKey(PoolKey(endpoint, Some(server)), None) == PoolKey(endpoint, Some(server))
  {
  }

  // --------------------------------------------------------------- the pool

  type Conn = nat

  datatype Pooled = Pooled(conn: Conn, since: int)

  /** Where a connection is: with the one call that uses it, in the pool, or closed. */
  datatype Place = InCall | Idle(key: string) | Closed

  predicate Stale(p: Pooled, now: int) {
    POOL_IDLE <= now - p.since
  }

  /** The connections waiting under one key are open, each there once. */
  predicate ListOk(list: seq<Pooled>, key: string, place: map<Conn, Place>) {
    && |list| <= POOL_PER_ENDPOINT
    && (forall i :: 0 <= i < |list| ==> list[i].conn in place && place[list[i].conn] == Idle(key))
    && (forall i, j :: 0 <= i < j < |list| ==> list[i].conn != list[j].conn)
  }

  predicate Listed(list: seq<Pooled>, c: Conn) {
    exists i :: 0 <= i < |list| && list[i].conn == c
  }

  function ListAt(idle: map<string, seq<Pooled>>, key: string): seq<Pooled> {
    if key in idle then idle[key] else []
  }

  /** The connections of a list, closed. */
  function Shut(place: map<Conn, Place>, list: seq<Pooled>): map<Conn, Place> {
    map c | c in place :: if Listed(list, c) then Closed else place[c]
  }

  ghost predicate ListsOk(idle: map<string, seq<Pooled>>, place: map<Conn, Place>) {
    forall k :: k in idle ==> ListOk(idle[k], k, place)
  }

  predicate Kept(idle: map<string, seq<Pooled>>, place: map<Conn, Place>, dialed: map<Conn, string>, c: Conn)
    requires c in place
  {
    c in dialed && (place[c].Idle? ==> dialed[c] == place[c].key && Listed(ListAt(idle, place[c].key), c))
  }

  /** The pool holds exactly the idle connections, and each was dialed for its key. */
  ghost predicate PoolOk(idle: map<string, seq<Pooled>>, place: map<Conn, Place>, dialed: map<Conn, string>) {
    ListsOk(idle, place) && forall c :: c in place ==> Kept(idle, place, dialed, c)
  }

  /** One key's list is replaced: what left it was closed or given to a call, and
      what joined it was with a call. */
  lemma ReplaceKeeps(idle: map<string, seq<Pooled>>, place: map<Conn, Place>, dialed: map<Conn, string>,
                     key: string, list: seq<Pooled>, place': map<Conn, Place>)
    requires PoolOk(idle, place, dialed) && place'.Keys == place.Keys
    requires ListOk(list, key, place')
    requires forall c :: c in place && place[c] != place'[c] ==> place[c] == Idle(key) || place[c] == InCall
    requires forall c :: c in place && place[c] != place'[c] && place'[c].Idle? ==> place'[c].key == key == dialed[c]
    requires forall c :: c in place && place'[c] == Idle(key) ==> Listed(list, c)
    ensures PoolOk(idle[key := list], place', dialed)
  {
    var idle' := idle[key := list];
    forall k | k in idle'
      ensures ListOk(idle'[k], k, place')
    {
      assert k in idle ==> ListOk(idle[k], k, place);
    }
    forall c | c in place'
      ensures Kept(idle', place', dialed, c)
    {
      assert Kept(idle, place, dialed, c);
    }
  }

  lemma PopKeeps(idle: map<string, seq<Pooled>>, place: map<Conn, Place>, dialed: map<Conn, string>, key: string, p: Place)
    requires PoolOk(idle, place, dialed) && ListAt(idle, key) != [] && !p.Idle?
    ensures var list := ListAt(idle, key);
            var last := list[|list| - 1].conn;
            && last in place && place[last] == Idle(key) && last in dialed && dialed[last] == key
            && PoolOk(idle[key := list[..|list| - 1]], place[last := p], dialed)
  {
    var list := idle[key];
    var last, place' := list[|list| - 1].conn, place[list[|list| - 1].conn := p];
    assert ListOk(list, key, place);
    assert Kept(idle, place, dialed, last);
    forall c | c in place && place'[c] == Idle(key)
      ensures Listed(list[..|list| - 1], c)
    {
      assert Kept(idle, place, dialed, c);
      var i :| 0 <= i < |list| && list[i].conn == c;
      assert list[..|list| - 1][i].conn == c;
    }
    ReplaceKeeps(idle, place, dialed, key, list[..|list| - 1], place');
  }

  predicate Fit(p: Pooled, now: int, intact: set<Conn>) {
    !Stale(p, now) && p.conn in intact
  }

  /** How many connections are left below the most recent one that is fit, and
      whether there is one. */
  function LastFit(list: seq<Pooled>, now: int, intact: set<Conn>): (r: Option<nat>)
    ensures r.Some? ==> r.value < |list| && Fit(list[r.value], now, intact)
    ensures forall i :: (if r.Some? then r.value else -1) < i < |list| ==> !Fit(list[i], now, intact)
  {
    if list == [] then None
    else if Fit(list[|list| - 1], now, intact) then Some(|list| - 1)
    else LastFit(list[..|list| - 1], now, intact)
  }

  /** take, on one key's list: connections come off its end until one is fit. */
  function TakeFrom(list: seq<Pooled>, place: map<Conn, Place>, now: int, intact: set<Conn>): (Option<Conn>, seq<Pooled>, map<Conn, Place>)
    decreases |list|
  {
    if list == [] then (None, [], place)
    else
      var last, rest := list[|list| - 1], list[..|list| - 1];
      if Fit(last, now, intact) then (Some(last.conn), rest, place[last.conn := InCall])
      else TakeFrom(rest, place[last.conn := Closed], now, intact)
  }

  lemma TakeNext(list: seq<Pooled>, place: map<Conn, Place>, now: int, intact: set<Conn>)
    requires list != [] && !Fit(list[|list| - 1], now, intact)
    ensures TakeFrom(list, place, now, intact) == TakeFrom(list[..|list| - 1], place[list[|list| - 1].conn := Closed], now, intact)
  {
  }

  /** It waited ten seconds or more, or is not intact. */
  predicate Unfit(p: Pooled, now: int, intact: set<Conn>) {
    10_000_000_000 <= now - p.since || p.conn !in intact
  }

  /** What a call gets is the most recent connection that waited less than ten
      seconds and is intact; those above it are closed, and those below it stay. */
  lemma {:induction false} TakesLastFit(list: seq<Pooled>, place: map<Conn, Place>, now: int, intact: set<Conn>)
    requires forall i :: 0 <= i < |list| ==> list[i].conn in place
    ensures var t := TakeFrom(list, place, now, intact);
            match LastFit(list, now, intact)
            case None => t == (None, [], Shut(place, list)) && forall i :: 0 <= i < |list| ==> Unfit(list[i], now, intact)
            case Some(n) =>
              && t == (Some(list[n].conn), list[..n], Shut(place, list[n + 1..])[list[n].conn := InCall])
              && now - list[n].since < 10_000_000_000 && list[n].conn in intact
              && forall i :: n < i < |list| ==> Unfit(list[i], now, intact)
    decreases |list|
  {
    if list == [] {
      assert Shut(place, []) == place;
    } else {
      var m := |list| - 1;
      var rest := list[..m];
      if Fit(list[m], now, intact) {
        assert list[m + 1..] == [] && Shut(place, []) == place;
      } else {
        var place' := place[list[m].conn := Closed];
        TakesLastFit(rest, place', now, intact);
        match LastFit(list, now, intact)
        case None => ShutLast(place, list, 0);
        case Some(n) =>
          ShutLast(place, list, n + 1);
          assert rest[..n] == list[..n] && rest[n + 1..] == list[n + 1..m];
      }
    }
  }

  lemma ShutLast(place: map<Conn, Place>, list: seq<Pooled>, from: nat)
    requires from < |list| && list[|list| - 1].conn in place
    ensures Shut(place[list[|list| - 1].conn := Closed], list[from..|list| - 1]) == Shut(place, list[from..])
    ensures list[0..|list| - 1] == list[..|list| - 1] && list[0..] == list
  {
    var m := |list| - 1;
    var a, b := list[from..m], list[from..];
    forall c | c in place
      ensures Listed(b, c) <==> Listed(a, c) || c == list[m].conn
    {
      if Listed(a, c) {
        var i :| 0 <= i < |a| && a[i].conn == c;
        assert b[i].conn == c;
      }
      if c == list[m].conn {
        assert b[m - from].conn == c;
      }
      if Listed(b, c) && c != list[m].conn {
        var i :| 0 <= i < |b| && b[i].conn == c;
        assert a[i].conn == c;
      }
    }
  }

  /** How many connections at the front have waited too long. */
  function FrontStale(list: seq<Pooled>, now: int): (n: nat)
    ensures n <= |list| && (forall i :: 0 <= i < n ==> 10_000_000_000 <= now - list[i].since)
    ensures n < |list| ==> now - list[n].since < 10_000_000_000
  {
    if list == [] || !Stale(list[0], now) then 0 else 1 + FrontStale(list[1..], now)
  }

  /** What is left of the list, with the one that joins it. */
  lemma PutList(list: seq<Pooled>, place: map<Conn, Place>, key: string, n: nat, c: Conn, now: int, room: bool)
    requires ListOk(list, key, place) && n <= |list| && c in place && place[c] == InCall && room == (|list| - n < POOL_PER_ENDPOINT)
    ensures ListOk(list[n..] + (if room then [Pooled(c, now)] else []), key,
                   Shut(place, list[..n])[c := if room then Idle(key) else Closed])
  {
    var list' := list[n..] + if room then [Pooled(c, now)] else [];
    var place' := Shut(place, list[..n])[c := if room then Idle(key) else Closed];
    forall i | 0 <= i < |list'|
      ensures list'[i].conn in place' && place'[list'[i].conn] == Idle(key)
    {
      if i < |list| - n {
        assert !Listed(list[..n], list[n + i].conn);
      }
    }
  }

  /** What is still idle under the key is on the list. */
  lemma PutListed(list: seq<Pooled>, place: map<Conn, Place>, key: string, n: nat, c: Conn, now: int, room: bool, d: Conn)
    requires n <= |list| && c in place && d in place && (d != c && place[d] == Idle(key) ==> Listed(list, d))
    requires Shut(place, list[..n])[c := if room then Idle(key) else Closed][d] == Idle(key)
    ensures Listed(list[n..] + (if room then [Pooled(c, now)] else []), d)
  {
    var list' := list[n..] + if room then [Pooled(c, now)] else [];
    if d == c {
      assert list'[|list'| - 1].conn == c;
    } else {
      EitherListed(list, n, d);
      var i :| 0 <= i < |list[n..]| && list[n..][i].conn == d;
      assert list'[i].conn == d;
    }
  }

  lemma EitherListed(list: seq<Pooled>, n: nat, d: Conn)
    requires n <= |list| && Listed(list, d)
    ensures Listed(list[..n], d) || Listed(list[n..], d)
  {
    var i :| 0 <= i < |list| && list[i].conn == d;
    if i < n {
      assert list[..n][i].conn == d;
    } else {
      assert list[n..][i - n].conn == d;
    }
  }

  lemma PutKeeps(idle: map<string, seq<Pooled>>, place: map<Conn, Place>, dialed: map<Conn, string>, key: string, n: nat, c: Conn, now: int)
    requires PoolOk(idle, place, dialed) && c in place && place[c] == InCall
    requires dialed[c] == key && n <= |ListAt(idle, key)|
    ensures var list := ListAt(idle, key);
            var room := |list| - n < POOL_PER_ENDPOINT;
            PoolOk(idle[key := list[n..] + if room then [Pooled(c, now)] else []],
                   Shut(place, list[..n])[c := if room then Idle(key) else Closed], dialed)
  {
    var list := ListAt(idle, key);
    var room := |list| - n < POOL_PER_ENDPOINT;
    var list' := list[n..] + if room then [Pooled(c, now)] else [];
    var place' := Shut(place, list[..n])[c := if room then Idle(key) else Closed];
    assert ListOk(list, key, place);
    PutList(list, place, key, n, c, now, room);
    forall d | d in place && place'[d] == Idle(key)
      ensures Listed(list', d)
    {
      assert Kept(idle, place, dialed, d);
      PutListed(list, place, key, n, c, now, room, d);
    }
    forall d | d in place && Listed(list[..n], d)
      ensures place[d] == Idle(key)
    {
      var i :| 0 <= i < n && list[..n][i].conn == d;
      assert list[i].conn == d;
    }
    ReplaceKeeps(idle, place, dialed, key, list', place');
  }

  class FramePool {
    var idle: map<string, seq<Pooled>>
    ghost var place: map<Conn, Place>    // every connection dialed for the pool
    ghost var dialed: map<Conn, string>  // and the key it was dialed and checked for

    ghost predicate Valid()
      reads this
    {
      PoolOk(idle, place, dialed)
    }

    constructor ()
      ensures Valid() && place == map[]
    {
      idle, place, dialed := map[], map[], map[];
    }

    /** A call opens a connection and owns it. */
    method Dial(key: string, c: Conn)
      requires Valid() && c !in place
      modifies this
      ensures Valid() && place == old(place)[c := InCall] && dialed == old(dialed)[c := key] && idle == old(idle)
    {
      place, dialed := place[c := InCall], dialed[c := key];
      forall k | k in idle
        ensures ListOk(idle[k], k, place)
      {
        assert ListOk(idle[k], k, old(place));
      }
      forall d | d in place
        ensures Kept(idle, place, dialed, d)
      {
        assert d != c ==> Kept(idle, old(place), old(dialed), d);
      }
    }

    /** A call gives up its connection. */
    method CloseConn(c: Conn)
      requires Valid() && c in place && place[c] == InCall
      modifies this`place
      ensures Valid() && place == old(place)[c := Closed]
    {
      place := place[c := Closed];
      forall k | k in idle
        ensures ListOk(idle[k], k, place)
      {
        assert ListOk(idle[k], k, old(place));
      }
      forall d | d in place
        ensures Kept(idle, place, dialed, d)
      {
        assert Kept(idle, old(place), dialed, d);
      }
    }

    /** The locked region of take: the last connection under a key, now the call's. */
    method Pop(key: string) returns (r: Option<Pooled>)
      requires Valid()
      modifies this`idle, this`place
      ensures Valid()
      ensures var list := ListAt(old(idle), key);
              if list == [] then r.None? && idle == old(idle) && place == old(place)
              else
                && r == Some(list[|list| - 1]) && idle == old(idle)[key := list[..|list| - 1]]
                && place == old(place)[r.value.conn := InCall]
                && r.value.conn in old(place) && old(place)[r.value.conn] == Idle(key) && r.value.conn in dialed && dialed[r.value.conn] == key
    {
      if key !in idle || idle[key] == [] {
        return None;
      }
      var list := idle[key];
      PopKeeps(idle, place, dialed, key, InCall);
      r := Some(list[|list| - 1]);
      idle := idle[key := list[..|list| - 1]];
      place := place[r.value.conn := InCall];
    }

    /** The most recently used connection that is fit goes to the call; those used
        after it are closed. */
    method Take(key: string, now: int, intact: set<Conn>) returns (r: Option<Conn>)
      requires Valid()
      modifies this`idle, this`place
      ensures Valid()
      ensures TakeFrom(ListAt(old(idle), key), old(place), now, intact) == (r, ListAt(idle, key), place)
      ensures r.Some? ==> r.value in dialed && dialed[r.value] == key
      ensures forall k :: k != key ==> ListAt(idle, k) == ListAt(old(idle), k)
    {
      var done := false;
      r := None;
      while !done
        invariant Valid()
        invariant if done then TakeFrom(ListAt(old(idle), key), old(place), now, intact) == (r, ListAt(idle, key), place)
                  else TakeFrom(ListAt(idle, key), place, now, intact) == TakeFrom(ListAt(old(idle), key), old(place), now, intact)
        invariant done && r.Some? ==> r.value in dialed && dialed[r.value] == key
        invariant forall k :: k != key ==> ListAt(idle, k) == ListAt(old(idle), k)
        decreases !done, |ListAt(idle, key)|
      {
        r, done := TryLast(key, now, intact);
      }
    }

    /** One turn of take's loop: the last connection is handed out if it is fit, and closed
        if not. */
    method TryLast(key: string, now: int, intact: set<Conn>) returns (r: Option<Conn>, done: bool)
      requires Valid()
      modifies this`idle, this`place
      ensures Valid()
      ensures forall k :: k != key ==> ListAt(idle, k) == ListAt(old(idle), k)
      ensures done && r.Some? ==> r.value in dialed && dialed[r.value] == key
      ensures var was := TakeFrom(ListAt(old(idle), key), old(place), now, intact);
              if done then was == (r, ListAt(idle, key), place)
              else was == TakeFrom(ListAt(idle, key), place, now, intact) && |ListAt(idle, key)| < |ListAt(old(idle), key)|
    {
      ghost var was, list := place, ListAt(idle, key);
      var top := Pop(key);
      if top.None? {
        return None, true;
      }
      if now - top.value.since < POOL_IDLE && top.value.conn in intact {
        return Some(top.value.conn), true;
      }
      CloseConn(top.value.conn);
      assert place == was[top.value.conn := Closed];
      TakeNext(list, was, now, intact);
      assert ListAt(idle, key) == list[..|list| - 1];
      r, done := None, false;
    }

    /** Connections that waited too long are closed, and the one a call returns
        joins the list while there is room. */
    method Put(key: string, c: Conn, now: int)
      requires Valid() && c in place && place[c] == InCall && c in dialed && dialed[c] == key
      modifies this`idle, this`place
      ensures Valid()
      ensures var list := ListAt(old(idle), key);
              var n := FrontStale(list, now);
              var room := |list| - n < POOL_PER_ENDPOINT;
              && idle == old(idle)[key := list[n..] + if room then [Pooled(c, now)] else []]
              && place == Shut(old(place), list[..n])[c := if room then Idle(key) else Closed]
    {
      var list := if key in idle then idle[key] else [];
      var expired, rest := DropStale(list, now);
      PutKeeps(idle, place, dialed, key, |expired|, c, now);
      if POOL_PER_ENDPOINT <= |rest| {
        assert rest + [] == rest;
        idle := idle[key := rest];
        place := Shut(place, expired)[c := Closed];
      } else {
        idle := idle[key := rest + [Pooled(c, now)]];
        place := Shut(place, expired)[c := Idle(key)];
      }
    }

    /** The end of one exchange: the connection returns to the pool only if the
        answer kept the session and no cancellation reached it. */
    method Finish(key: string, c: Conn, keep: bool, stopped: bool, cancelled: bool, now: int)
      requires Valid() && c in place && place[c] == InCall && c in dialed && dialed[c] == key
      modifies this`idle, this`place
      ensures Valid() && c in place
      ensures place[c] == Closed || (place[c] == Idle(key) && keep && stopped && !cancelled)
      ensures !(keep && stopped && !cancelled) ==> idle == old(idle) && place == old(place)[c := Closed]
      ensures keep && stopped && !cancelled ==>
                var list := ListAt(old(idle), key);
                var n := FrontStale(list, now);
                if |list| - n < POOL_PER_ENDPOINT then idle == old(idle)[key := list[n..] + [Pooled(c, now)]] && place[c] == Idle(key)
                else ListAt(idle, key) == list[n..] && place[c] == Closed
    {
      if stopped && keep && !cancelled {
        Put(key, c, now);
      } else {
        CloseConn(c);
      }
    }
  }

  /** put's loop over the connections that waited longest. */
  method DropStale(list: seq<Pooled>, now: int) returns (expired: seq<Pooled>, rest: seq<Pooled>)
    ensures var n := FrontStale(list, now); expired == list[..n] && rest == list[n..]
  {
    expired, rest := [], list;
    while rest != [] && POOL_IDLE <= now - rest[0].since
      invariant |expired| <= |list| && expired == list[..|expired|] && rest == list[|expired|..]
      invariant FrontStale(list, now) == |expired| + FrontStale(rest, now)
    {
      assert list[..|expired|] + [rest[0]] == list[..|expired| + 1];
      expired, rest := expired + [rest[0]], rest[1..];
    }
  }
}
