/** A call goes on after a closing marker: it makes up to three attempts, and ends
    without an answer exactly when all three met a marker; an unanswered session
    request is repeated as a plain exchange (listen/pool.go:175-283,
    listen/framed.go:243-304). */
module Repeats {
  import opened Options
  import opened Wire
  import opened SessionCalls
  import opened Links
  import opened LinkInvariant
  import opened ClientSteps
  import opened ServerSteps
  import opened LinkRuns
  import opened Exchanges
  import opened Sessions
  import opened Worlds

  // ------------------------------------------------- runs of one connection, among all

  /** A run of the request on one connection is a run of the world. */
  lemma {:induction false} Lifted(w: World, i: nat, es: seq<LinkEvent>)
    requires Reachable(w) && i < |w.links| && OneRequest(es)
    ensures Reachable(w.(links := w.links[i := Run(w.links[i], es)]))
    decreases |es|
  {
    if es == [] {
      assert w.links[i := w.links[i]] == w.links;
    } else {
      var w1 := WorldStep(w, Event.Wire(i, es[0]));
      ReachStep(w, Event.Wire(i, es[0]));
      assert w1 == w.(links := w.links[i := LinkStep(w.links[i], es[0])]);
      Lifted(w1, i, es[1..]);
      assert w1.links[i := Run(w1.links[i], es[1..])] == w.links[i := Run(w.links[i], es)];
    }
  }

  lemma LeadsLifted(w: World, i: nat, l': Link)
    requires Reachable(w) && i < |w.links| && Leads(w.links[i], l')
    ensures Reachable(w.(links := w.links[i := l']))
  {
    var es :| OneRequest(es) && Run(w.links[i], es) == l';
    Lifted(w, i, es);
  }

  // ----------------------------------------------------------------- one attempt

  /** Call c, about to make an attempt on a session. */
  predicate Trying(w: World, c: nat) {
    c < |w.calls| && w.calls[c].at == Ready(false) && w.calls[c].attempts < SESSION_ATTEMPTS
  }

  /** A new connection answers the call's request. */
  lemma AnsweredTurn(w: World, c: nat, body: Frame) returns (w': World)
    requires Reachable(w) && Trying(w, c) && Header(Asked(w, c)) != CLOSING
    ensures Reachable(w') && |w'.links| == |w.links| + 1 && w'.links[..|w.links|] == w.links
    ensures var i := |w.links|;
            && w'.calls == w.calls[c := w.calls[c].(attempts := w.calls[c].attempts + 1, at := Finished(Learned(Asked(w, c), body), Some(Place(i, 0))))]
            && Reached(w'.links[i]) && AtRest(w'.links[i]) && w'.links[i].cl.reqs == [Asked(w, c)]
            && Through(w'.links[i], [Asked(w, c)], [body])
  {
    var r := Asked(w, c);
    var l := FirstExchange(r, body);
    w' := OpenedTurn(w, c, true, l, Learned(r, body));
  }

  lemma FirstExchange(r: Request, body: Frame) returns (l: Link)
    requires Header(r) != CLOSING
    ensures Leads(Dial(r, false, true), l) && Reached(l) && AtRest(l) && l.cl.reqs == [r] && Through(l, [r], [body])
  {
    DialReached(r, false, true);
    var l0 := FirstBegins(r);
    l := CarriedOut(Dial(r, false, true), l0, [], [], r, body);
    assert [] + [r] == [r] && [] + [body] == [body];
    LeadsReached(Dial(r, false, true), l);
  }

  /** A new connection that comes to an outcome which ends the call. */
  lemma OpenedTurn(w: World, c: nat, wrapped: bool, l: Link, o: Outcome) returns (w': World)
    requires Reachable(w) && MayTry(w, c) && Leads(Dial(Asked(w, c), w.calls[c].at.plain, wrapped), l)
    requires l.cl.outcomes == [o] && (o.Submitted? || o.Replied? || o.Failed?)
    ensures Reachable(w') && w'.links == w.links + [l]
    ensures w'.calls == w.calls[c := w.calls[c].(attempts := w.calls[c].attempts + 1, at := Finished(o, Some(Place(|w.links|, 0))))]
  {
    ReachStep(w, Open(c, wrapped));
    var w1 := WorldStep(w, Open(c, wrapped));
    LeadsLifted(w1, |w.links|, l);
    var w2 := w1.(links := w1.links[|w.links| := l]);
    assert w2.links == w.links + [l];
    ReachStep(w2, Collect(c));
    w' := WorldStep(w2, Collect(c));
  }

  /** A waiting server whose idle time runs out says so and ends. */
  lemma MarkerSent(sv: ServerSide, up: seq<Byte>)
    requires sv.s == Idle(0)
    ensures ServerIdleEnds(sv, up, true, None) == sv.(down := sv.down + Be32(CLOSING), tail := Control(CLOSING), s := Over)
  {
  }

  lemma MarkerRead(cl: ClientSide, down: seq<Byte>)
    requires cl.c == AwaitHeader(0, false) && cl.reqs != [] && cl.downAt == |down|
    ensures ClientDecide(ClientRead(cl, down + Be32(CLOSING), 4), down + Be32(CLOSING), 0) ==
            cl.(downAt := cl.downAt + 4, outcomes := cl.outcomes + [Retry], c := Gone)
  {
    WordRoundTrip(CLOSING);
    assert Gathered(down + Be32(CLOSING), |down| + 4, 4) == Be32(CLOSING);
  }

  /** A request on a waiting connection whose server ends it first. */
  lemma MeetsMarker(l: Link, r: Request) returns (l': Link)
    requires Reached(l) && AtRest(l)
    ensures Leads(LinkStep(l, FromClient(Reuse(r))), l')
    ensures l'.cl.reqs == l.cl.reqs + [r] && l'.cl.outcomes == l.cl.outcomes + [Retry] && l'.sv.log == l.sv.log
  {
    var a := LinkStep(l, FromClient(Reuse(r)));
    RestIs(l);
    var l1 := Resends(l, r);
    var l2 := SendsMarker(a, l1);
    l' := ReadsMarker(a, l2, l.sv.down);
  }

  lemma SendsMarker(a: Link, l: Link) returns (l': Link)
    requires Leads(a, l) && l.sv.s == Idle(0)
    ensures Leads(a, l') && l' == l.(sv := l.sv.(down := l.sv.down + Be32(CLOSING), tail := Control(CLOSING), s := Over))
  {
    MarkerSent(l.sv, l.cl.up);
    ServerMoves(a, l, IdleEnds(true, None), ServerIdleEnds(l.sv, l.cl.up, true, None));
    l' := l.(sv := ServerIdleEnds(l.sv, l.cl.up, true, None));
  }

  lemma ReadsMarker(a: Link, l: Link, down: seq<Byte>) returns (l': Link)
    requires Leads(a, l) && l.sv.down == down + Be32(CLOSING)
    requires l.cl.c == AwaitHeader(0, false) && l.cl.reqs != [] && l.cl.downAt == |down|
    ensures Leads(a, l') && l' == l.(cl := l.cl.(downAt := l.cl.downAt + 4, outcomes := l.cl.outcomes + [Retry], c := Gone))
  {
    MarkerRead(l.cl, down);
    var cl := ClientRead(l.cl, l.sv.down, 4);
    ClientMoves(a, l, Read(4), cl);
    ClientMoves(a, l.(cl := cl), Decide(0), ClientDecide(cl, l.sv.down, 0));
    l' := l.(cl := ClientDecide(cl, l.sv.down, 0));
  }

  /** A connection with one exchange behind it, waiting in the pool. */
  ghost predicate Spare(l: Link) {
    Reached(l) && AtRest(l) && |l.cl.reqs| == |l.cl.outcomes| == 1
  }

  /** Request 1 of a connection was made for this call and met the marker. */
  predicate MetMarker(l: Link, r: Request) {
    |l.cl.reqs| == |l.cl.outcomes| == 2 && l.cl.reqs[1] == r && l.cl.outcomes[1] == Retry
  }

  /** A pooled connection meets the call's request with the marker: the call goes on
      while it has made fewer than three attempts, and ends with the third. */
  lemma MarkerTurn(w: World, c: nat, i: nat) returns (w': World)
    requires Reachable(w) && Trying(w, c) && i < |w.links| && Spare(w.links[i])
    ensures Reachable(w') && |w'.links| == |w.links| && w'.links == w.links[i := w'.links[i]]
    ensures MetMarker(w'.links[i], Asked(w, c))
    ensures var n := w.calls[c].attempts + 1;
            w'.calls == w.calls[c := w.calls[c].(attempts := n, at := if n < 3 then Ready(false) else Finished(Failed, None))]
  {
    var w1 := Picked(w, c, i);
    var l1 := MeetsMarker(w.links[i], Asked(w, c));
    LeadsLifted(w1, i, l1);
    assert w1.links[i := l1] == w.links[i := l1];
    w' := ToldToRetry(w1.(links := w.links[i := l1]), c, i, 1);
  }

  lemma Picked(w: World, c: nat, i: nat) returns (w': World)
    requires Reachable(w) && Trying(w, c) && i < |w.links| && w.links[i].cl.c.Pooled?
    ensures Reachable(w') && w'.links == w.links[i := LinkStep(w.links[i], FromClient(Reuse(Asked(w, c))))]
    ensures w'.calls == w.calls[c := w.calls[c].(attempts := w.calls[c].attempts + 1, at := On(Place(i, |w.links[i].cl.reqs|)))]
  {
    ReachStep(w, Pick(c, i));
    w' := WorldStep(w, Pick(c, i));
  }

  /** The call learns of the marker. */
  lemma ToldToRetry(w: World, c: nat, i: nat, k: nat) returns (w': World)
    requires Reachable(w) && c < |w.calls| && w.calls[c].at == On(Place(i, k)) && i < |w.links|
    requires k < |w.links[i].cl.outcomes| && w.links[i].cl.outcomes[k] == Retry
    ensures Reachable(w') && w'.links == w.links
    ensures w'.calls == w.calls[c := w.calls[c].(at := if w.calls[c].attempts < 3 then Ready(false) else Finished(Failed, None))]
  {
    ReachStep(w, Collect(c));
    w' := WorldStep(w, Collect(c));
  }

  // ------------------------------------------------------------- a pool to try

  /** n connections wait in the pool, each left there by a call that is done. */
  ghost predicate Stocked(w: World, n: nat) {
    |w.links| == |w.calls| == n && forall i :: 0 <= i < n ==> Spare(w.links[i])
  }

  lemma {:induction false} Stock(n: nat) returns (w: World)
    ensures Reachable(w) && Stocked(w, n)
  {
    if n == 0 {
      w := EMPTY;
      assert WorldRun(EMPTY, []) == EMPTY;
    } else {
      var w0 := Stock(n - 1);
      ReachStep(w0, Arrive([], false, false));
      var w1 := WorldStep(w0, Arrive([], false, false));
      RequestHeaderFields(0, false);
      w := AnsweredTurn(w1, n - 1, []);
      OneSpare(w0, w, n);
    }
  }

  lemma OneSpare(w: World, w': World, n: nat)
    requires 0 < n && Stocked(w, n - 1) && |w'.links| == |w'.calls| == n && w'.links[..n - 1] == w.links && Spare(w'.links[n - 1])
    ensures Stocked(w', n)
  {
    forall i | 0 <= i < n
      ensures Spare(w'.links[i])
    {
      if i < n - 1 {
        assert w'.links[i] == w'.links[..n - 1][i];
      }
    }
  }

  /** Call c has met the marker on connections 0 to m, and those from m on still wait. */
  ghost predicate Tried(w: World, c: nat, r: Request, m: nat, n: nat) {
    && m <= n == |w.links| && c < |w.calls| && Asked(w, c) == r && w.calls[c].attempts == m
    && (forall i :: 0 <= i < m ==> MetMarker(w.links[i], r))
    && (forall i :: m <= i < n ==> Spare(w.links[i]))
    && w.calls[c].at == if m < 3 then Ready(false) else Finished(Failed, None)
  }

  lemma {:induction false} TriedAll(frame: Frame, oneWay: bool, n: nat, m: nat) returns (w: World)
    requires m <= n <= 3
    ensures Reachable(w) && Tried(w, n, Request(n, frame, oneWay), m, n)
    decreases m
  {
    if m == 0 {
      var w0 := Stock(n);
      ReachStep(w0, Arrive(frame, oneWay, false));
      w := WorldStep(w0, Arrive(frame, oneWay, false));
    } else {
      var w0 := TriedAll(frame, oneWay, n, m - 1);
      w := MarkerTurn(w0, n, m - 1);
      OneTried(w0, w, n, Request(n, frame, oneWay), m, n);
    }
  }

  lemma OneTried(w: World, w': World, c: nat, r: Request, m: nat, n: nat)
    requires 0 < m <= n && m <= 3 && Tried(w, c, r, m - 1, n) && |w'.links| == n && w'.links == w.links[m - 1 := w'.links[m - 1]]
    requires MetMarker(w'.links[m - 1], r)
    requires w'.calls == w.calls[c := w.calls[c].(attempts := m, at := if m < 3 then Ready(false) else Finished(Failed, None))]
    ensures Tried(w', c, r, m, n)
  {
  }

  // ------------------------------------------------------------------ what follows

  /** This call met the marker on m connections. */
  ghost predicate Marked(w: World, r: Request, m: nat) {
    m <= |w.links| && forall i :: 0 <= i < m ==> MetMarker(w.links[i], r)
  }

  /** For every frame, reply and number of markers below three: some run gives a call
      so many markers, each on another connection, and then carries it out on a new one. */
  lemma AnsweredAfterMarkers(frame: Frame, oneWay: bool, body: Frame, m: nat)
    requires m < 3 && !(oneWay && |frame| == LENGTH_MASK)
    ensures exists es, c: nat :: var w := WorldRun(EMPTY, es);
              var r := Request(c, frame, oneWay);
              && Marked(w, r, m) && c < |w.calls| && w.calls[c].frame == frame && |w.links| == m + 1
              && w.calls[c].at == Finished(if oneWay then Submitted else Replied(body), Some(Place(m, 0)))
              && w.links[m].cl.reqs == [r] && w.links[m].sv.log == [Entry(Some(frame), if oneWay then None else Some(body))]
  {
    var r := Request(m, frame, oneWay);
    RequestHeaderFields(|frame|, oneWay);
    var w0 := TriedAll(frame, oneWay, m, m);
    var w := AnsweredTurn(w0, m, body);
    StillMarked(w0, w, r, m);
    var es :| WorldRun(EMPTY, es) == w;
    assert w.links[m].sv.log == [Recorded(r, body)];
  }

  lemma StillMarked(w: World, w': World, r: Request, m: nat)
    requires Marked(w, r, m) && |w.links| <= |w'.links| && w'.links[..|w.links|] == w.links
    ensures Marked(w', r, m)
  {
    forall i | 0 <= i < m
      ensures MetMarker(w'.links[i], r)
    {
      assert w'.links[i] == w'.links[..|w.links|][i];
    }
  }

  /** And with three markers the call ends without an answer. */
  lemma EndsAfterThreeMarkers(frame: Frame, oneWay: bool)
    ensures exists es, c: nat :: var w := WorldRun(EMPTY, es);
              && Marked(w, Request(c, frame, oneWay), 3) && c < |w.calls| && w.calls[c].frame == frame
              && w.calls[c].at == Finished(Failed, None)
  {
    var w := TriedAll(frame, oneWay, 3, 3);
    var es :| WorldRun(EMPTY, es) == w;
    assert Marked(w, Request(3, frame, oneWay), 3);
  }

  // ---------------------------------------------------------- the plain exchange

  lemma UnansweredShape(cl: ClientSide)
    requires cl.c == AwaitAnswer(0) && cl.downAt == 0 && cl.outcomes == []
    ensures ClientLoses(cl, [], true, true) == cl.(outcomes := [NoSession], c := Gone)
  {
    assert [] + [NoSession] == [NoSession];
  }

  /** A server that ends before it answers a session request. */
  lemma Unanswered(r: Request) returns (l: Link)
    ensures Leads(Dial(r, false, true), l) && l.cl.reqs == [r] && l.cl.outcomes == [NoSession] && l.sv.log == []
  {
    var a := Dial(r, false, true);
    var l0 := Opens(r, false, true);
    Stepped(a, l0, FromServer(ServerEvent.Stop));
    var l1 := LinkStep(l0, FromServer(ServerEvent.Stop));
    UnansweredShape(l1.cl);
    Stepped(a, l1, FromClient(LoseAnswer(true)));
    l := LinkStep(l1, FromClient(LoseAnswer(true)));
  }

  /** The call then is about to make a plain exchange. */
  lemma UnansweredTurn(w: World, c: nat) returns (w': World)
    requires Reachable(w) && Trying(w, c)
    ensures Reachable(w') && |w'.links| == |w.links| + 1 && w'.links[..|w.links|] == w.links
    ensures w'.calls == w.calls[c := w.calls[c].(attempts := w.calls[c].attempts + 1, at := Ready(true))]
    ensures w'.links[|w.links|].cl.reqs == [Asked(w, c)] && w'.links[|w.links|].cl.outcomes == [NoSession]
    ensures w'.links[|w.links|].sv.log == []
  {
    ReachStep(w, Open(c, true));
    var w1 := WorldStep(w, Open(c, true));
    var l := Unanswered(Asked(w, c));
    LeadsLifted(w1, |w.links|, l);
    var w2 := w1.(links := w1.links[|w.links| := l]);
    assert w2.links == w.links + [l];
    ReachStep(w2, Collect(c));
    w' := WorldStep(w2, Collect(c));
  }

  lemma PlainExchange(r: Request, body: Frame, wrapped: bool) returns (l: Link)
    ensures Leads(Dial(r, true, wrapped), l) && Completed(l, r, body)
  {
    var a := Dial(r, true, wrapped);
    DialReached(r, true, wrapped);
    var m := PlainMidway(r, wrapped);
    if r.oneWay {
      l := FinishOneWay(a, m, r, true);
    } else {
      l := FinishExchange(a, m, r, body, true);
    }
  }

  /** For every frame and reply: some run leaves a call's session request unanswered,
      and then carries the call out as a plain exchange on a second connection. */
  lemma PlainAfterNoAnswer(frame: Frame, oneWay: bool, body: Frame, wrapped: bool)
    ensures exists es :: var w := WorldRun(EMPTY, es);
              var r := Request(0, frame, oneWay);
              && |w.links| == 2 && w.links[0].cl.outcomes == [NoSession] && w.links[0].sv.log == []
              && |w.calls| == 1 && w.calls[0].at == Finished(if oneWay then Submitted else Replied(body), Some(Place(1, 0)))
              && w.links[1].cl.plain && w.links[1].cl.reqs == [r]
              && |w.links[1].sv.log| == 1 && w.links[1].sv.log[0] == Entry(Some(frame), if oneWay then None else Some(body))
  {
    assert WorldRun(EMPTY, []) == EMPTY;
    ReachStep(EMPTY, Arrive(frame, oneWay, false));
    var w0 := WorldStep(EMPTY, Arrive(frame, oneWay, false));
    var w1 := UnansweredTurn(w0, 0);
    var l := PlainExchange(Request(0, frame, oneWay), body, wrapped);
    PlainStays(Dial(Request(0, frame, oneWay), true, wrapped), l);
    var w := OpenedTurn(w1, 0, wrapped, l, if oneWay then Submitted else Replied(body));
    var es :| WorldRun(EMPTY, es) == w;
  }

  lemma PlainStays(a: Link, l: Link)
    requires Leads(a, l)
    ensures l.cl.plain == a.cl.plain
  {
    var es :| OneRequest(es) && Run(a, es) == l;
    PlainRun(a, es);
  }
}
