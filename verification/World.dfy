/** Every call of a client's pool for one endpoint, over all the connections it
    opens: up to three attempts on pooled or new connections, and one plain
    exchange where the endpoint does not serve sessions (listen/pool.go:175-283,
    listen/framed.go:243-304). */
module Worlds {
  import opened Options
  import opened Wire
  import opened SessionCalls
  import opened Links
  import opened LinkInvariant
  import opened ClientSteps
  import opened LinkRuns

  const SESSION_ATTEMPTS := 3

  /** The k-th request on a connection. */
  datatype Place = Place(link: nat, k: nat)

  datatype At =
    | Ready(plain: bool)                            // about to make an attempt
    | On(place: Place)                              // waiting for a request it made
    | Finished(outcome: Outcome, last: Option<Place>)

  datatype Call = Call(frame: Frame, oneWay: bool, attempts: nat, at: At)

  datatype World = World(links: seq<Link>, calls: seq<Call>)

  datatype Event =
    | Arrive(frame: Frame, oneWay: bool, plain: bool)
    | Open(c: nat, wrapped: bool)                   // a new connection
    | Pick(c: nat, i: nat)                          // one from the pool
    | Collect(c: nat)                               // the outcome of its request
    | GiveUp(c: nat)                                // dialing or checking the server failed
    | Wire(i: nat, e: LinkEvent)                    // a step of one connection

  predicate MayTry(w: World, c: nat) {
    c < |w.calls| && w.calls[c].at.Ready? && (w.calls[c].at.plain || w.calls[c].attempts < SESSION_ATTEMPTS)
  }

  function Asked(w: World, c: nat): Request
    requires c < |w.calls|
  {
    Request(c, w.calls[c].frame, w.calls[c].oneWay)
  }

  function Placed(w: World, c: nat, p: Place): seq<Call>
    requires c < |w.calls|
  {
    w.calls[c := w.calls[c].(at := On(p), attempts := w.calls[c].attempts + 1)]
  }

  /** What a call does with what it learned: a closing marker leads to another
      attempt while there is one left, an unanswered session request to one plain
      exchange, and anything else ends the call. */
  function After(c: Call, o: Outcome, p: Place): At {
    match o
    case Retry => if c.attempts < SESSION_ATTEMPTS then Ready(false) else Finished(Failed, None)
    case NoSession => Ready(true)
    case _ => Finished(o, Some(p))
  }

  function WorldStep(w: World, e: Event): World {
    match e
    case Arrive(frame, oneWay, plain) => w.(calls := w.calls + [Call(frame, oneWay, 0, Ready(plain))])
    case Open(c, wrapped) =>
      if MayTry(w, c) then
        World(w.links + [Dial(Asked(w, c), w.calls[c].at.plain, wrapped)], Placed(w, c, Place(|w.links|, 0)))
      else w
    case Pick(c, i) =>
      if MayTry(w, c) && !w.calls[c].at.plain && i < |w.links| && w.links[i].cl.c.Pooled? then
        World(w.links[i := LinkStep(w.links[i], FromClient(Reuse(Asked(w, c))))],
              Placed(w, c, Place(i, |w.links[i].cl.reqs|)))
      else w
    case Collect(c) =>
      if c < |w.calls| && w.calls[c].at.On? then
        var p := w.calls[c].at.place;
        if p.link < |w.links| && p.k < |w.links[p.link].cl.outcomes| then
          w.(calls := w.calls[c := w.calls[c].(at := After(w.calls[c], w.links[p.link].cl.outcomes[p.k], p))])
        else w
      else w
    case GiveUp(c) =>
      if c < |w.calls| && w.calls[c].at.Ready? then w.(calls := w.calls[c := w.calls[c].(at := Finished(Failed, None))]) else w
    case Wire(i, le) =>
      if i < |w.links| && !(le.FromClient? && le.ce.Reuse?) then w.(links := w.links[i := LinkStep(w.links[i], le)]) else w
  }

  function WorldRun(w: World, es: seq<Event>): World
    decreases |es|
  {
    if es == [] then w else WorldRun(WorldStep(w, es[0]), es[1..])
  }

  const EMPTY := World([], [])

  /** Some run of all calls comes to this. */
  ghost predicate Reachable(w: World) {
    exists es :: WorldRun(EMPTY, es) == w
  }

  lemma {:induction false} RunOneMore(w: World, es: seq<Event>, e: Event)
    ensures WorldRun(w, es + [e]) == WorldStep(WorldRun(w, es), e)
    decreases |es|
  {
    if es == [] {
      assert WorldRun(w, [e]) == WorldRun(WorldStep(w, e), []);
      assert [] + [e] == [e];
    } else {
      RunOneMore(WorldStep(w, es[0]), es[1..], e);
      assert (es + [e])[1..] == es[1..] + [e];
    }
  }

  lemma ReachStep(w: World, e: Event)
    requires Reachable(w)
    ensures Reachable(WorldStep(w, e))
  {
    var es :| WorldRun(EMPTY, es) == w;
    RunOneMore(EMPTY, es, e);
  }

  /** The request that may still count as this call's. */
  function Home(c: Call): Option<Place> {
    match c.at
    case Ready(_) => None
    case On(p) => Some(p)
    case Finished(_, last) => last
  }

  predicate Released(l: Link, k: nat) {
    k < |l.cl.outcomes| && (l.cl.outcomes[k].Retry? || l.cl.outcomes[k].NoSession?)
  }

  /** Each request is made for a call, with its frame, and is the call's current
      or last one or was released to be repeated. */
  predicate RequestOk(l: Link, i: nat, k: nat, calls: seq<Call>)
    requires k < |l.cl.reqs|
  {
    var r := l.cl.reqs[k];
    && r.call < |calls| && r.frame == calls[r.call].frame && r.oneWay == calls[r.call].oneWay
    && (Home(calls[r.call]) == Some(Place(i, k)) || Released(l, k))
  }

  predicate LinkOk(l: Link, i: nat, calls: seq<Call>) {
    forall k :: 0 <= k < |l.cl.reqs| ==> RequestOk(l, i, k, calls)
  }

  /** A call's place is a request of its own, with the outcome it reported. */
  predicate CallOk(w: World, c: nat)
    requires c < |w.calls|
  {
    if Home(w.calls[c]).None? then w.calls[c].at.Finished? ==> w.calls[c].at.outcome.Failed?
    else
      var p := Home(w.calls[c]).value;
      && p.link < |w.links| && p.k < |w.links[p.link].cl.reqs| && w.links[p.link].cl.reqs[p.k].call == c
      && (w.calls[c].at.Finished? ==>
            p.k < |w.links[p.link].cl.outcomes| && w.links[p.link].cl.outcomes[p.k] == w.calls[c].at.outcome)
  }

  /** The account of requests and calls, whatever happens on the connections. */
  ghost predicate Ledger(w: World) {
    && (forall i :: 0 <= i < |w.links| ==> LinkOk(w.links[i], i, w.calls))
    && (forall c :: 0 <= c < |w.calls| ==> CallOk(w, c))
  }

  ghost predicate LinksInv(links: seq<Link>) {
    forall i :: 0 <= i < |links| ==> Inv(links[i])
  }

  predicate Extends(cl: ClientSide, cl': ClientSide) {
    cl'.reqs == cl.reqs && (cl'.outcomes == cl.outcomes || (|cl'.outcomes| == |cl.outcomes| + 1 && cl'.outcomes[..|cl.outcomes|] == cl.outcomes))
  }

  lemma HeaderExtends(cl: ClientSide, w: Word, single: bool, limit: nat)
    requires cl.reqs != []
    ensures Extends(cl, DecideHeader(cl, w, single, limit))
    ensures Extends(cl, DecideAnswer(cl, w))
  {
  }

  /** A step of the client other than reuse keeps its requests and only adds
      outcomes. */
  lemma ClientExtends(cl: ClientSide, down: seq<Byte>, over: bool, e: ClientEvent)
    requires !e.Reuse?
    ensures Extends(cl, ClientStep(cl, down, over, e))
  {
    if e.Decide? && cl.reqs != [] && 4 <= cl.downAt <= |down| {
      if cl.c.AwaitAnswer? {
        HeaderExtends(cl, Word32(Gathered(down, cl.downAt, 4)), true, 0);
      } else if cl.c.AwaitHeader? {
        HeaderExtends(cl, Word32(Gathered(down, cl.downAt, 4)), cl.c.single, e.limit);
      }
    }
  }

  lemma LinksKeep(w: World, e: Event)
    requires LinksInv(w.links)
    ensures LinksInv(WorldStep(w, e).links)
  {
    match e
    case Open(c, wrapped) =>
      if MayTry(w, c) {
        DialInv(Asked(w, c), w.calls[c].at.plain, wrapped);
        LinksPush(w.links, Dial(Asked(w, c), w.calls[c].at.plain, wrapped));
      }
    case Pick(c, i) => if MayTry(w, c) && i < |w.links| { LinksStep(w.links, i, FromClient(Reuse(Asked(w, c)))); }
    case Wire(i, le) => if i < |w.links| { LinksStep(w.links, i, le); }
    case _ =>
  }

  lemma LinksPush(links: seq<Link>, l: Link)
    requires LinksInv(links) && Inv(l)
    ensures LinksInv(links + [l])
  {
  }

  lemma LinksStep(links: seq<Link>, i: nat, e: LinkEvent)
    requires LinksInv(links) && i < |links|
    ensures LinksInv(links[i := LinkStep(links[i], e)])
  {
    LinkKeeps(links[i], e);
  }

  /** One connection moved on: its requests are there as before. */
  lemma LedgerWire(w: World, i: nat, l': Link)
    requires Ledger(w) && i < |w.links| && Extends(w.links[i].cl, l'.cl)
    ensures Ledger(w.(links := w.links[i := l']))
  {
    var w' := w.(links := w.links[i := l']);
    forall k | 0 <= k < |l'.cl.reqs|
      ensures RequestOk(l', i, k, w.calls)
    {
      assert RequestOk(w.links[i], i, k, w.calls);
    }
    forall c | 0 <= c < |w.calls|
      ensures CallOk(w', c)
    {
      assert CallOk(w, c);
    }
  }

  /** One call moved on, with the same frame: its earlier requests were released. */
  lemma LedgerCall(w: World, c: nat, call: Call)
    requires Ledger(w) && c < |w.calls| && call.frame == w.calls[c].frame && call.oneWay == w.calls[c].oneWay
    requires Home(w.calls[c]).Some? && Home(call) != Home(w.calls[c]) ==>
               var p := Home(w.calls[c]).value; p.link < |w.links| && Released(w.links[p.link], p.k)
    requires CallOk(w.(calls := w.calls[c := call]), c)
    ensures Ledger(w.(calls := w.calls[c := call]))
  {
    var w' := w.(calls := w.calls[c := call]);
    forall i | 0 <= i < |w.links|
      ensures LinkOk(w.links[i], i, w'.calls)
    {
      forall k | 0 <= k < |w.links[i].cl.reqs|
        ensures RequestOk(w.links[i], i, k, w'.calls)
      {
        assert RequestOk(w.links[i], i, k, w.calls);
      }
    }
    forall d | 0 <= d < |w'.calls|
      ensures CallOk(w', d)
    {
      assert CallOk(w, d);
    }
  }

  /** A call's next request joins a connection. */
  lemma LedgerPlace(w: World, w': World, c: nat, p: Place)
    requires Ledger(w) && c < |w.calls| && w.calls[c].at.Ready? && w'.calls == Placed(w, c, p)
    requires p.link < |w'.links| && |w.links| <= |w'.links| <= |w.links| + 1 && (|w'.links| > |w.links| ==> p.link == |w.links|)
    requires forall i :: 0 <= i < |w.links| && i != p.link ==> w'.links[i] == w.links[i]
    requires p.link < |w.links| ==>
               && w'.links[p.link].cl.outcomes == w.links[p.link].cl.outcomes && p.k == |w.links[p.link].cl.reqs|
               && w'.links[p.link].cl.reqs == w.links[p.link].cl.reqs + [Asked(w, c)]
    requires p.link == |w.links| ==> p.k == 0 && w'.links[p.link].cl.reqs == [Asked(w, c)]
    ensures Ledger(w')
  {
    forall i | 0 <= i < |w'.links|
      ensures LinkOk(w'.links[i], i, w'.calls)
    {
      forall k | 0 <= k < |w'.links[i].cl.reqs|
        ensures RequestOk(w'.links[i], i, k, w'.calls)
      {
        if Place(i, k) != p {
          assert RequestOk(w.links[i], i, k, w.calls);
        }
      }
    }
    forall d | 0 <= d < |w'.calls|
      ensures CallOk(w', d)
    {
      assert CallOk(w, d);
    }
  }

  lemma LedgerArrive(w: World, call: Call)
    requires Ledger(w) && call.at.Ready?
    ensures Ledger(w.(calls := w.calls + [call]))
  {
    var w' := w.(calls := w.calls + [call]);
    forall i | 0 <= i < |w.links|
      ensures LinkOk(w.links[i], i, w'.calls)
    {
      forall k | 0 <= k < |w.links[i].cl.reqs|
        ensures RequestOk(w.links[i], i, k, w'.calls)
      {
        assert RequestOk(w.links[i], i, k, w.calls);
      }
    }
    forall d | 0 <= d < |w'.calls|
      ensures CallOk(w', d)
    {
      if d < |w.calls| {
        assert CallOk(w, d);
      }
    }
  }

  lemma LedgerKeeps(w: World, e: Event)
    requires Ledger(w)
    ensures Ledger(WorldStep(w, e))
  {
    var w' := WorldStep(w, e);
    match e
    case Arrive(frame, oneWay, plain) => LedgerArrive(w, Call(frame, oneWay, 0, Ready(plain)));
    case Open(c, _) => if MayTry(w, c) { LedgerPlace(w, w', c, Place(|w.links|, 0)); }
    case Pick(c, i) =>
      if MayTry(w, c) && !w.calls[c].at.plain && i < |w.links| && w.links[i].cl.c.Pooled? {
        LedgerPlace(w, w', c, Place(i, |w.links[i].cl.reqs|));
      }
    case Collect(c) =>
      if c < |w.calls| && w.calls[c].at.On? {
        assert CallOk(w, c);
        var p := w.calls[c].at.place;
        if p.k < |w.links[p.link].cl.outcomes| {
          LedgerCall(w, c, w.calls[c].(at := After(w.calls[c], w.links[p.link].cl.outcomes[p.k], p)));
        }
      }
    case GiveUp(c) => if c < |w.calls| && w.calls[c].at.Ready? { LedgerCall(w, c, w.calls[c].(at := Finished(Failed, None))); }
    case Wire(i, le) =>
      if i < |w.links| && !(le.FromClient? && le.ce.Reuse?) {
        if le.FromClient? {
          ClientExtends(w.links[i].cl, w.links[i].sv.down, w.links[i].sv.s.Over?, le.ce);
        }
        LedgerWire(w, i, LinkStep(w.links[i], le));
      }
  }

  lemma {:induction false} WorldKeeps(w: World, es: seq<Event>)
    requires LinksInv(w.links) && Ledger(w)
    ensures LinksInv(WorldRun(w, es).links) && Ledger(WorldRun(w, es))
    decreases |es|
  {
    if es != [] {
      LinksKeep(w, es[0]);
      LedgerKeeps(w, es[0]);
      WorldKeeps(WorldStep(w, es[0]), es[1..]);
    }
  }

  /** Request p was made for call c and given to a handler. */
  predicate Dispatched(w: World, c: nat, p: Place) {
    && p.link < |w.links| && p.k < |w.links[p.link].cl.reqs| && w.links[p.link].cl.reqs[p.k].call == c
    && p.k < |w.links[p.link].sv.log| && w.links[p.link].sv.log[p.k].frame.Some?
  }

  /** A request the client repeats elsewhere was not given to a handler. */
  lemma ReleasedIsVoid(l: Link, k: nat)
    requires Inv(l) && k < |l.cl.reqs| && k < |l.sv.log| && (l.cl.reqs[k].frame != [] || !l.cl.lossy)
    ensures Released(l, k) ==> l.sv.log[k].frame.None?
  {
    if k < |l.cl.outcomes| {
      assert OutcomeOk(l.cl, l.sv.log, l.sv.s.Over?, k);
    }
  }

  /** The only request of a call that a handler may have been given is its
      current or last one: those it repeated were never dispatched. */
  lemma DispatchedAtHome(w: World, c: nat, p: Place)
    requires LinksInv(w.links) && Ledger(w) && Dispatched(w, c, p)
    requires w.links[p.link].cl.reqs[p.k].frame != [] || !w.links[p.link].cl.lossy
    ensures c < |w.calls| && Home(w.calls[c]) == Some(p)
  {
    var l := w.links[p.link];
    assert LinkOk(l, p.link, w.calls);
    assert RequestOk(l, p.link, p.k, w.calls);
    ReleasedIsVoid(l, p.k);
  }

  /** At most once: in every run of any number of calls over any number of
      connections, however idle timeouts, retirement, expiry, failures and
      repeated attempts interleave, the frame of a call is given to a handler at
      most once, if it is not empty. */
  lemma AtMostOnce(es: seq<Event>, c: nat, p: Place, q: Place)
    requires var w := WorldRun(EMPTY, es);
             Dispatched(w, c, p) && Dispatched(w, c, q) && c < |w.calls| && w.calls[c].frame != []
    ensures p == q
  {
    var w := WorldRun(EMPTY, es);
    WorldKeeps(EMPTY, es);
    assert RequestOk(w.links[p.link], p.link, p.k, w.calls);
    assert RequestOk(w.links[q.link], q.link, q.k, w.calls);
    DispatchedAtHome(w, c, p);
    DispatchedAtHome(w, c, q);
  }

  /** The same for every frame, the empty one too, on connections whose answer to the
      session request was not lost. */
  lemma OnceUnlessLost(es: seq<Event>, c: nat, p: Place, q: Place)
    requires var w := WorldRun(EMPTY, es);
             && Dispatched(w, c, p) && Dispatched(w, c, q)
             && !w.links[p.link].cl.lossy && !w.links[q.link].cl.lossy
    ensures p == q
  {
    var w := WorldRun(EMPTY, es);
    WorldKeeps(EMPTY, es);
    DispatchedAtHome(w, c, p);
    DispatchedAtHome(w, c, q);
  }

  /** The client lost the answer to a session request while the server may have sent it. */
  predicate Loses(e: Event) {
    e.Wire? && e.e.FromClient? && e.e.ce == LoseAnswer(false)
  }

  predicate Lossless(links: seq<Link>) {
    forall i :: 0 <= i < |links| ==> !links[i].cl.lossy
  }

  lemma LossStep(l: Link, e: LinkEvent)
    requires !(e.FromClient? && e.ce == LoseAnswer(false))
    ensures LinkStep(l, e).cl.lossy == l.cl.lossy
  {
    if e.FromClient? && e.ce.Decide? {
      DecideFrame(l.cl, l.sv.down, e.ce.limit);
    } else if e.FromClient? {
      OtherLoss(l.cl, l.sv.down, l.sv.s.Over?, e.ce);
    }
  }

  lemma OtherLoss(cl: ClientSide, down: seq<Byte>, over: bool, e: ClientEvent)
    requires !e.Decide? && e != LoseAnswer(false)
    ensures ClientStep(cl, down, over, e).lossy == cl.lossy
  {
  }

  lemma {:induction false} LosslessRun(w: World, es: seq<Event>)
    requires Lossless(w.links) && forall i :: 0 <= i < |es| ==> !Loses(es[i])
    ensures Lossless(WorldRun(w, es).links)
    decreases |es|
  {
    if es != [] {
      var e := es[0];
      if e.Wire? && e.i < |w.links| {
        LossStep(w.links[e.i], e.e);
      } else if e.Pick? && e.i < |w.links| && MayTry(w, e.c) {
        LossStep(w.links[e.i], FromClient(Reuse(Asked(w, e.c))));
      }
      LosslessRun(WorldStep(w, e), es[1..]);
    }
  }

  /** In every run in which no client loses an answer, every call, whatever its frame,
      is given to a handler at most once. */
  lemma OnceInLosslessRuns(es: seq<Event>, c: nat, p: Place, q: Place)
    requires forall i :: 0 <= i < |es| ==> !Loses(es[i])
    requires var w := WorldRun(EMPTY, es); Dispatched(w, c, p) && Dispatched(w, c, q)
    ensures p == q
  {
    LosslessRun(EMPTY, es);
    OnceUnlessLost(es, c, p, q);
  }

  lemma RepliedAtHome(w: World, c: nat)
    requires LinksInv(w.links) && Ledger(w) && c < |w.calls|
    requires w.calls[c].at.Finished? && w.calls[c].at.outcome.Replied?
    ensures w.calls[c].at.last.Some?
    ensures var p := w.calls[c].at.last.value;
            && Dispatched(w, c, p)
            && w.links[p.link].sv.log[p.k].frame == Some(w.calls[c].frame)
            && w.links[p.link].sv.log[p.k].reply == Some(w.calls[c].at.outcome.body)
  {
    assert CallOk(w, c);
    var p := w.calls[c].at.last.value;
    var l := w.links[p.link];
    assert LinkOk(l, p.link, w.calls);
    assert RequestOk(l, p.link, p.k, w.calls);
    assert Inv(l);
    assert OutcomeOk(l.cl, l.sv.log, l.sv.s.Over?, p.k);
    assert EntryOk(l.cl.plain, l.cl.reqs, l.sv.upAt, l.sv.lead, l.sv.log[p.k], p.k);
  }

  /** A call that returned a reply was dispatched, with exactly its frame, and the
      reply is that handler's. With AtMostOnce: exactly once. */
  lemma RepliedWasDispatched(es: seq<Event>, c: nat)
    requires var w := WorldRun(EMPTY, es);
             c < |w.calls| && w.calls[c].at.Finished? && w.calls[c].at.outcome.Replied?
    ensures var w := WorldRun(EMPTY, es);
            && w.calls[c].at.last.Some?
            && var p := w.calls[c].at.last.value;
               && Dispatched(w, c, p)
               && w.links[p.link].sv.log[p.k].frame == Some(w.calls[c].frame)
               && w.links[p.link].sv.log[p.k].reply == Some(w.calls[c].at.outcome.body)
  {
    WorldKeeps(EMPTY, es);
    RepliedAtHome(WorldRun(EMPTY, es), c);
  }
}
