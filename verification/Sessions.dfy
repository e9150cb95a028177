/** A session goes on: one connection carries any number of requests, one after
    another, each to a handler and each reply back (listen/session.go:464-606,
    listen/pool.go:205-294). */
module Sessions {
  import opened Options
  import opened Wire
  import opened SessionCalls
  import opened Links
  import opened LinkInvariant
  import opened ClientSteps
  import opened ServerSteps
  import opened LinkRuns
  import opened Exchanges

  /** What the client learns of a request that was carried out. */
  function Learned(r: Request, body: Frame): Outcome {
    if r.oneWay then Submitted else Replied(body)
  }

  /** What the server records of it. */
  function Recorded(r: Request, body: Frame): Entry {
    Entry(Some(r.frame), if r.oneWay then None else Some(body))
  }

  /** The body of the answer that is put on the wire. */
  function Wired(r: Request, body: Frame): Frame {
    if r.oneWay then [] else body
  }

  /** These requests were carried out, each with its own frame and reply. */
  predicate Through(l: Link, rs: seq<Request>, bodies: seq<Frame>) {
    && |l.cl.outcomes| == |l.sv.log| == |rs| == |bodies| <= |l.cl.reqs| && l.cl.reqs[..|rs|] == rs
    && forall k :: 0 <= k < |rs| ==> l.cl.outcomes[k] == Learned(rs[k], bodies[k]) && l.sv.log[k] == Recorded(rs[k], bodies[k])
  }

  /** Both ends wait: the connection is in the pool, and the session goes on. */
  predicate AtRest(l: Link) {
    l.cl.c.Pooled? && l.sv.s == Idle(0) && !l.sv.retiring && !l.sv.expired
  }

  /** A request is begun behind those: its header is in the server's hand, all of it
      is sent, and the client waits for the answer where the wire ends. */
  predicate Begun(l: Link, rs: seq<Request>, bodies: seq<Frame>, r: Request) {
    && Through(l, rs, bodies) && l.cl.reqs == rs + [r] && l.cl.c == AwaitHeader(0, false)
    && l.sv.s == Starting(Header(r)) && !l.sv.retiring && !l.sv.expired && l.cl.downAt == |l.sv.down|
  }

  // ------------------------------------------------------------- the server's part

  /** Where both ends stand with a request begun, by the invariant. */
  lemma BegunIs(l: Link, rs: seq<Request>, bodies: seq<Frame>, r: Request)
    requires Reached(l) && Begun(l, rs, bodies, r)
    ensures Starts(l.cl.up, Flat(false, rs + [r], |rs| + 1)) && |l.cl.up| == UpOff(rs + [r], |rs| + 1)
    ensures l.sv.upAt == UpOff(rs + [r], |rs|) + 4
  {
    ReachedInv(l);
  }

  lemma FrameBytes(reqs: seq<Request>, up: seq<Byte>, k: nat, r: Request)
    requires k < |reqs| && reqs[k] == r && Starts(up, Flat(false, reqs, |reqs|)) && UpOff(reqs, k + 1) <= |up|
    ensures var at := UpOff(reqs, k) + 4; at + |r.frame| <= |up| && up[at..at + |r.frame|] == r.frame
  {
    assert UpOff(reqs, k + 1) == UpOff(reqs, k) + 4 + |r.frame|;
    UpAt(false, reqs, up, k, 4, |r.frame|);
    assert Sent(false, r)[4..4 + |r.frame|] == r.frame;
  }

  /** The frame of the request begun is there to be read. */
  lemma FrameAhead(l: Link, rs: seq<Request>, bodies: seq<Frame>, r: Request)
    requires Reached(l) && Begun(l, rs, bodies, r)
    ensures l.sv.upAt + |r.frame| <= |l.cl.up| && l.cl.up[l.sv.upAt..l.sv.upAt + |r.frame|] == r.frame
  {
    BegunIs(l, rs, bodies, r);
    FrameBytes(rs + [r], l.cl.up, |rs|, r);
  }

  /** The server once a handler runs with the frame. */
  function RunningWith(sv: ServerSide, r: Request): ServerSide {
    sv.(upAt := sv.upAt + |r.frame|, s := Running(InCall(r.oneWay)), log := sv.log + [Entry(Some(r.frame), None)])
  }

  lemma DispatchShape(sv: ServerSide, up: seq<Byte>, r: Request, log: seq<Entry>)
    requires sv.s == Body(|r.frame|, |r.frame|, InCall(r.oneWay)) && sv.log == log + [Entry(None, None)]
    requires |r.frame| <= sv.upAt <= |up| && up[sv.upAt - |r.frame|..sv.upAt] == r.frame
    ensures ServerDispatch(sv, up) == sv.(s := Running(InCall(r.oneWay)), log := log + [Entry(Some(r.frame), None)])
  {
    assert Gathered(up, sv.upAt, |r.frame|) == r.frame;
    assert sv.log[|sv.log| - 1 := Entry(Some(r.frame), None)] == log + [Entry(Some(r.frame), None)];
  }

  /** A header in hand becomes a call, and the call is dispatched. */
  lemma Dispatches(a: Link, l: Link, r: Request) returns (l': Link)
    requires Leads(a, l) && l.sv.s == Starting(Header(r)) && Header(r) != CLOSING
    requires l.sv.upAt + |r.frame| <= |l.cl.up| && l.cl.up[l.sv.upAt..l.sv.upAt + |r.frame|] == r.frame
    ensures Leads(a, l') && l' == l.(sv := RunningWith(l.sv, r))
  {
    var up := l.cl.up;
    DeliverShape(l.sv, r);
    Stepped(a, l, FromServer(Deliver));
    var l1 := LinkStep(l, FromServer(Deliver));
    TakeShape(l1.sv, up, |r.frame|);
    Stepped(a, l1, FromServer(Admit(|r.frame|)));
    var l2 := LinkStep(l1, FromServer(Admit(|r.frame|)));
    Stepped(a, l2, FromServer(Take(|r.frame|)));
    var l3 := LinkStep(l2, FromServer(Take(|r.frame|)));
    DispatchShape(l3.sv, up, r, l.sv.log);
    Stepped(a, l3, FromServer(Dispatch));
    l' := LinkStep(l3, FromServer(Dispatch));
  }

  /** A whole reply in one write keeps a session that does not retire. */
  lemma WholeReply(down: seq<Byte>, body: Frame)
    ensures var w := WriteStep(Reply([], 0, false, false, down), Be32(|body|) + body, true).reply;
            w.continued && w.wire == down + Answer(body, true)
  {
    var r, whole := Reply([], 0, false, false, down), Be32(|body|) + body;
    assert Agrees(r, down, [], false);
    WriteAgrees(r, down, [], false, whole, true);
    PartOfFrame(body, 4 + |body|, true);
    assert [] + whole == whole == whole[..4 + |body|];
    assert Answer(body, true)[..4 + |body|] == Answer(body, true);
  }

  /** The server once the answer is on the wire. */
  function AnsweredWith(sv: ServerSide, r: Request, body: Frame, log: seq<Entry>): ServerSide {
    sv.(s := Answered(true, InCall(r.oneWay)), log := log + [Recorded(r, body)],
        wired := sv.wired + [Wired(r, body)], down := sv.down + Answer(Wired(r, body), true))
  }

  lemma RespondShape(sv: ServerSide, r: Request, body: Frame, log: seq<Entry>)
    requires sv.s == Running(InCall(false)) && sv.log == log + [Entry(Some(r.frame), None)] && !r.oneWay
    requires !sv.retiring && !sv.expired && sv.tail.Nothing?
    ensures ServerOffer(ServerRespond(sv, body), 4 + |body|, None) == AnsweredWith(sv, r, body, log)
  {
    var whole := Be32(|body|) + body;
    assert sv.log[|sv.log| - 1 := Recorded(r, body)] == log + [Recorded(r, body)];
    assert whole[0..0 + (4 + |body|)] == whole;
    WholeReply(sv.down, body);
  }

  lemma CloseShape(sv: ServerSide, r: Request, body: Frame, log: seq<Entry>)
    requires sv.s == Running(InCall(true)) && sv.log == log + [Entry(Some(r.frame), None)] && r.oneWay
    requires !sv.retiring && !sv.expired
    ensures ServerClose(sv, None) == AnsweredWith(sv, r, body, log)
  {
  }

  /** The handler replies, or closes a one-way call. */
  lemma Responds(a: Link, l: Link, r: Request, body: Frame, log: seq<Entry>) returns (l': Link)
    requires Leads(a, l) && l.sv.s == Running(InCall(r.oneWay)) && l.sv.log == log + [Entry(Some(r.frame), None)]
    requires !l.sv.retiring && !l.sv.expired && l.sv.tail.Nothing?
    ensures Leads(a, l') && l' == l.(sv := AnsweredWith(l.sv, r, body, log))
  {
    if r.oneWay {
      CloseShape(l.sv, r, body, log);
      Stepped(a, l, FromServer(Close(None)));
      l' := LinkStep(l, FromServer(Close(None)));
    } else {
      l' := RepliesWhole(a, l, r, body, log);
    }
  }

  lemma RepliesWhole(a: Link, l: Link, r: Request, body: Frame, log: seq<Entry>) returns (l': Link)
    requires Leads(a, l) && l.sv.s == Running(InCall(false)) && l.sv.log == log + [Entry(Some(r.frame), None)] && !r.oneWay
    requires !l.sv.retiring && !l.sv.expired && l.sv.tail.Nothing?
    ensures Leads(a, l') && l' == l.(sv := AnsweredWith(l.sv, r, body, log))
  {
    RespondShape(l.sv, r, body, log);
    ServerMoves(a, l, Respond(body), ServerRespond(l.sv, body));
    var l1 := l.(sv := ServerRespond(l.sv, body));
    ServerMoves(a, l1, Offer(4 + |body|, None), ServerOffer(l1.sv, 4 + |body|, None));
    l' := l.(sv := ServerOffer(l1.sv, 4 + |body|, None));
  }

  lemma ServerMoves(a: Link, l: Link, e: ServerEvent, sv': ServerSide)
    requires Leads(a, l) && ServerStep(l.sv, l.cl.up, e) == sv'
    ensures Leads(a, l.(sv := sv'))
  {
    Stepped(a, l, FromServer(e));
  }

  lemma IdleShape(sv: ServerSide, view: View)
    requires sv.s == Answered(true, view) && view.InCall? && !sv.retiring && !sv.expired
    ensures ServerAfterCall(sv, None) == sv.(s := Idle(0))
  {
  }

  /** From the header in hand to the next wait. */
  lemma Serves(a: Link, l: Link, rs: seq<Request>, bodies: seq<Frame>, r: Request, body: Frame) returns (l': Link)
    requires Reached(a) && Leads(a, l) && Begun(l, rs, bodies, r) && Header(r) != CLOSING && l.sv.tail.Nothing?
    ensures Leads(a, l') && l'.cl == l.cl
    ensures l'.sv == AnsweredWith(RunningWith(l.sv, r), r, body, l.sv.log).(s := Idle(0))
  {
    LeadsReached(a, l);
    FrameAhead(l, rs, bodies, r);
    var l1 := Dispatches(a, l, r);
    var l2 := Responds(a, l1, r, body, l.sv.log);
    IdleShape(l2.sv, InCall(r.oneWay));
    Stepped(a, l2, FromServer(AfterCall(None)));
    l' := LinkStep(l2, FromServer(AfterCall(None)));
  }

  // ------------------------------------------------------------- the client's part

  /** The header of the answer, where the client waits for it. */
  lemma HeaderAhead(down: seq<Byte>, body: Frame)
    ensures var all := down + Answer(body, true);
            Word32(Gathered(all, |down| + 4, 4)) == ReplyHeader(|body|, true) && Gathered(all, |down| + 4 + |body|, |body|) == body
  {
    var all := down + Answer(body, true);
    assert Gathered(all, |down| + 4, 4) == Be32(ReplyHeader(|body|, true));
    WordRoundTrip(ReplyHeader(|body|, true));
    assert Gathered(all, |down| + 4 + |body|, |body|) == body;
  }

  /** The client once it has read the answer. */
  function LearnedFrom(cl: ClientSide, r: Request, body: Frame): ClientSide {
    cl.(downAt := cl.downAt + 4 + |Wired(r, body)|, outcomes := cl.outcomes + [Learned(r, body)], c := Pooled)
  }

  lemma HeaderDecided(cl: ClientSide, r: Request, body: Frame)
    requires cl.reqs != [] && Current(cl) == r
    ensures DecideHeader(cl, ReplyHeader(|Wired(r, body)|, true), false, |Wired(r, body)|) ==
            if r.oneWay then Finish(cl, Submitted, Pooled) else cl.(c := AwaitBody(true, |body|, 0))
  {
    ReplyHeaderFields(|Wired(r, body)|, true);
  }

  /** The header is read and decided on. */
  lemma ReadsHeader(a: Link, l: Link, r: Request, body: Frame, down: seq<Byte>) returns (l': Link)
    requires Leads(a, l) && l.cl.c == AwaitHeader(0, false) && l.cl.reqs != [] && Current(l.cl) == r
    requires l.cl.downAt == |down| && l.sv.down == down + Answer(Wired(r, body), true)
    ensures Leads(a, l') && l'.sv == l.sv
    ensures var cl := l.cl.(downAt := l.cl.downAt + 4, c := AwaitHeader(4, false));
            l'.cl == if r.oneWay then Finish(cl, Submitted, Pooled) else cl.(c := AwaitBody(true, |body|, 0))
  {
    HeaderAhead(down, Wired(r, body));
    Stepped(a, l, FromClient(Read(4)));
    var l1 := LinkStep(l, FromClient(Read(4)));
    ReadFour(l, false);
    HeaderDecided(l1.cl, r, body);
    Stepped(a, l1, FromClient(Decide(|Wired(r, body)|)));
    l' := LinkStep(l1, FromClient(Decide(|Wired(r, body)|)));
  }

  lemma BodyShape(cl: ClientSide, down: seq<Byte>, body: Frame)
    requires cl.c == AwaitBody(true, |body|, 0) && cl.reqs != [] && cl.downAt + |body| <= |down|
    requires Gathered(down, cl.downAt + |body|, |body|) == body
    ensures ClientDecide(ClientRead(cl, down, |body|), down, 0) ==
            cl.(downAt := cl.downAt + |body|, outcomes := cl.outcomes + [Replied(body)], c := Pooled)
  {
  }

  lemma ReadsAnswer(a: Link, l: Link, r: Request, body: Frame, down: seq<Byte>) returns (l': Link)
    requires Leads(a, l) && l.cl.c == AwaitHeader(0, false) && l.cl.reqs != [] && Current(l.cl) == r
    requires l.cl.downAt == |down| && l.sv.down == down + Answer(Wired(r, body), true)
    ensures Leads(a, l') && l' == l.(cl := LearnedFrom(l.cl, r, body))
  {
    var l1 := ReadsHeader(a, l, r, body, down);
    if r.oneWay {
      l' := l1;
    } else {
      HeaderAhead(down, body);
      BodyShape(l1.cl, l.sv.down, body);
      Stepped(a, l1, FromClient(Read(|body|)));
      var l2 := LinkStep(l1, FromClient(Read(|body|)));
      Stepped(a, l2, FromClient(Decide(0)));
      l' := LinkStep(l2, FromClient(Decide(0)));
    }
  }

  // ---------------------------------------------------------------- one more request

  lemma Appended(l: Link, l': Link, rs: seq<Request>, bodies: seq<Frame>, r: Request, body: Frame)
    requires Begun(l, rs, bodies, r)
    requires l'.cl == LearnedFrom(l.cl, r, body) && l'.sv == AnsweredWith(RunningWith(l.sv, r), r, body, l.sv.log).(s := Idle(0))
    ensures AtRest(l') && Through(l', rs + [r], bodies + [body]) && l'.cl.reqs == rs + [r]
  {
  }

  /** A request begun is carried out, and the connection comes to rest again. */
  lemma CarriedOut(a: Link, l: Link, rs: seq<Request>, bodies: seq<Frame>, r: Request, body: Frame) returns (l': Link)
    requires Reached(a) && Leads(a, l) && Begun(l, rs, bodies, r) && Header(r) != CLOSING && l.sv.tail.Nothing?
    ensures Leads(a, l') && AtRest(l') && Through(l', rs + [r], bodies + [body]) && l'.cl.reqs == rs + [r]
  {
    var l1 := Serves(a, l, rs, bodies, r, body);
    l' := ReadsAnswer(a, l1, r, body, l.sv.down);
    Appended(l, l', rs, bodies, r, body);
  }

  /** Where both ends stand when they wait, by the invariant. */
  lemma RestIs(l: Link)
    requires Reached(l) && AtRest(l)
    ensures !l.cl.plain && l.sv.lead == Some(ACCEPT) && l.sv.tail.Nothing? && l.cl.reqs != []
    ensures |l.sv.log| <= |l.cl.reqs| && l.sv.upAt == UpOff(l.cl.reqs, |l.sv.log|)
    ensures |l.cl.up| == UpOff(l.cl.reqs, |l.cl.reqs|) && l.cl.downAt == |l.sv.down|
  {
    ReachedInv(l);
    WireIsBase(l.sv.down, l.sv.lead, l.sv.wired);
  }

  /** The next request, reusing the connection, and all of it sent. */
  lemma ReuseShape(cl: ClientSide, down: seq<Byte>, over: bool, r: Request)
    requires cl.c.Pooled? && !cl.plain
    ensures ClientWrite(ClientStep(cl, down, over, Reuse(r)), 4 + |r.frame|) ==
            cl.(reqs := cl.reqs + [r], up := cl.up + Sent(false, r), c := AwaitHeader(0, false))
  {
    var b := Sent(false, r);
    assert b[|b| - (4 + |r.frame|)..|b| - (4 + |r.frame|) + (4 + |r.frame|)] == b;
  }

  /** A waiting server that reads a whole header, and no timeout, has it in hand. */
  lemma HeaderInHand(sv: ServerSide, up: seq<Byte>, r: Request, before: seq<Byte>)
    requires sv.s == Idle(0) && !sv.retiring && !sv.expired && up == before + Sent(false, r) && sv.upAt == |before|
    ensures ServerIdleEnds(ServerTake(sv, up, 4), up, false, None) == sv.(upAt := sv.upAt + 4, s := Starting(Header(r)))
  {
    SentHead(false, r);
    assert Gathered(up, sv.upAt + 4, 4) == Sent(false, r)[0..4];
    WordRoundTrip(Header(r));
  }

  lemma NextBegins(l: Link, rs: seq<Request>, bodies: seq<Frame>, r: Request) returns (l': Link)
    requires Reached(l) && AtRest(l) && Through(l, rs, bodies) && l.cl.reqs == rs
    ensures Leads(LinkStep(l, FromClient(Reuse(r))), l') && Begun(l', rs, bodies, r) && l'.sv.tail.Nothing?
  {
    RestIs(l);
    var l1 := Resends(l, r);
    HeaderInHand(l1.sv, l1.cl.up, r, l.cl.up);
    l' := TakesHeader(LinkStep(l, FromClient(Reuse(r))), l1, Header(r));
    BegunAgain(l, l', rs, bodies, r);
  }

  lemma Resends(l: Link, r: Request) returns (l': Link)
    requires l.cl.c.Pooled? && !l.cl.plain
    ensures Leads(LinkStep(l, FromClient(Reuse(r))), l') && l'.sv == l.sv
    ensures l'.cl == l.cl.(reqs := l.cl.reqs + [r], up := l.cl.up + Sent(false, r), c := AwaitHeader(0, false))
  {
    var a := LinkStep(l, FromClient(Reuse(r)));
    assert OneRequest([]) && Run(a, []) == a;
    ReuseShape(l.cl, l.sv.down, l.sv.s.Over?, r);
    Stepped(a, a, FromClient(Write(4 + |r.frame|)));
    l' := LinkStep(a, FromClient(Write(4 + |r.frame|)));
  }

  lemma TakesHeader(a: Link, l: Link, h: Word) returns (l': Link)
    requires Leads(a, l)
    requires ServerIdleEnds(ServerTake(l.sv, l.cl.up, 4), l.cl.up, false, None) == l.sv.(upAt := l.sv.upAt + 4, s := Starting(h))
    ensures Leads(a, l') && l' == l.(sv := l.sv.(upAt := l.sv.upAt + 4, s := Starting(h)))
  {
    Stepped(a, l, FromServer(Take(4)));
    var l1 := LinkStep(l, FromServer(Take(4)));
    Stepped(a, l1, FromServer(IdleEnds(false, None)));
    l' := LinkStep(l1, FromServer(IdleEnds(false, None)));
  }

  lemma BegunAgain(l: Link, l': Link, rs: seq<Request>, bodies: seq<Frame>, r: Request)
    requires AtRest(l) && Through(l, rs, bodies) && l.cl.reqs == rs && l.cl.downAt == |l.sv.down|
    requires l'.cl == l.cl.(reqs := rs + [r], up := l'.cl.up, c := AwaitHeader(0, false))
    requires l'.sv == l.sv.(upAt := l'.sv.upAt, s := Starting(Header(r)))
    ensures Begun(l', rs, bodies, r)
  {
  }

  /** The first request: asked for as a session, and the session accepted. */
  lemma FirstBegins(r: Request) returns (l: Link)
    requires Header(r) != CLOSING
    ensures Leads(Dial(r, false, true), l) && Begun(l, [], [], r) && l.sv.tail.Nothing?
  {
    var a := Dial(r, false, true);
    DialReached(r, false, true);
    var l0 := Opens(r, false, true);
    var l1 := FirstRead(a, l0, r);
    var l2 := RestOfHeader(a, l1, r);
    l := Welcomed(a, l2, r);
  }

  lemma Welcomed(a: Link, l: Link, r: Request) returns (l': Link)
    requires Reached(a) && Leads(a, l) && l.sv.s == Deciding(Header(r)) && !l.sv.retiring && !l.sv.expired
    requires l.cl.c == AwaitAnswer(0) && l.cl.reqs == [r] && l.cl.outcomes == []
    ensures Leads(a, l') && Begun(l', [], [], r) && l'.sv.tail.Nothing?
  {
    DecidingIs(a, l);
    Stepped(a, l, FromServer(AnswerAsk(true, None)));
    var l1 := LinkStep(l, FromServer(AnswerAsk(true, None)));
    assert [] + Be32(ACCEPT) == Be32(ACCEPT);
    LearnShape(l.cl, ACCEPT, r);
    Stepped(a, l1, FromClient(Read(4)));
    var l2 := LinkStep(l1, FromClient(Read(4)));
    Stepped(a, l2, FromClient(Decide(0)));
    var l3 := LinkStep(l2, FromClient(Decide(0)));
    l' := SendsRest(a, l3, r);
  }

  lemma DecidingIs(a: Link, l: Link)
    requires Reached(a) && Leads(a, l) && l.sv.s.Deciding? && l.cl.c == AwaitAnswer(0)
    ensures l.sv.down == [] && l.sv.log == [] && l.sv.tail.Nothing? && l.cl.downAt == 0
  {
    LeadsInv(a, l);
    WireIsBase(l.sv.down, l.sv.lead, l.sv.wired);
  }

  lemma SendsRest(a: Link, l: Link, r: Request) returns (l': Link)
    requires Leads(a, l) && l.cl.reqs == [r] && l.cl.c == AfterSending(l.cl, |r.frame|, false)
    ensures Leads(a, l') && l' == l.(cl := l'.cl) && l'.cl == l.cl.(up := l'.cl.up, c := AwaitHeader(0, false))
  {
    if r.frame == [] {
      l' := l;
    } else {
      Stepped(a, l, FromClient(Write(|r.frame|)));
      l' := LinkStep(l, FromClient(Write(|r.frame|)));
    }
  }

  // ---------------------------------------------------------------- any number of them

  predicate Askable(rs: seq<Request>) {
    forall k :: 0 <= k < |rs| ==> Header(rs[k]) != CLOSING
  }

  /** One connection that carried out all of them. */
  ghost predicate Carries(a: Link, rs: seq<Request>, bodies: seq<Frame>) {
    exists es :: var l := Run(a, es); Through(l, rs, bodies) && l.cl.reqs == rs && AtRest(l)
  }

  lemma LeadsCarries(a: Link, l: Link, rs: seq<Request>, bodies: seq<Frame>, es: seq<LinkEvent>, l': Link)
    requires Run(a, es) == l && Leads(l, l') && Through(l', rs, bodies) && l'.cl.reqs == rs && AtRest(l')
    ensures Carries(a, rs, bodies)
  {
    var fs :| OneRequest(fs) && Run(l, fs) == l';
    RunBoth(a, es, fs);
  }

  /** For every sequence of requests that can ask for a session, and all replies, one
      connection carries them all: each frame is given to a handler, each reply
      returned, in order, and both ends wait for the next one. */
  lemma {:induction false} SessionGoesOn(rs: seq<Request>, bodies: seq<Frame>)
    requires rs != [] && |rs| == |bodies| && Askable(rs)
    ensures Carries(Dial(rs[0], false, true), rs, bodies)
    decreases |rs|
  {
    var n := |rs| - 1;
    if n == 0 {
      FirstCarried(rs[0], bodies[0]);
      assert rs == [rs[0]] && bodies == [bodies[0]];
    } else {
      AllButLast(rs);
      SessionGoesOn(rs[..n], bodies[..n]);
      DialReached(rs[0], false, true);
      OneMore(Dial(rs[0], false, true), rs[..n], bodies[..n], rs[n], bodies[n]);
      Parted(rs);
      Parted(bodies);
    }
  }

  lemma AllButLast(rs: seq<Request>)
    requires 2 <= |rs| && Askable(rs)
    ensures Askable(rs[..|rs| - 1]) && rs[..|rs| - 1][0] == rs[0] && Header(rs[|rs| - 1]) != CLOSING
  {
  }

  lemma Parted<T>(s: seq<T>)
    requires s != []
    ensures s == s[..|s| - 1] + [s[|s| - 1]]
  {
  }

  lemma FirstCarried(r: Request, body: Frame)
    requires Header(r) != CLOSING
    ensures Carries(Dial(r, false, true), [r], [body])
  {
    var a := Dial(r, false, true);
    DialReached(r, false, true);
    var l := FirstBegins(r);
    var l' := CarriedOut(a, l, [], [], r, body);
    assert [] + [r] == [r] && [] + [body] == [body];
    assert Run(a, []) == a;
    LeadsCarries(a, a, [r], [body], [], l');
  }

  lemma CarryingRun(a: Link, rs: seq<Request>, bodies: seq<Frame>) returns (es: seq<LinkEvent>)
    requires Carries(a, rs, bodies)
    ensures var l := Run(a, es); Through(l, rs, bodies) && l.cl.reqs == rs && AtRest(l)
  {
    es :| var l := Run(a, es); Through(l, rs, bodies) && l.cl.reqs == rs && AtRest(l);
  }

  lemma OneMore(a: Link, rs: seq<Request>, bodies: seq<Frame>, r: Request, body: Frame)
    requires Reached(a) && Carries(a, rs, bodies) && Header(r) != CLOSING
    ensures Carries(a, rs + [r], bodies + [body])
  {
    var es := CarryingRun(a, rs, bodies);
    var l := Run(a, es);
    RunReached(a, es);
    var next := LinkStep(l, FromClient(Reuse(r)));
    StepReached(l, FromClient(Reuse(r)));
    var l1 := NextBegins(l, rs, bodies, r);
    var l2 := CarriedOut(next, l1, rs, bodies, r, body);
    assert Run(l, [FromClient(Reuse(r))]) == Run(next, []);
    RunBoth(a, es, [FromClient(Reuse(r))]);
    LeadsCarries(a, next, rs + [r], bodies + [body], es + [FromClient(Reuse(r))], l2);
  }

  lemma {:induction false} RunReached(a: Link, es: seq<LinkEvent>)
    requires Reached(a)
    ensures Reached(Run(a, es))
  {
    var r, plain, wrapped, fs :| a == Run(Dial(r, plain, wrapped), fs);
    RunBoth(Dial(r, plain, wrapped), fs, es);
  }

  // -------------------------------------------------------- the header it cannot have

  /** No call the server records has the closing marker for its header. */
  predicate NoMarkers(l: Link) {
    forall k :: 0 <= k < |l.sv.log| && k < |l.cl.reqs| ==> Header(l.cl.reqs[k]) != CLOSING
  }

  lemma FirstIs(l: Link)
    requires Inv(l) && l.sv.s == First(0)
    ensures l.sv.upAt == 0 && l.cl.reqs != [] && Starts(l.cl.up, Flat(l.cl.plain, l.cl.reqs, |l.cl.reqs|))
  {
  }

  lemma FirstOfSession(reqs: seq<Request>, up: seq<Byte>)
    requires reqs != [] && Starts(up, Flat(false, reqs, |reqs|)) && up != []
    ensures 128 <= up[0]
  {
    UpAt(false, reqs, up, 0, 0, 1);
    FirstByte(false, reqs[0]);
    assert up[0..1][0] == Sent(false, reqs[0])[0..1][0];
  }

  lemma MarkerUntaken(l: Link, n: nat)
    requires Inv(l) && !l.cl.plain
    ensures ServerTake(l.sv, l.cl.up, n).log == l.sv.log
  {
    if l.sv.s == First(0) && n == 1 && l.cl.up != [] {
      FirstIs(l);
      FirstOfSession(l.cl.reqs, l.cl.up);
      assert Gathered(l.cl.up, 1, 1)[0] == l.cl.up[0];
    } else {
      TakeUnlogged(l.sv, l.cl.up, n);
    }
  }

  lemma TakeUnlogged(sv: ServerSide, up: seq<Byte>, n: nat)
    requires sv.s == First(0) ==> n != 1 || |up| < sv.upAt + n
    ensures ServerTake(sv, up, n).log == sv.log
  {
  }

  lemma StartingIs(l: Link)
    requires Inv(l) && l.sv.s.Starting?
    ensures |l.sv.log| < |l.cl.reqs| && l.sv.s == Starting(Header(l.cl.reqs[|l.sv.log|]))
  {
  }

  lemma MarkerUndelivered(l: Link, r: Request)
    requires NoMarkers(l) && l.sv.s == Starting(Header(r)) && |l.sv.log| < |l.cl.reqs| && l.cl.reqs[|l.sv.log|] == r
    ensures NoMarkers(l.(sv := ServerDeliver(l.sv)))
  {
    DeliverShape(l.sv, r);
  }

  lemma MarkerUnanswered(l: Link, accept: bool, cut: Option<nat>)
    requires Inv(l) && NoMarkers(l)
    ensures NoMarkers(l.(sv := ServerAnswer(l.sv, accept, cut)))
  {
  }

  lemma NoMarkersServed(sv: ServerSide, up: seq<Byte>, e: ServerEvent)
    requires !e.Take? && !e.Deliver? && !e.AnswerAsk?
    ensures |ServerStep(sv, up, e).log| == |sv.log|
  {
  }

  lemma NoMarkersStep(l: Link, e: ServerEvent)
    requires Inv(l) && !l.cl.plain && NoMarkers(l)
    ensures NoMarkers(LinkStep(l, FromServer(e)))
  {
    if e.Take? {
      MarkerUntaken(l, e.n);
    } else if e.Deliver? {
      if l.sv.s.Starting? {
        StartingIs(l);
        MarkerUndelivered(l, l.cl.reqs[|l.sv.log|]);
      }
    } else if e.AnswerAsk? {
      MarkerUnanswered(l, e.accept, e.cut);
    } else {
      NoMarkersServed(l.sv, l.cl.up, e);
    }
  }

  lemma NoMarkersAsked(l: Link, e: ClientEvent)
    requires l.cl.reqs != [] && |l.sv.log| <= |l.cl.reqs| && NoMarkers(l)
    ensures NoMarkers(LinkStep(l, FromClient(e))) && LinkStep(l, FromClient(e)).cl.plain == l.cl.plain
  {
    if !(e.Reuse? && l.cl.c.Pooled?) {
      SameRequests(l.cl, l.sv.down, l.sv.s.Over?, e);
    }
  }

  lemma {:induction false} NoMarkersRun(l: Link, es: seq<LinkEvent>)
    requires Inv(l) && !l.cl.plain && NoMarkers(l)
    ensures NoMarkers(Run(l, es))
    decreases |es|
  {
    if es != [] {
      LinkKeeps(l, es[0]);
      if es[0].FromServer? {
        NoMarkersStep(l, es[0].se);
      } else {
        NoMarkersAsked(l, es[0].ce);
      }
      NoMarkersRun(LinkStep(l, es[0]), es[1..]);
    }
  }

  /** A connection can carry out a sequence of requests exactly if none has the closing
      marker for its header. */
  lemma SessionCarriesExactly(rs: seq<Request>, bodies: seq<Frame>)
    requires rs != [] && |rs| == |bodies|
    ensures Carries(Dial(rs[0], false, true), rs, bodies) <==> Askable(rs)
  {
    var a := Dial(rs[0], false, true);
    if Askable(rs) {
      SessionGoesOn(rs, bodies);
    }
    if Carries(a, rs, bodies) {
      var es :| var l := Run(a, es); Through(l, rs, bodies) && l.cl.reqs == rs && AtRest(l);
      DialInv(rs[0], false, true);
      NoMarkersRun(a, es);
    }
  }
}
