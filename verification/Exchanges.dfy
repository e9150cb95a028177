/** Every mode works: whichever way a connection is opened and served, some run
    carries any frame to a handler and any reply of it back to the client. */
module Exchanges {
  import opened Options
  import opened Wire
  import opened SessionCalls
  import opened Links
  import opened LinkInvariant
  import opened ClientSteps
  import opened ServerSteps
  import opened ServerReplies
  import opened LinkRuns

  /** No event of these begins another request. */
  predicate OneRequest(es: seq<LinkEvent>) {
    forall i :: 0 <= i < |es| ==> !(es[i].FromClient? && es[i].ce.Reuse?)
  }

  /** Some run of the request being made leads from one state of a connection to another. */
  ghost predicate Leads(l: Link, l': Link) {
    exists es :: OneRequest(es) && Run(l, es) == l'
  }

  lemma Beheaded<T>(a: seq<T>, b: seq<T>)
    requires a != []
    ensures (a + b)[0] == a[0] && (a + b)[1..] == a[1..] + b
  {
  }

  lemma {:induction false} RunBoth(l: Link, es: seq<LinkEvent>, fs: seq<LinkEvent>)
    ensures Run(l, es + fs) == Run(Run(l, es), fs)
    decreases |es|
  {
    if es == [] {
      assert es + fs == fs;
    } else {
      RunBoth(LinkStep(l, es[0]), es[1..], fs);
      Beheaded(es, fs);
    }
  }

  lemma LeadsOn(a: Link, b: Link, c: Link)
    requires Leads(a, b) && Leads(b, c)
    ensures Leads(a, c)
  {
    var es :| OneRequest(es) && Run(a, es) == b;
    var fs :| OneRequest(fs) && Run(b, fs) == c;
    RunBoth(a, es, fs);
    assert OneRequest(es + fs);
  }

  /** A state some run from a dialed connection comes to. */
  ghost predicate Reached(l: Link) {
    exists r, plain, wrapped, es :: l == Run(Dial(r, plain, wrapped), es)
  }

  lemma DialReached(r: Request, plain: bool, wrapped: bool)
    ensures Reached(Dial(r, plain, wrapped)) && Leads(Dial(r, plain, wrapped), Dial(r, plain, wrapped))
  {
    assert OneRequest([]) && Run(Dial(r, plain, wrapped), []) == Dial(r, plain, wrapped);
  }

  lemma StepReached(l: Link, e: LinkEvent)
    requires Reached(l)
    ensures Reached(LinkStep(l, e))
  {
    var r, plain, wrapped, es :| l == Run(Dial(r, plain, wrapped), es);
    assert Run(l, [e]) == Run(LinkStep(l, e), []);
    RunBoth(Dial(r, plain, wrapped), es, [e]);
  }

  lemma {:induction false} LeadsReached(a: Link, l: Link)
    requires Reached(a) && Leads(a, l)
    ensures Reached(l)
  {
    var r, plain, wrapped, fs :| a == Run(Dial(r, plain, wrapped), fs);
    var es :| OneRequest(es) && Run(a, es) == l;
    RunBoth(Dial(r, plain, wrapped), fs, es);
  }

  lemma {:induction false} ReachedInv(l: Link)
    requires Reached(l)
    ensures Inv(l)
  {
    var r, plain, wrapped, es :| l == Run(Dial(r, plain, wrapped), es);
    DialInv(r, plain, wrapped);
    RunKeeps(Dial(r, plain, wrapped), es);
  }

  lemma {:induction false} LeadsInv(a: Link, l: Link)
    requires Reached(a) && Leads(a, l)
    ensures Inv(l)
  {
    LeadsReached(a, l);
    ReachedInv(l);
  }

  lemma Stepped(a: Link, l: Link, e: LinkEvent)
    requires Leads(a, l) && !(e.FromClient? && e.ce.Reuse?)
    ensures Leads(a, LinkStep(l, e))
  {
    assert OneRequest([e]) && Run(l, [e]) == Run(LinkStep(l, e), []);
    LeadsOn(a, l, LinkStep(l, e));
  }

  /** The request is read up to its frame and waits to be admitted; the client has
      learned how it is served. */
  predicate Midway(l: Link, r: Request, single: bool) {
    && l.cl.reqs == [r] && l.cl.outcomes == [] && l.cl.c == AfterSending(l.cl, |r.frame|, single)
    && l.sv.s.Admitting? && l.sv.s.length == |r.frame| && (single <==> l.sv.s.view.Direct?)
    && l.sv.log == [Entry(None, None)] && l.sv.wired == [] && l.sv.tail.Nothing?
    && l.sv.down == LeadBytes(l.sv.lead) && l.cl.downAt == |l.sv.down|
  }

  /** The rest of the request is sent and read. */
  lemma SendFrame(a: Link, l: Link, r: Request, single: bool) returns (l': Link)
    requires Leads(a, l) && Midway(l, r, single)
    ensures Leads(a, l') && l'.sv == l.sv && l'.cl.reqs == [r] && l'.cl.outcomes == []
    ensures l'.cl.c == if single && r.oneWay then AwaitEnd else AwaitHeader(0, single)
    ensures l'.cl.downAt == l.cl.downAt
  {
    if r.frame == [] {
      l' := l;
    } else {
      Stepped(a, l, FromClient(Write(|r.frame|)));
      l' := LinkStep(l, FromClient(Write(|r.frame|)));
    }
  }

  lemma TakeShape(sv: ServerSide, up: seq<Byte>, n: nat)
    requires sv.s.Admitting? && sv.s.length == n <= LENGTH_MASK && sv.upAt + n <= |up|
    ensures ServerTake(ServerStep(sv, up, Admit(n)), up, n) == sv.(upAt := sv.upAt + n, s := Body(n, n, sv.s.view))
  {
  }

  /** A client that waits for an answer has sent its frame. */
  lemma FrameThere(a: Link, l: Link, r: Request, single: bool)
    requires Reached(a) && Leads(a, l) && l.cl.reqs == [r] && l.sv.s.Admitting? && |l.sv.log| == 1
    requires l.cl.c == if single && r.oneWay then AwaitEnd else AwaitHeader(0, single)
    ensures l.sv.upAt + |r.frame| <= |l.cl.up|
  {
    LeadsInv(a, l);
    assert UpOff([r], 1) == UpOff([r], 0) + 4 + |r.frame|;
  }

  /** The server admits the request and reads its frame. */
  lemma TakeRequest(a: Link, l: Link, r: Request, single: bool) returns (l': Link)
    requires Reached(a) && Leads(a, l) && l.cl.reqs == [r]
    requires l.cl.c == if single && r.oneWay then AwaitEnd else AwaitHeader(0, single)
    requires l.sv.s.Admitting? && l.sv.s.length == |r.frame| && l.sv.log == [Entry(None, None)] && l.sv.wired == []
    ensures Leads(a, l') && l'.cl == l.cl
    ensures l'.sv == l.sv.(upAt := l'.sv.upAt, s := Body(|r.frame|, |r.frame|, l.sv.s.view))
  {
    Stepped(a, l, FromServer(Admit(|r.frame|)));
    var l1 := LinkStep(l, FromServer(Admit(|r.frame|)));
    FrameThere(a, l, r, single);
    TakeShape(l.sv, l.cl.up, |r.frame|);
    Stepped(a, l1, FromServer(Take(|r.frame|)));
    l' := LinkStep(l1, FromServer(Take(|r.frame|)));
  }

  lemma HandleShape(sv: ServerSide, up: seq<Byte>, n: nat, view: View, body: Frame)
    requires sv.s == Body(n, n, view) && view != InCall(true) && |sv.log| == 1
    ensures var sv1 := ServerDispatch(sv, up);
            var sv2 := ServerRespond(sv1, body);
            && sv2 == sv.(s := Replying(body, 0, Reply([], 0, false, false, sv.down), view), log := sv2.log)
            && |sv2.log| == 1 && sv2.log[0].reply == Some(body)
  {
  }

  /** The handler runs and replies. */
  lemma Handle(a: Link, l: Link, n: nat, view: View, body: Frame) returns (l': Link)
    requires Leads(a, l) && l.sv.s == Body(n, n, view)
    requires view != InCall(true) && |l.sv.log| == 1 && l.sv.wired == []
    ensures Leads(a, l') && l'.cl == l.cl && l'.sv.lead == l.sv.lead
    ensures l'.sv.down == l.sv.down && l'.sv.wired == []
    ensures l'.sv.s == Replying(body, 0, Reply([], 0, false, false, l.sv.down), view)
    ensures |l'.sv.log| == 1 && l'.sv.log[0].reply == Some(body)
  {
    Stepped(a, l, FromServer(Dispatch));
    var l1 := LinkStep(l, FromServer(Dispatch));
    HandleShape(l.sv, l.cl.up, n, view, body);
    Stepped(a, l1, FromServer(Respond(body)));
    l' := LinkStep(l1, FromServer(Respond(body)));
  }

  /** How much of an answer that is all there stands behind the lead. */
  predicate AnswerThere(sv: ServerSide, body: Frame) {
    && |sv.down| == |LeadBytes(sv.lead)| + 4 + |body|
    && (sv.wired == [body] || (sv.wired == [] && sv.tail == Payload(body, false)))
  }

  /** The whole reply is offered at once. */
  lemma OfferWhole(sv: ServerSide, body: Frame)
    requires sv.s.Replying? && sv.s.body == body && sv.s.offered == 0 && sv.wired == [] && sv.s.view != InCall(true)
    requires ReplyInv(sv, body, 0, sv.s.r, sv.s.view)
    ensures var sv' := ServerOffer(sv, 4 + |body|, None); AnswerThere(sv', body) && sv'.lead == sv.lead && sv'.log == sv.log
  {
    var m := 4 + |body|;
    assert Base(sv.lead, []) == LeadBytes(sv.lead);
    if sv.s.view.InCall? {
      var w := OfferCarries(sv, m, None);
    } else {
      var whole := Be32(|body|) + body;
      assert whole[0..m] == whole && whole[..0] == [];
    }
  }

  lemma ReplyWhole(a: Link, l: Link, body: Frame) returns (l': Link)
    requires Leads(a, l) && l.sv.s.Replying? && l.sv.s.body == body && l.sv.s.offered == 0
    requires l.sv.s.view != InCall(true) && l.sv.wired == [] && ReplyInv(l.sv, body, 0, l.sv.s.r, l.sv.s.view)
    ensures Leads(a, l') && l'.cl == l.cl && l'.sv.lead == l.sv.lead
    ensures l'.sv.log == l.sv.log && AnswerThere(l'.sv, body)
  {
    OfferWhole(l.sv, body);
    Stepped(a, l, FromServer(Offer(4 + |body|, None)));
    l' := LinkStep(l, FromServer(Offer(4 + |body|, None)));
  }

  /** The word the client reads first is the answer's header. */
  lemma AnswerHeader(sv: ServerSide, body: Frame)
    requires OnWire(sv.down, sv.lead, sv.wired, sv.tail) && AnswerThere(sv, body)
    ensures var at := |LeadBytes(sv.lead)| + 4; Word32(Gathered(sv.down, at, 4)) == ReplyHeader(|body|, sv.wired != [])
  {
    HeaderCases(sv.down, sv.lead, sv.wired, sv.tail, 0);
  }

  lemma HeaderTaken(cl: ClientSide, body: Frame, keep: bool, single: bool)
    requires cl.reqs != [] && !Current(cl).oneWay && (single ==> !keep)
    ensures DecideHeader(cl, ReplyHeader(|body|, keep), single, LENGTH_MASK) == cl.(c := AwaitBody(keep, |body|, 0))
  {
    ReplyHeaderFields(|body|, keep);
  }

  /** Where the client stands before it reads an answer. */
  lemma BeforeAnswer(a: Link, l: Link, single: bool)
    requires Reached(a) && Leads(a, l) && l.cl.c == AwaitHeader(0, single) && |l.cl.reqs| == 1
    ensures l.cl.downAt == |LeadBytes(l.sv.lead)| && (single ==> l.sv.wired == [])
    ensures OnWire(l.sv.down, l.sv.lead, l.sv.wired, l.sv.tail)
  {
    LeadsInv(a, l);
    assert CatOff(l.sv.wired, 0) == 0;
  }

  lemma DecidesHeader(cl: ClientSide, sv: ServerSide, body: Frame, single: bool)
    requires OnWire(sv.down, sv.lead, sv.wired, sv.tail) && AnswerThere(sv, body) && (single ==> sv.wired == [])
    requires cl.reqs != [] && !Current(cl).oneWay && cl.c == AwaitHeader(4, single)
    requires cl.downAt == |LeadBytes(sv.lead)| + 4
    ensures ClientDecide(cl, sv.down, LENGTH_MASK) == cl.(c := AwaitBody(sv.wired != [], |body|, 0))
  {
    AnswerHeader(sv, body);
    HeaderTaken(cl, body, sv.wired != [], single);
  }

  lemma ReadFour(l: Link, single: bool)
    requires l.cl.c == AwaitHeader(0, single) && l.cl.downAt + 4 <= |l.sv.down|
    ensures LinkStep(l, FromClient(Read(4))) == l.(cl := l.cl.(downAt := l.cl.downAt + 4, c := AwaitHeader(4, single)))
  {
  }

  /** The client reads the answer's header. */
  lemma ReadHeader(a: Link, l: Link, r: Request, body: Frame, single: bool) returns (l': Link)
    requires Leads(a, l) && l.cl.c == AwaitHeader(0, single)
    requires l.cl.reqs == [r] && l.cl.outcomes == [] && !r.oneWay
    requires AnswerThere(l.sv, body) && OnWire(l.sv.down, l.sv.lead, l.sv.wired, l.sv.tail)
    requires l.cl.downAt == |LeadBytes(l.sv.lead)| && (single ==> l.sv.wired == [])
    ensures Leads(a, l') && l'.sv == l.sv && l'.cl.c == AwaitBody(l.sv.wired != [], |body|, 0)
    ensures l'.cl.reqs == [r] && l'.cl.outcomes == [] && l'.cl.downAt == |LeadBytes(l.sv.lead)| + 4
  {
    Stepped(a, l, FromClient(Read(4)));
    var l1 := LinkStep(l, FromClient(Read(4)));
    ReadFour(l, single);
    DecidesHeader(l1.cl, l.sv, body, single);
    Stepped(a, l1, FromClient(Decide(LENGTH_MASK)));
    l' := LinkStep(l1, FromClient(Decide(LENGTH_MASK)));
  }

  /** And its body. */
  lemma ReadReply(a: Link, l: Link, keep: bool, body: Frame) returns (l': Link)
    requires Leads(a, l) && l.cl.c == AwaitBody(keep, |body|, 0)
    requires l.cl.reqs != [] && l.cl.outcomes == [] && AnswerThere(l.sv, body)
    requires l.cl.downAt == |LeadBytes(l.sv.lead)| + 4
    ensures Leads(a, l') && l'.sv == l.sv && |l'.cl.outcomes| == 1
    ensures l'.cl.outcomes[0].Replied? && l'.cl.reqs == l.cl.reqs
  {
    Stepped(a, l, FromClient(Read(|body|)));
    var l1 := LinkStep(l, FromClient(Read(|body|)));
    Stepped(a, l1, FromClient(Decide(0)));
    l' := LinkStep(l1, FromClient(Decide(0)));
  }

  /** The exchange is over: the handler had the frame, and the client has its reply. */
  ghost predicate Exchanged(l: Link, r: Request, body: Frame) {
    && l.cl.outcomes == [Replied(body)] && l.cl.reqs == [r]
    && |l.sv.log| == 1 && l.sv.log[0].frame == Some(r.frame) && l.sv.log[0].reply == Some(body)
  }

  lemma Settle(a: Link, l: Link, r: Request, body: Frame)
    requires Reached(a) && Leads(a, l) && l.cl.reqs == [r] && |l.cl.outcomes| == 1 && l.cl.outcomes[0].Replied?
    requires |l.sv.log| == 1 && l.sv.log[0].reply == Some(body)
    ensures Exchanged(l, r, body)
  {
    LeadsInv(a, l);
    assert OutcomeOk(l.cl, l.sv.log, l.sv.s.Over?, 0);
    assert EntryOk(l.cl.plain, l.cl.reqs, l.sv.upAt, l.sv.lead, l.sv.log[0], 0);
  }

  lemma ReplyBegun(a: Link, l: Link)
    requires Reached(a) && Leads(a, l) && l.sv.s.Replying?
    ensures ReplyInv(l.sv, l.sv.s.body, l.sv.s.offered, l.sv.s.r, l.sv.s.view)
  {
    LeadsInv(a, l);
    ReplyingIs(l.cl.plain, l.cl.reqs, l.sv);
  }

  /** The server's part, from the frame to the answer on the wire. */
  lemma ServeWhole(a: Link, l: Link, r: Request, body: Frame, single: bool) returns (l': Link)
    requires Reached(a) && Leads(a, l) && Midway(l, r, single) && !r.oneWay && l.sv.s.view != InCall(true)
    ensures Leads(a, l') && l'.cl.c == AwaitHeader(0, single) && l'.cl.reqs == [r] && l'.cl.outcomes == []
    ensures l'.sv.lead == l.sv.lead && |l'.sv.log| == 1 && l'.sv.log[0].reply == Some(body) && AnswerThere(l'.sv, body)
  {
    var view := l.sv.s.view;
    var l1 := SendFrame(a, l, r, single);
    var l2 := TakeRequest(a, l1, r, single);
    var l3 := Handle(a, l2, |r.frame|, view, body);
    ReplyBegun(a, l3);
    l' := ReplyWhole(a, l3, body);
  }

  lemma FinishExchange(a: Link, l: Link, r: Request, body: Frame, single: bool) returns (l': Link)
    requires Reached(a) && Leads(a, l) && Midway(l, r, single) && !r.oneWay && l.sv.s.view != InCall(true)
    ensures Leads(a, l') && Exchanged(l', r, body) && l'.sv.lead == l.sv.lead
  {
    var l1 := ServeWhole(a, l, r, body, single);
    BeforeAnswer(a, l1, single);
    var l2 := ReadHeader(a, l1, r, body, single);
    l' := ReadReply(a, l2, l1.sv.wired != [], body);
    Settle(a, l', r, body);
  }

  // ------------------------------------------------------------ the openings

  /** The first four bytes are written. */
  lemma Opens(r: Request, plain: bool, wrapped: bool) returns (l: Link)
    ensures Leads(Dial(r, plain, wrapped), l) && l.sv == Dial(r, plain, wrapped).sv
    ensures l.cl.plain == plain && l.cl.up == Be32(if plain then |r.frame| else Header(r)) && l.cl.downAt == 0
    ensures l.cl.reqs == [r] && l.cl.outcomes == []
    ensures l.cl.c == if plain then AfterSending(l.cl, |r.frame|, true) else AwaitAnswer(0)
  {
    var a := Dial(r, plain, wrapped);
    DialReached(r, plain, wrapped);
    Stepped(a, a, FromClient(Write(4)));
    l := LinkStep(a, FromClient(Write(4)));
    SentHead(plain, r);
    assert [] + Sent(plain, r)[0..4] == Sent(plain, r)[0..4];
  }

  /** One byte tells what was opened. */
  lemma FirstRead(a: Link, l: Link, r: Request) returns (l': Link)
    requires Leads(a, l) && l.sv.s == First(0) && l.sv.upAt == 0 && l.sv.log == [] && l.sv.lead.None?
    requires l.cl.up == Be32(if l.cl.plain then |r.frame| else Header(r))
    ensures Leads(a, l') && l'.cl == l.cl && l'.sv.lead == l.sv.lead && l'.sv.upAt == 1
    ensures l'.sv.s == if l.cl.plain then Reading(0, Direct(l.cl.up[..1], 1)) else First(1)
    ensures l'.sv.retiring == l.sv.retiring && l'.sv.expired == l.sv.expired
  {
    var up := l.cl.up;
    FirstByte(l.cl.plain, r);
    assert Gathered(up, 1, 1) == up[..1] == [up[0]] && up[0] == Sent(l.cl.plain, r)[0];
    Stepped(a, l, FromServer(Take(1)));
    l' := LinkStep(l, FromServer(Take(1)));
  }

  lemma RestOfHeader(a: Link, l: Link, r: Request) returns (l': Link)
    requires Leads(a, l) && l.sv.s == First(1) && l.sv.upAt == 1 && l.cl.up == Be32(Header(r)) && Header(r) != CLOSING
    ensures Leads(a, l') && l'.cl == l.cl && l'.sv.s == Deciding(Header(r))
    ensures l'.sv.retiring == l.sv.retiring && l'.sv.expired == l.sv.expired
  {
    var up := l.cl.up;
    WordRoundTrip(Header(r));
    RequestHeaderFields(|r.frame|, r.oneWay);
    assert Gathered(up, 4, 4) == up;
    Stepped(a, l, FromServer(Take(3)));
    l' := LinkStep(l, FromServer(Take(3)));
  }

  lemma MeasureShape(sv: ServerSide, up: seq<Byte>, r: Request, known: bool)
    requires sv.s.Reading? && sv.s.have == 4 && sv.s.view.Direct? && (known || Header(r) != CLOSING)
    requires var head := FirstFour(up, sv.s.view.lent, sv.s.view.skip);
             |head| == 4 && Word32(head) == if known then |r.frame| else Header(r)
    ensures var sv' := ServerLength(sv, up, LENGTH_MASK, None);
            sv'.s == Admitting(|r.frame|, sv.s.view) && sv'.lead == if known then sv.lead else Some(UNSUPPORTED)
  {
    RequestHeaderFields(|r.frame|, r.oneWay);
  }

  lemma HeadThere(a: Link, l: Link, r: Request)
    requires Reached(a) && Leads(a, l) && l.sv.s.Reading? && l.sv.s.have == 4 && l.cl.reqs == [r]
    ensures l.sv.s.view.Direct?
    ensures var head := FirstFour(l.cl.up, l.sv.s.view.lent, l.sv.s.view.skip);
            |head| == 4 && Word32(head) == if l.cl.plain || l.sv.lead.Some? then |r.frame| else Header(r)
  {
    LeadsInv(a, l);
    LentHead(l.cl.plain, l.cl.reqs, l.cl.up, l.sv);
  }

  /** A length that was read, on a connection that is served once. */
  lemma Measures(a: Link, l: Link, r: Request) returns (l': Link)
    requires Reached(a) && Leads(a, l) && l.sv.s.Reading? && l.sv.s.have == 4 && l.cl.reqs == [r]
    requires l.cl.plain || Header(r) != CLOSING
    ensures Leads(a, l') && l'.cl == l.cl && l'.sv.s == Admitting(|r.frame|, l.sv.s.view)
    ensures l'.sv.lead == if l.cl.plain || l.sv.lead.Some? then l.sv.lead else Some(UNSUPPORTED)
  {
    HeadThere(a, l, r);
    MeasureShape(l.sv, l.cl.up, r, l.cl.plain || l.sv.lead.Some?);
    Stepped(a, l, FromServer(Length(LENGTH_MASK, None)));
    l' := LinkStep(l, FromServer(Length(LENGTH_MASK, None)));
  }

  /** The session is accepted, and the header it opened with becomes a call. */
  lemma Accepts(a: Link, l: Link, r: Request) returns (l': Link)
    requires Leads(a, l) && l.sv.s == Deciding(Header(r)) && Header(r) != CLOSING
    ensures Leads(a, l') && l'.cl == l.cl
    ensures l'.sv.s == Admitting(|r.frame|, InCall(r.oneWay)) && l'.sv.lead == Some(ACCEPT)
  {
    Stepped(a, l, FromServer(AnswerAsk(true, None)));
    var l1 := LinkStep(l, FromServer(AnswerAsk(true, None)));
    RequestHeaderFields(|r.frame|, r.oneWay);
    DeliverShape(l1.sv, r);
    Stepped(a, l1, FromServer(Deliver));
    l' := LinkStep(l1, FromServer(Deliver));
  }

  /** It is declined, and the plain length is handed to a receiver. */
  lemma Declines(a: Link, l: Link, r: Request) returns (l': Link)
    requires Reached(a) && Leads(a, l) && l.sv.s == Deciding(Header(r)) && l.cl.reqs == [r] && Header(r) != CLOSING
    ensures Leads(a, l') && l'.cl == l.cl && l'.sv.s.Admitting?
    ensures l'.sv.s.length == |r.frame| && l'.sv.s.view.Direct?
    ensures l'.sv.lead == Some(DECLINE)
  {
    Stepped(a, l, FromServer(AnswerAsk(false, None)));
    var l1 := LinkStep(l, FromServer(AnswerAsk(false, None)));
    Stepped(a, l1, FromServer(Take(4)));
    var l2 := LinkStep(l1, FromServer(Take(4)));
    l' := Measures(a, l2, r);
  }

  /** A listener without sessions hands the connection to a receiver as it is. */
  lemma Receives(a: Link, l: Link, r: Request) returns (l': Link)
    requires Reached(a) && Leads(a, l) && l.sv.s == Reading(0, Direct([], 0))
    requires l.sv.upAt == 0 && |l.cl.up| == 4 && l.cl.reqs == [r] && (l.cl.plain || Header(r) != CLOSING)
    requires l.sv.lead.None?
    ensures Leads(a, l') && l'.cl == l.cl && l'.sv.s.Admitting?
    ensures l'.sv.s.length == |r.frame| && l'.sv.s.view.Direct?
    ensures l'.sv.lead == if l.cl.plain then None else Some(UNSUPPORTED)
  {
    Stepped(a, l, FromServer(Take(4)));
    var l1 := LinkStep(l, FromServer(Take(4)));
    l' := Measures(a, l1, r);
  }

  /** A plain request on a listener with sessions: its first byte is handed out again. */
  lemma Replays(a: Link, l: Link, r: Request, b: Byte) returns (l': Link)
    requires Reached(a) && Leads(a, l) && l.sv.s == Reading(0, Direct([b], 1))
    requires l.sv.upAt == 1 && |l.cl.up| == 4 && l.cl.reqs == [r]
    requires l.cl.plain && l.sv.lead.None?
    ensures Leads(a, l') && l'.cl == l.cl && l'.sv.s.Admitting?
    ensures l'.sv.s.length == |r.frame| && l'.sv.s.view.Direct?
    ensures l'.sv.lead.None?
  {
    Stepped(a, l, FromServer(Take(1)));
    var l1 := LinkStep(l, FromServer(Take(1)));
    Stepped(a, l1, FromServer(Take(3)));
    var l2 := LinkStep(l1, FromServer(Take(3)));
    l' := Measures(a, l2, r);
  }

  lemma AdmittingIs(a: Link, l: Link, r: Request)
    requires Reached(a) && Leads(a, l) && l.sv.s.Admitting? && l.cl.reqs == [r]
    ensures l.sv.log == [Entry(None, None)] && l.sv.wired == []
    ensures l.sv.tail.Nothing? && l.sv.down == LeadBytes(l.sv.lead)
    ensures l.cl.c == AwaitAnswer(0) ==> l.cl.downAt == 0 && (l.sv.lead.Some? ==> l.sv.lead.value in {ACCEPT, DECLINE, UNSUPPORTED})
  {
    LeadsInv(a, l);
    WireIsBase(l.sv.down, l.sv.lead, l.sv.wired);
    assert l.sv.log == [l.sv.log[0]];
    assert LeadBytes(l.sv.lead) + [] == LeadBytes(l.sv.lead);
  }

  lemma LearnShape(cl: ClientSide, lead: Word, r: Request)
    requires cl.c == AwaitAnswer(0) && cl.downAt == 0 && cl.reqs == [r] && lead in {ACCEPT, DECLINE, UNSUPPORTED}
    ensures var read := ClientRead(cl, Be32(lead), 4);
            ClientDecide(read, Be32(lead), 0) == cl.(downAt := 4, c := AfterSending(cl, |r.frame|, lead != ACCEPT))
  {
    WordRoundTrip(lead);
    assert Gathered(Be32(lead), 4, 4) == Be32(lead);
  }

  /** The client learns how its session request was answered. */
  lemma Learns(a: Link, l: Link, r: Request) returns (l': Link)
    requires Reached(a) && Leads(a, l) && l.sv.s.Admitting?
    requires l.cl.c == AwaitAnswer(0) && l.cl.reqs == [r] && l.cl.outcomes == []
    requires l.sv.lead.Some? && l.sv.s.length == |r.frame| && (l.sv.lead == Some(ACCEPT) <==> l.sv.s.view.InCall?)
    ensures Leads(a, l') && l'.sv == l.sv && Midway(l', r, l.sv.lead != Some(ACCEPT))
  {
    AdmittingIs(a, l, r);
    LearnShape(l.cl, l.sv.lead.value, r);
    var cl := ClientRead(l.cl, l.sv.down, 4);
    ClientMoves(a, l, Read(4), cl);
    ClientMoves(a, l.(cl := cl), Decide(0), ClientDecide(cl, l.sv.down, 0));
    l' := l.(cl := ClientDecide(cl, l.sv.down, 0));
  }

  lemma ClientMoves(a: Link, l: Link, e: ClientEvent, cl': ClientSide)
    requires Leads(a, l) && !e.Reuse? && ClientStep(l.cl, l.sv.down, l.sv.s.Over?, e) == cl'
    ensures Leads(a, l.(cl := cl'))
  {
    Stepped(a, l, FromClient(e));
  }

  /** The answer a session request gets. */
  function Lead(plain: bool, wrapped: bool, accept: bool): Option<Word> {
    if plain then None else Some(if !wrapped then UNSUPPORTED else if accept then ACCEPT else DECLINE)
  }

  lemma AskedMidway(r: Request, wrapped: bool, accept: bool) returns (l: Link)
    requires Header(r) != CLOSING
    ensures Leads(Dial(r, false, wrapped), l) && l.sv.lead == Lead(false, wrapped, accept)
    ensures Midway(l, r, l.sv.lead != Some(ACCEPT)) && (l.sv.s.view == InCall(r.oneWay) || l.sv.s.view.Direct?)
  {
    var a := Dial(r, false, wrapped);
    DialReached(r, false, wrapped);
    var l0 := Opens(r, false, wrapped);
    var l1: Link;
    if wrapped {
      var m := FirstRead(a, l0, r);
      var n := RestOfHeader(a, m, r);
      if accept {
        l1 := Accepts(a, n, r);
      } else {
        l1 := Declines(a, n, r);
      }
    } else {
      l1 := Receives(a, l0, r);
    }
    l := Learns(a, l1, r);
  }

  lemma PlainMidway(r: Request, wrapped: bool) returns (l: Link)
    ensures Leads(Dial(r, true, wrapped), l) && l.sv.lead.None? && Midway(l, r, true)
  {
    var a := Dial(r, true, wrapped);
    DialReached(r, true, wrapped);
    var l0 := Opens(r, true, wrapped);
    if wrapped {
      var m := FirstRead(a, l0, r);
      assert l0.cl.up[..1] == [l0.cl.up[0]];
      l := Replays(a, m, r, l0.cl.up[0]);
    } else {
      l := Receives(a, l0, r);
    }
    AdmittingIs(a, l, r);
  }

  // ------------------------------------------------------------ one-way requests

  /** The handler had the frame, and the client knows it was taken. */
  ghost predicate Delivered(l: Link, r: Request) {
    && l.cl.outcomes == [Submitted] && l.cl.reqs == [r]
    && |l.sv.log| == 1 && l.sv.log[0] == Entry(Some(r.frame), None)
  }

  lemma OneWayShape(sv: ServerSide, up: seq<Byte>, n: nat, view: View)
    requires sv.s == Body(n, n, view) && (view.InCall? ==> view.oneWay) && |sv.log| == 1
    requires sv.wired == [] && sv.down == LeadBytes(sv.lead)
    ensures var sv' := ServerClose(ServerDispatch(sv, up), None);
            && sv'.lead == sv.lead && |sv'.log| == 1 && sv'.log[0].frame.Some? && sv'.log[0].reply.None?
            && (if view.InCall? then AnswerThere(sv', []) else sv'.s.Over? && sv'.down == sv.down)
  {
  }

  /** The handler runs and its call is closed without a reply. */
  lemma HandleOneWay(a: Link, l: Link, n: nat, view: View) returns (l': Link)
    requires Leads(a, l) && l.sv.s == Body(n, n, view) && (view.InCall? ==> view.oneWay)
    requires |l.sv.log| == 1 && l.sv.wired == [] && l.sv.down == LeadBytes(l.sv.lead)
    ensures Leads(a, l') && l'.cl == l.cl && l'.sv.lead == l.sv.lead
    ensures |l'.sv.log| == 1 && l'.sv.log[0].frame.Some? && l'.sv.log[0].reply.None?
    ensures if view.InCall? then AnswerThere(l'.sv, []) else l'.sv.s.Over? && l'.sv.down == l.sv.down
  {
    Stepped(a, l, FromServer(Dispatch));
    OneWayShape(l.sv, l.cl.up, n, view);
    var l1 := LinkStep(l, FromServer(Dispatch));
    Stepped(a, l1, FromServer(Close(None)));
    l' := LinkStep(l1, FromServer(Close(None)));
  }

  /** The client of a connection served once sees it end. */
  lemma SeeEnd(a: Link, l: Link) returns (l': Link)
    requires Leads(a, l) && l.cl.c.AwaitEnd? && l.cl.outcomes == [] && l.sv.s.Over? && l.cl.downAt == |l.sv.down|
    ensures Leads(a, l') && l'.sv == l.sv && l'.cl.outcomes == [Submitted] && l'.cl.reqs == l.cl.reqs
  {
    Stepped(a, l, FromClient(ClientEvent.End));
    l' := LinkStep(l, FromClient(ClientEvent.End));
  }

  lemma DoneTaken(cl: ClientSide, keep: bool)
    requires cl.reqs != [] && Current(cl).oneWay
    ensures DecideHeader(cl, ReplyHeader(0, keep), false, 0) == Finish(cl, Submitted, if keep then Pooled else Gone)
  {
    ReplyHeaderFields(0, keep);
  }

  lemma DecidesDone(cl: ClientSide, sv: ServerSide)
    requires OnWire(sv.down, sv.lead, sv.wired, sv.tail) && AnswerThere(sv, [])
    requires cl.reqs != [] && Current(cl).oneWay && cl.c == AwaitHeader(4, false) && cl.downAt == |LeadBytes(sv.lead)| + 4
    ensures ClientDecide(cl, sv.down, 0) == Finish(cl, Submitted, if sv.wired != [] then Pooled else Gone)
  {
    AnswerHeader(sv, []);
    DoneTaken(cl, sv.wired != []);
  }

  /** The client of a session reads the completion word. */
  lemma ReadDone(a: Link, l: Link, r: Request) returns (l': Link)
    requires Leads(a, l) && l.cl.c == AwaitHeader(0, false) && l.cl.reqs == [r] && l.cl.outcomes == [] && r.oneWay
    requires AnswerThere(l.sv, []) && OnWire(l.sv.down, l.sv.lead, l.sv.wired, l.sv.tail)
    requires l.cl.downAt == |LeadBytes(l.sv.lead)|
    ensures Leads(a, l') && l'.sv == l.sv && l'.cl.outcomes == [Submitted] && l'.cl.reqs == [r]
  {
    Stepped(a, l, FromClient(Read(4)));
    var l1 := LinkStep(l, FromClient(Read(4)));
    ReadFour(l, false);
    DecidesDone(l1.cl, l.sv);
    Stepped(a, l1, FromClient(Decide(0)));
    l' := LinkStep(l1, FromClient(Decide(0)));
  }

  lemma SettleOneWay(a: Link, l: Link, r: Request)
    requires Reached(a) && Leads(a, l) && l.cl.reqs == [r] && l.cl.outcomes == [Submitted]
    requires |l.sv.log| == 1 && l.sv.log[0].frame.Some? && l.sv.log[0].reply.None?
    ensures Delivered(l, r)
  {
    LeadsInv(a, l);
    assert EntryOk(l.cl.plain, l.cl.reqs, l.sv.upAt, l.sv.lead, l.sv.log[0], 0);
  }

  lemma FinishOneWay(a: Link, l: Link, r: Request, single: bool) returns (l': Link)
    requires Reached(a) && Leads(a, l) && Midway(l, r, single) && r.oneWay
    requires l.sv.s.view == InCall(true) || l.sv.s.view.Direct?
    ensures Leads(a, l') && Delivered(l', r) && l'.sv.lead == l.sv.lead
  {
    var view := l.sv.s.view;
    var l1 := SendFrame(a, l, r, single);
    var l2 := TakeRequest(a, l1, r, single);
    var l3 := HandleOneWay(a, l2, |r.frame|, view);
    if single {
      l' := SeeEnd(a, l3);
    } else {
      BeforeAnswer(a, l3, false);
      l' := ReadDone(a, l3, r);
    }
    SettleOneWay(a, l', r);
  }

  // ------------------------------------------------------------------- every mode

  ghost predicate Completed(l: Link, r: Request, body: Frame) {
    if r.oneWay then Delivered(l, r) else Exchanged(l, r, body)
  }

  /** Whether a request is accepted as a session, declined, answered unsupported or
      made plain, to a listener with sessions or without, and whatever its frame
      and the reply: some run gives the handler exactly that frame and the client
      exactly that reply. */
  lemma EveryModeCompletes(r: Request, body: Frame, plain: bool, wrapped: bool, accept: bool)
    requires plain || Header(r) != CLOSING
    ensures exists l :: Leads(Dial(r, plain, wrapped), l) && Completed(l, r, body) && l.sv.lead == Lead(plain, wrapped, accept)
  {
    var a := Dial(r, plain, wrapped);
    DialReached(r, plain, wrapped);
    var m: Link;
    if plain {
      m := PlainMidway(r, wrapped);
    } else {
      m := AskedMidway(r, wrapped, accept);
    }
    var single := plain || m.sv.lead != Some(ACCEPT);
    if r.oneWay {
      var l := FinishOneWay(a, m, r, single);
    } else {
      var l := FinishExchange(a, m, r, body, single);
    }
  }

  // ------------------------------------------------------------ the one exception

  /** A session request whose header is the closing marker: nothing was dispatched. */
  predicate Unserved(sv: ServerSide) {
    && (sv.s.First? || sv.s.Reading? || sv.s.Over?) && sv.lead.None?
    && forall k :: 0 <= k < |sv.log| ==> sv.log[k].frame.None?
  }

  lemma UnservedLength(reqs: seq<Request>, up: seq<Byte>, sv: ServerSide, limit: nat, cut: Option<nat>)
    requires ServerAll(false, reqs, up, sv) && Header(reqs[0]) == CLOSING && Unserved(sv)
    ensures Unserved(ServerLength(sv, up, limit, cut))
  {
    if sv.s.Reading? && sv.s.have == 4 {
      LentHead(false, reqs, up, sv);
    }
  }

  lemma UnservedTake(reqs: seq<Request>, up: seq<Byte>, sv: ServerSide, n: nat)
    requires ServerInv(false, reqs, ServerTake(sv, up, n)) && Header(reqs[0]) == CLOSING && Unserved(sv)
    ensures Unserved(ServerTake(sv, up, n))
  {
    TakenFrom(sv, up, n);
  }

  lemma TakenFrom(sv: ServerSide, up: seq<Byte>, n: nat)
    requires Unserved(sv)
    ensures var sv' := ServerTake(sv, up, n); sv'.s.Deciding? || Unserved(sv')
  {
    if sv.s.First? && sv.upAt + n <= |up| {
      FirstTakenFrom(sv.(upAt := sv.upAt + n), Gathered(up, sv.upAt + n, sv.s.have + n));
    }
  }

  lemma FirstTakenFrom(sv: ServerSide, got: seq<Byte>)
    requires Unserved(sv)
    ensures var sv' := TakeFirst(sv, got); sv'.s.Deciding? || Unserved(sv')
  {
  }

  lemma FirstRequestStays(cl: ClientSide, down: seq<Byte>, over: bool, e: ClientEvent)
    requires cl.reqs != []
    ensures var cl' := ClientStep(cl, down, over, e); cl'.plain == cl.plain && cl'.reqs != [] && cl'.reqs[0] == cl.reqs[0]
  {
  }

  lemma UnservedServer(l: Link, e: ServerEvent)
    requires Inv(l) && Inv(LinkStep(l, FromServer(e))) && !l.cl.plain && Header(l.cl.reqs[0]) == CLOSING && Unserved(l.sv)
    ensures Unserved(ServerStep(l.sv, l.cl.up, e))
  {
    if e.Take? {
      UnservedTake(l.cl.reqs, l.cl.up, l.sv, e.n);
    } else if e.Length? {
      UnservedLength(l.cl.reqs, l.cl.up, l.sv, e.limit, e.cut);
    } else {
      UnservedElse(l.sv, l.cl.up, e);
    }
  }

  lemma UnservedElse(sv: ServerSide, up: seq<Byte>, e: ServerEvent)
    requires Unserved(sv) && !e.Take? && !e.Length?
    ensures Unserved(ServerStep(sv, up, e))
  {
  }

  lemma {:induction false} UnservedRun(l: Link, es: seq<LinkEvent>)
    requires Inv(l) && !l.cl.plain && Header(l.cl.reqs[0]) == CLOSING && Unserved(l.sv)
    ensures Unserved(Run(l, es).sv)
    decreases |es|
  {
    if es != [] {
      LinkKeeps(l, es[0]);
      if es[0].FromServer? {
        UnservedServer(l, es[0].se);
      } else {
        FirstRequestStays(l.cl, l.sv.down, l.sv.s.Over?, es[0].ce);
      }
      UnservedRun(LinkStep(l, es[0]), es[1..]);
    }
  }

  lemma SomeRunCompletes(r: Request, body: Frame, plain: bool, wrapped: bool)
    requires plain || Header(r) != CLOSING
    ensures exists es :: Completed(Run(Dial(r, plain, wrapped), es), r, body)
  {
    EveryModeCompletes(r, body, plain, wrapped, true);
    var l :| Leads(Dial(r, plain, wrapped), l) && Completed(l, r, body);
    var es :| OneRequest(es) && Run(Dial(r, plain, wrapped), es) == l;
  }

  /** A request can complete in a mode exactly unless it asks for a session with a
      header that is the closing marker, which a one-way frame of 2^30-1 bytes has. */
  lemma CompletesExactly(r: Request, body: Frame, plain: bool, wrapped: bool)
    ensures (exists es :: Completed(Run(Dial(r, plain, wrapped), es), r, body)) <==>
              plain || !(r.oneWay && |r.frame| == LENGTH_MASK)
  {
    RequestHeaderFields(|r.frame|, r.oneWay);
    if plain || Header(r) != CLOSING {
      SomeRunCompletes(r, body, plain, wrapped);
    } else if es :| Completed(Run(Dial(r, plain, wrapped), es), r, body) {
      DialInv(r, plain, wrapped);
      UnservedRun(Dial(r, plain, wrapped), es);
    }
  }
}
