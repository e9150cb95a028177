/** One connection between the Go client (listen/pool.go) and the Go server
    (listen/session.go, listen/framed.go) as a state machine over bytes. Each
    direction is a FIFO of bytes; a read takes any non-empty prefix of what is
    there, a write may be cut by a failing connection, and every timeout,
    retirement and expiry is an event that may happen at any moment. An event that
    is not possible in a state leaves it as it is. A buffer being filled is kept as
    the number of bytes it holds: they are the last ones read. */
module Links {
  import opened Options
  import opened Wire
  import opened SessionCalls

  type Frame = f: seq<Byte> | |f| <= LENGTH_MASK

  /** One request begun on the connection, by the client call that made it. */
  datatype Request = Request(call: nat, frame: Frame, oneWay: bool)

  function Header(r: Request): Word {
    RequestHeader(|r.frame|, r.oneWay)
  }

  /** What the client learned about a request it began. */
  datatype Outcome = Replied(body: seq<Byte>) | Submitted | Retry | NoSession | Failed

  /** The client's place in an exchange: listen/pool.go sessionCall and
      singleOnSession, or the plain exchange of listen/framed.go. */
  datatype Client =
    | Opening(left: nat)                   // bytes of the opening header to write
    | AwaitAnswer(have: nat)
    | Sending(left: nat, single: bool)     // bytes of the request to write
    | AwaitHeader(have: nat, single: bool)
    | AwaitBody(keep: bool, length: nat, have: nat)
    | AwaitEnd
    | Pooled
    | Gone

  /** The connection a handler was given: one exchange of a session, or the
      connection itself, with bytes to hand out before it is read from `skip` on. */
  datatype View = InCall(oneWay: bool) | Direct(lent: seq<Byte>, skip: nat)

  /** The server's place: the session listener, ReceiveFramed and the handler. */
  datatype Server =
    | First(have: nat)
    | Deciding(header: Word)
    | Starting(header: Word)
    | Reading(have: nat, view: View)
    | Admitting(length: nat, view: View)
    | Body(length: nat, have: nat, view: View)
    | Running(view: View)
    | Replying(body: Frame, offered: nat, r: Reply, view: View)
    | Answered(continued: bool, view: View)
    | Idle(have: nat)
    | Late(have: nat)
    | Over

  /** A call the server made: the frame its handler was given, and its reply. */
  datatype Entry = Entry(frame: Option<seq<Byte>>, reply: Option<Frame>)

  /** What the server is putting on the wire behind its complete answers. */
  datatype Tail = Nothing | Control(w: Word) | Payload(body: Frame, keep: bool) | Refused(attribute: Byte, required: Byte)

  /** The client's end: what it wrote, read, asked and learned. */
  datatype ClientSide = ClientSide(
    plain: bool,             // it opened a plain exchange
    up: seq<Byte>,           // everything it wrote
    downAt: nat,             // how much of the server's bytes it read
    reqs: seq<Request>,      // the requests begun, in order
    outcomes: seq<Outcome>,  // what it learned about them
    c: Client,
    lossy: bool)             // it lost the answer to its session request

  /** The server's end: what it read, wrote, made of it and handed out. */
  datatype ServerSide = ServerSide(
    upAt: nat,               // how much of the client's bytes it read
    down: seq<Byte>,         // everything it wrote
    s: Server,
    lead: Option<Word>,      // its complete answer to a session request
    wired: seq<Frame>,       // the bodies of complete answers that keep the session
    tail: Tail,
    log: seq<Entry>,         // the calls it made, in order
    retiring: bool,
    expired: bool)

  datatype Link = Link(cl: ClientSide, sv: ServerSide)

  /** The bytes of a request: a session header or a plain length, then the frame. */
  function Sent(plain: bool, r: Request): (b: seq<Byte>)
    ensures |b| == 4 + |r.frame|
  {
    Be32(if plain then |r.frame| else Header(r)) + r.frame
  }

  function TailBytes(t: Tail): seq<Byte> {
    match t
    case Nothing => []
    case Control(w) => Be32(w)
    case Payload(body, keep) => Answer(body, keep)
    case Refused(a, b) => Be32(REFUSAL) + [a, b]
  }

  /** A new connection. The listener wraps sessions or serves connections once;
      the client opens with a session request or a plain one. */
  function Dial(r: Request, plain: bool, wrapped: bool): Link {
    Link(ClientSide(plain, [], 0, [r], [], if plain then Sending(|Sent(true, r)|, true) else Opening(4), false),
         ServerSide(0, [], if wrapped then First(0) else Reading(0, Direct([], 0)),
                    None, [], Nothing, if wrapped then [] else [Entry(None, None)], false, false))
  }

  // ------------------------------------------------------------------ client

  datatype ClientEvent =
    | Write(n: nat)
    | Read(n: nat)
    | Decide(limit: nat)
    | Fail
    | LoseAnswer(eof: bool)
    | End
    | Reuse(r: Request)
    | Discard

  function Finish(l: ClientSide, o: Outcome, c: Client): ClientSide {
    l.(outcomes := l.outcomes + [o], c := c)
  }

  /** The request being made. */
  function Current(l: ClientSide): Request
    requires l.reqs != []
  {
    l.reqs[|l.reqs| - 1]
  }

  function AfterSending(l: ClientSide, left: nat, single: bool): Client
    requires l.reqs != []
  {
    if 0 < left then Sending(left, single)
    else if single && Current(l).oneWay then AwaitEnd
    else AwaitHeader(0, single)
  }

  /** The next n bytes of the request, of which `left` are still to be written. */
  function Piece(l: ClientSide, left: nat, n: nat): seq<Byte>
    requires l.reqs != [] && n <= left <= |Sent(l.plain, Current(l))|
  {
    var b := Sent(l.plain, Current(l));
    b[|b| - left..|b| - left + n]
  }

  function ClientWrite(l: ClientSide, n: nat): ClientSide {
    if l.reqs == [] then l
    else match l.c
      case Opening(left) =>
        if n <= left <= 4 then
          l.(up := l.up + Piece(l, left + |Current(l).frame|, n), c := if n == left then AwaitAnswer(0) else Opening(left - n))
        else l
      case Sending(left, single) =>
        if n <= left <= |Sent(l.plain, Current(l))| then
          l.(up := l.up + Piece(l, left, n), c := AfterSending(l, left - n, single))
        else l
      case _ => l
  }

  function ClientRead(l: ClientSide, down: seq<Byte>, n: nat): ClientSide {
    if |down| < l.downAt + n then l
    else match l.c
      case AwaitAnswer(have) =>
        if have + n <= 4 then l.(downAt := l.downAt + n, c := AwaitAnswer(have + n)) else l
      case AwaitHeader(have, single) =>
        if have + n <= 4 then l.(downAt := l.downAt + n, c := AwaitHeader(have + n, single)) else l
      case AwaitBody(keep, length, have) =>
        if have + n <= length then l.(downAt := l.downAt + n, c := AwaitBody(keep, length, have + n)) else l
      case _ => l
  }

  /** The answer to a session request (pool.go:210-235). */
  function DecideAnswer(l: ClientSide, w: Word): ClientSide
    requires l.reqs != []
  {
    var left := |Current(l).frame|;
    if w == REFUSAL then Finish(l, Failed, Gone)
    else if w == CLOSING then Finish(l, Retry, Gone)
    else if w == DECLINE || w == UNSUPPORTED then l.(c := AfterSending(l, left, true))
    else if w != ACCEPT then Finish(l, Failed, Gone)
    else l.(c := AfterSending(l, left, false))
  }

  /** The header of a reply, on a session (pool.go:248-277) or alone
      (framed.go:79-89). */
  function DecideHeader(l: ClientSide, w: Word, single: bool, limit: nat): ClientSide
    requires l.reqs != []
  {
    var oneWay := Current(l).oneWay;
    if w == REFUSAL then Finish(l, Failed, Gone)
    else if single then
      if Min(limit, LENGTH_MASK) < w then Finish(l, Failed, Gone) else l.(c := AwaitBody(false, w, 0))
    else if w == CLOSING then Finish(l, Retry, Gone)
    else if HasOneWay(w) then Finish(l, Failed, Gone)
    else if oneWay then
      if LengthOf(w) != 0 then Finish(l, Failed, Gone)
      else Finish(l, Submitted, if HasSession(w) then Pooled else Gone)
    else if Min(limit, LENGTH_MASK) < LengthOf(w) then Finish(l, Failed, Gone)
    else l.(c := AwaitBody(HasSession(w), LengthOf(w), 0))
  }

  /** The last n bytes read. */
  function Gathered(stream: seq<Byte>, at: nat, n: nat): seq<Byte> {
    if n <= at <= |stream| then stream[at - n..at] else []
  }

  function ClientDecide(l: ClientSide, down: seq<Byte>, limit: nat): ClientSide {
    if l.reqs == [] || !(l.downAt <= |down|) then l
    else match l.c
      case AwaitAnswer(have) =>
        if have == 4 <= l.downAt then DecideAnswer(l, Word32(Gathered(down, l.downAt, 4))) else l
      case AwaitHeader(have, single) =>
        if have == 4 <= l.downAt then DecideHeader(l, Word32(Gathered(down, l.downAt, 4)), single, limit) else l
      case AwaitBody(keep, length, have) =>
        if have == length then Finish(l, Replied(Gathered(down, l.downAt, length)), if keep then Pooled else Gone) else l
      case _ => l
  }

  /** The read of the answer failed with no byte and neither a timeout nor a
      cancellation: the call is repeated as a plain exchange. At end of stream the
      server is over and nothing is left to read; any other failure may hide an
      answer (listen/server.go:139-147). */
  function ClientLoses(l: ClientSide, down: seq<Byte>, over: bool, eof: bool): ClientSide {
    if l.c == AwaitAnswer(0) && (eof ==> over && l.downAt == |down|) then
      Finish(l.(lossy := l.lossy || !eof), NoSession, Gone)
    else l
  }

  /** `over` says the server has closed the connection. */
  function ClientStep(l: ClientSide, down: seq<Byte>, over: bool, e: ClientEvent): ClientSide {
    match e
    case Write(n) => ClientWrite(l, n)
    case Read(n) => ClientRead(l, down, n)
    case Decide(limit) => ClientDecide(l, down, limit)
    case LoseAnswer(eof) => ClientLoses(l, down, over, eof)
    case Fail => if l.c.Pooled? || l.c.Gone? then l else Finish(l, Failed, Gone)
    case End => if l.c.AwaitEnd? && over && l.downAt == |down| then Finish(l, Submitted, Gone) else l
    case Reuse(r) =>
      if l.c.Pooled? then l.(reqs := l.reqs + [r], c := Sending(|Sent(false, r)|, false)) else l
    case Discard => if l.c.Pooled? then l.(c := Gone) else l
  }

  // ------------------------------------------------------------------ server

  datatype ServerEvent =
    | Take(n: nat)                        // read n bytes
    | AnswerAsk(accept: bool, cut: Option<nat>)  // answer the session request
    | Deliver                             // hand a call to Accept
    | Length(limit: nat, cut: Option<nat>)     // the length is read: answer or go on
    | Admit(limit: nat)                   // the length is within the limit and the caller passed
    | Refuse(attribute: Byte, required: Byte, cut: Option<nat>)
    | Dispatch
    | Abandon(cut: Option<nat>)
    | Respond(body: Frame)
    | Offer(n: nat, cut: Option<nat>)
    | Close(cut: Option<nat>)
    | AfterCall(cut: Option<nat>)
    | IdleEnds(timeout: bool, cut: Option<nat>)
    | LateEnds
    | RetireNow
    | ExpireNow
    | Stop

  function Stopping(l: ServerSide): bool {
    l.retiring || l.expired
  }

  /** Writes a control word and ends the connection, or ends it part way. */
  function SendLast(l: ServerSide, t: Tail, cut: Option<nat>): ServerSide {
    var b := TailBytes(t);
    l.(down := l.down + (if cut.Some? then b[..Min(cut.value, |b|)] else b), tail := t, s := Over)
  }

  /** firstHeader: one byte tells a session request from anything else. */
  function TakeFirst(l: ServerSide, got: seq<Byte>): ServerSide {
    if |got| == 1 && got[0] < 128 then
      l.(s := Reading(0, Direct(got, 1)), log := l.log + [Entry(None, None)])
    else if |got| < 4 then l.(s := First(|got|))
    else if |got| == 4 && Word32(got) != CLOSING then l.(s := Deciding(Word32(got)))
    else l.(s := Over)
  }

  /** What a connection served once hands out comes before what it reads. */
  function TakeLength(l: ServerSide, up: seq<Byte>, n: nat, have: nat, view: View): ServerSide {
    match view
    case Direct(lent, skip) =>
      if 4 < have + n then l
      else if have + n <= |lent| then l.(s := Reading(have + n, view))
      else if |lent| <= have && l.upAt + n <= |up| then l.(upAt := l.upAt + n, s := Reading(have + n, view))
      else l
    case InCall(_) => l
  }

  function ServerTake(l: ServerSide, up: seq<Byte>, n: nat): ServerSide {
    if l.s.Reading? then TakeLength(l, up, n, l.s.have, l.s.view)
    else if |up| < l.upAt + n then l
    else
      var l' := l.(upAt := l.upAt + n);
      match l.s
      case First(have) =>
        if 0 < n && have + n <= (if have == 0 then 1 else 4) then TakeFirst(l', Gathered(up, l'.upAt, have + n)) else l
      case Idle(have) => if have + n <= 4 then l'.(s := Idle(have + n)) else l
      case Late(have) => if have + n <= 4 then l'.(s := Late(have + n)) else l
      case Body(length, have, view) => if have + n <= length then l'.(s := Body(length, have + n, view)) else l
      case _ => l
  }

  /** prepare: accept a session, or decline it and replay a plain length. */
  function ServerAnswer(l: ServerSide, accept: bool, cut: Option<nat>): ServerSide {
    match l.s
    case Deciding(h) =>
      var w := if accept then ACCEPT else DECLINE;
      if cut.Some? then SendLast(l, Control(w), Some(Min(cut.value, 3)))
      else
        var l' := l.(down := l.down + Be32(w), lead := Some(w));
        if accept then l'.(s := Starting(h))
        else l'.(s := Reading(0, Direct(Be32(LengthOf(h)), 4)), log := l.log + [Entry(None, None)])
    case _ => l
  }

  /** The top of run's loop: a header becomes a call. */
  function ServerDeliver(l: ServerSide): ServerSide {
    match l.s
    case Starting(h) =>
      if !HasSession(h) || h == CLOSING then l.(s := Over)
      else l.(s := Admitting(LengthOf(h), InCall(HasOneWay(h))), log := l.log + [Entry(None, None)])
    case _ => l
  }

  /** The first four bytes a reader of a connection served once is handed. */
  function FirstFour(up: seq<Byte>, lent: seq<Byte>, skip: nat): seq<Byte> {
    var ahead := lent + (if skip <= |up| then up[skip..] else []);
    if 4 <= |ahead| then ahead[..4] else []
  }

  /** ReceiveFramed once it has the length: answer a session request on a
      connection served once, and refuse what is over the limit. */
  function ServerLength(l: ServerSide, up: seq<Byte>, limit: nat, cut: Option<nat>): ServerSide {
    match l.s
    case Reading(have, Direct(lent, skip)) =>
      var head := FirstFour(up, lent, skip);
      if have != 4 || |head| != 4 then l
      else
        var w := Word32(head);
        var asked := HasSession(w) && w != CLOSING;
        var length := if asked then LengthOf(w) else w;
        if asked && cut.Some? then SendLast(l, Control(UNSUPPORTED), Some(Min(cut.value, 3)))
        else
          var l' := if asked then l.(down := l.down + Be32(UNSUPPORTED), lead := Some(UNSUPPORTED)) else l;
          if Min(limit, LENGTH_MASK) < length then l'.(s := Over)
          else l'.(s := Admitting(length, l.s.view))
    case _ => l
  }

  function Noted(l: ServerSide, e: Entry): seq<Entry>
    requires l.log != []
  {
    l.log[|l.log| - 1 := e]
  }

  /** readFrameBody: a length over the limit ends the connection, of a session too. */
  function ServerAdmit(l: ServerSide, limit: nat): ServerSide {
    match l.s
    case Admitting(length, view) => l.(s := if Min(limit, LENGTH_MASK) < length then Over else Body(length, 0, view))
    case _ => l
  }

  /** The frame is complete and admitted: the handler runs with it. */
  function ServerDispatch(l: ServerSide, up: seq<Byte>): ServerSide {
    match l.s
    case Body(length, have, view) =>
      if have == length && l.log != [] then
        l.(s := Running(view), log := Noted(l, Entry(Some(Gathered(up, l.upAt, length)), None)))
      else l
    case _ => l
  }

  function ServerRespond(l: ServerSide, body: Frame): ServerSide {
    match l.s
    case Running(view) =>
      if l.log == [] || (view.InCall? && view.oneWay) then l
      else
        l.(s := Replying(body, 0, Reply([], 0, false, false, l.down), view),
           log := Noted(l, l.log[|l.log| - 1].(reply := Some(body))))
    case _ => l
  }

  /** Where a reply stands once m of its bytes are offered and the connection
      carries w.wire, or only `cut` bytes more than before as it fails. */
  function Carried(l: ServerSide, body: Frame, m: nat, w: Reply, view: View, cut: Option<nat>): ServerSide {
    var keep := view.InCall? && w.continued;
    var t := if view.InCall? && m < 4 then Nothing else Payload(body, keep);
    if cut.Some? then
      if cut.value < |w.wire| - |l.down| then
        l.(down := w.wire[..|l.down| + cut.value], tail := t, s := Over)
      else l
    else if m < 4 + |body| then
      l.(down := w.wire, tail := t, s := Replying(body, m, w, view))
    else if keep then
      l.(down := w.wire, tail := Nothing, wired := l.wired + [body], s := Answered(true, view))
    else l.(down := w.wire, tail := t, s := Answered(false, view))
  }

  /** The handler offers the next n bytes of its reply, through sessionCall.Write
      on a session. A failing connection keeps part of what it would have carried. */
  function ServerOffer(l: ServerSide, n: nat, cut: Option<nat>): ServerSide {
    match l.s
    case Replying(body, offered, r, view) =>
      var whole := Be32(|body|) + body;
      if |whole| < offered + n || 4 < |r.out| then l
      else
        var chunk := whole[offered..offered + n];
        var w := if view.InCall? then WriteStep(r, chunk, !Stopping(l)).reply else r.(wire := r.wire + chunk);
        Carried(l, body, offered + n, w, view, cut)
    case _ => l
  }

  /** The completion word of a one-way call, written when it closes. */
  function Complete(l: ServerSide, view: View, cut: Option<nat>): ServerSide {
    var keep := !Stopping(l);
    if cut.Some? then SendLast(l, Payload([], keep), Some(Min(cut.value, 3)))
    else if keep then
      l.(down := l.down + Answer([], true), wired := l.wired + [[]], s := Answered(true, view))
    else l.(down := l.down + Answer([], false), tail := Payload([], false), s := Answered(false, view))
  }

  /** Closing a call: a one-way call is completed, an unanswered one ends the
      connection, a connection served once is closed. */
  function ServerClose(l: ServerSide, cut: Option<nat>): ServerSide {
    match l.s
    case Running(InCall(oneWay)) => if oneWay then Complete(l, l.s.view, cut) else l.(s := Over)
    case Running(Direct(_, _)) => l.(s := Over)
    case Answered(_, Direct(_, _)) => l.(s := Over)
    case _ => l
  }

  /** A request read to its last byte but refused before dispatch, because the
      binding or the receiver's deadline ran out, closes as any other. */
  function ServerAbandon(l: ServerSide, cut: Option<nat>): ServerSide {
    match l.s
    case Body(length, have, InCall(oneWay)) =>
      if have == length then
        if oneWay then Complete(l, l.s.view, cut) else l.(s := Over)
      else l
    case _ => l
  }

  function ServerAfterCall(l: ServerSide, cut: Option<nat>): ServerSide {
    match l.s
    case Answered(continued, InCall(_)) =>
      (match LeaveCall(false, continued, Stopping(l))
       case GoIdle => l.(s := Idle(0))
       case Retire => SendLast(l, Control(CLOSING), cut)
       case Stop => l.(s := Over))
    case _ => l
  }

  function ServerIdleEnds(l: ServerSide, up: seq<Byte>, timeout: bool, cut: Option<nat>): ServerSide {
    match l.s
    case Idle(have) =>
      if 4 < have || (have == 4 && |Gathered(up, l.upAt, 4)| != 4) then l
      else
        (match LeaveIdle(have, timeout, Stopping(l))
         case Serve => l.(s := Starting(Word32(Gathered(up, l.upAt, 4))))
         case FinishHeader => l.(s := Late(have))
         case SendMarker => SendLast(l, Control(CLOSING), cut)
         case End => l.(s := Over))
    case _ => l
  }

  function ServerLateEnds(l: ServerSide, up: seq<Byte>): ServerSide {
    match l.s
    case Late(have) =>
      var got := Gathered(up, l.upAt, 4);
      if have == 4 && |got| == 4 && !l.expired then l.(s := Starting(Word32(got))) else l.(s := Over)
    case _ => l
  }

  function ServerStep(l: ServerSide, up: seq<Byte>, e: ServerEvent): ServerSide {
    match e
    case Take(n) => ServerTake(l, up, n)
    case AnswerAsk(accept, cut) => ServerAnswer(l, accept, cut)
    case Deliver => ServerDeliver(l)
    case Length(limit, cut) => ServerLength(l, up, limit, cut)
    case Admit(limit) => ServerAdmit(l, limit)
    case Refuse(a, b, cut) => if l.s.Admitting? then SendLast(l, Refused(a, b), cut) else l
    case Dispatch => ServerDispatch(l, up)
    case Abandon(cut) => ServerAbandon(l, cut)
    case Respond(body) => ServerRespond(l, body)
    case Offer(n, cut) => ServerOffer(l, n, cut)
    case Close(cut) => ServerClose(l, cut)
    case AfterCall(cut) => ServerAfterCall(l, cut)
    case IdleEnds(timeout, cut) => ServerIdleEnds(l, up, timeout, cut)
    case LateEnds => ServerLateEnds(l, up)
    case RetireNow => l.(retiring := true)
    case ExpireNow => l.(expired := true)
    case Stop => l.(s := Over)
  }

  datatype LinkEvent = FromClient(ce: ClientEvent) | FromServer(se: ServerEvent)

  function LinkStep(l: Link, e: LinkEvent): Link {
    match e
    case FromClient(ce) => l.(cl := ClientStep(l.cl, l.sv.down, l.sv.s.Over?, ce))
    case FromServer(se) => l.(sv := ServerStep(l.sv, l.cl.up, se))
  }
}
