/** The invariant over every step and every run of one connection, and what it
    says about calls: pairing, delivery, retries and retirement. */
module LinkRuns {
  import opened Options
  import opened Wire
  import opened SessionCalls
  import opened Links
  import opened LinkInvariant
  import opened ClientSteps
  import opened ServerSteps
  import opened ServerReplies

  /** How a server's step may change what the client relies on. */
  predicate WireGrew(plain: bool, reqs: seq<Request>, sv: ServerSide, sv': ServerSide) {
    && |sv.down| <= |sv'.down| && (sv.s.Over? ==> sv'.s.Over?)
    && (|| (sv'.lead == sv.lead && sv'.wired == sv.wired && (sv'.tail == sv.tail || sv.tail.Nothing?))
        || (!plain && sv.lead.None? && sv.wired == sv'.wired == [] && sv'.tail == sv.tail)
        || (sv'.lead == sv.lead == Some(ACCEPT) && |sv.wired| < |reqs| && |sv'.wired| == |sv.wired| + 1
            && sv'.wired == sv.wired + [sv'.wired[|sv.wired|]] && sv'.tail.Nothing?
            && (sv.tail.Nothing? || sv.tail == Payload(sv'.wired[|sv.wired|], true))))
  }

  /** How a server's step may change the record of its calls. */
  predicate LogGrew(reqs: seq<Request>, sv: ServerSide, sv': ServerSide) {
    || sv'.log == sv.log
    || sv'.log == sv.log + [Entry(None, None)]
    || (&& 0 < |sv.log| <= |reqs| && |sv'.log| == |sv.log| && !sv.s.Over?
        && var j := |sv.log| - 1;
           && sv.upAt == UpOff(reqs, j + 1) && sv'.log == sv.log[j := sv'.log[j]]
           && sv.log[j].reply.None? && (sv.log[j].frame.Some? ==> sv'.log[j].frame == sv.log[j].frame))
  }

  lemma CarriedGrew(plain: bool, reqs: seq<Request>, sv: ServerSide, body: Frame, m: nat, w: Reply, view: View, cut: Option<nat>)
    requires !sv.s.Over? && |sv.down| <= |w.wire| && |sv.wired| < |reqs|
    requires sv.tail.Nothing? || (sv.tail == Payload(body, view.InCall? && w.continued) && (view.InCall? ==> 4 <= m))
    requires view.InCall? ==> sv.lead == Some(ACCEPT)
    ensures WireGrew(plain, reqs, sv, Carried(sv, body, m, w, view, cut))
  {
  }

  lemma OfferGrew(plain: bool, reqs: seq<Request>, sv: ServerSide, n: nat, cut: Option<nat>)
    requires ServerInv(plain, reqs, sv) && sv.s.Replying?
    ensures WireGrew(plain, reqs, sv, ServerOffer(sv, n, cut))
  {
    var body, offered, r := sv.s.body, sv.s.offered, sv.s.r;
    if offered + n <= 4 + |body| {
      if sv.s.view.InCall? {
        OfferedSoFar(sv, body, offered, r, false);
        var w := OfferCarries(sv, n, cut);
        CarriedGrew(plain, reqs, sv, body, offered + n, w, sv.s.view, cut);
      } else {
        var w := r.(wire := r.wire + (Be32(|body|) + body)[offered..offered + n]);
        CarriedGrew(plain, reqs, sv, body, offered + n, w, sv.s.view, cut);
      }
    }
  }

  lemma QuietGrew(plain: bool, reqs: seq<Request>, up: seq<Byte>, sv: ServerSide, e: ServerEvent)
    requires e.Take? || e.Deliver? || e.Admit? || e.Dispatch? || e.Respond? || e.LateEnds? || e.RetireNow? || e.ExpireNow? || e.Stop?
    ensures WireGrew(plain, reqs, sv, ServerStep(sv, up, e))
  {
  }

  lemma LeadGrew(plain: bool, reqs: seq<Request>, up: seq<Byte>, sv: ServerSide, e: ServerEvent)
    requires ServerAll(plain, reqs, up, sv) && (e.AnswerAsk? || e.Length?)
    ensures WireGrew(plain, reqs, sv, ServerStep(sv, up, e))
  {
    if e.AnswerAsk? {
      AskGrew(plain, reqs, sv, e.accept, e.cut);
    } else if sv.s.Reading? && sv.s.have == 4 {
      LengthGrew(plain, reqs, up, sv, e.limit, e.cut);
    }
  }

  lemma AskGrew(plain: bool, reqs: seq<Request>, sv: ServerSide, accept: bool, cut: Option<nat>)
    requires ServerInv(plain, reqs, sv)
    ensures WireGrew(plain, reqs, sv, ServerAnswer(sv, accept, cut))
  {
  }

  lemma LengthGrew(plain: bool, reqs: seq<Request>, up: seq<Byte>, sv: ServerSide, limit: nat, cut: Option<nat>)
    requires ServerAll(plain, reqs, up, sv) && sv.s.Reading? && sv.s.have == 4
    ensures WireGrew(plain, reqs, sv, ServerLength(sv, up, limit, cut))
  {
    LentHead(plain, reqs, up, sv);
  }

  lemma LastGrew(plain: bool, reqs: seq<Request>, up: seq<Byte>, sv: ServerSide, e: ServerEvent)
    requires ServerInv(plain, reqs, sv) && (e.Refuse? || e.AfterCall? || e.IdleEnds?)
    ensures WireGrew(plain, reqs, sv, ServerStep(sv, up, e))
  {
  }

  lemma CloseGrew(plain: bool, reqs: seq<Request>, up: seq<Byte>, sv: ServerSide, e: ServerEvent)
    requires ServerInv(plain, reqs, sv) && (e.Close? || e.Abandon?)
    ensures WireGrew(plain, reqs, sv, ServerStep(sv, up, e))
  {
  }

  lemma ServerGrew(plain: bool, reqs: seq<Request>, up: seq<Byte>, sv: ServerSide, e: ServerEvent)
    requires ServerAll(plain, reqs, up, sv)
    ensures WireGrew(plain, reqs, sv, ServerStep(sv, up, e))
  {
    match e
    case Offer(n, cut) => if sv.s.Replying? { OfferGrew(plain, reqs, sv, n, cut); }
    case AnswerAsk(_, _) => LeadGrew(plain, reqs, up, sv, e);
    case Length(_, _) => LeadGrew(plain, reqs, up, sv, e);
    case Refuse(_, _, _) => LastGrew(plain, reqs, up, sv, e);
    case AfterCall(_) => LastGrew(plain, reqs, up, sv, e);
    case IdleEnds(_, _) => LastGrew(plain, reqs, up, sv, e);
    case Close(_) => CloseGrew(plain, reqs, up, sv, e);
    case Abandon(_) => CloseGrew(plain, reqs, up, sv, e);
    case _ => QuietGrew(plain, reqs, up, sv, e);
  }

  lemma NotedGrew(plain: bool, reqs: seq<Request>, up: seq<Byte>, sv: ServerSide, e: ServerEvent)
    requires ServerInv(plain, reqs, sv) && (e.Dispatch? || e.Respond?)
    ensures LogGrew(reqs, sv, ServerStep(sv, up, e))
  {
  }

  lemma LogGrows(plain: bool, reqs: seq<Request>, up: seq<Byte>, sv: ServerSide, e: ServerEvent)
    requires ServerAll(plain, reqs, up, sv)
    ensures LogGrew(reqs, sv, ServerStep(sv, up, e))
  {
    if e.Dispatch? || e.Respond? {
      NotedGrew(plain, reqs, up, sv, e);
    } else {
      CallsOnly(up, sv, e);
    }
  }

  lemma TakeCalls(up: seq<Byte>, sv: ServerSide, n: nat)
    ensures var sv' := ServerTake(sv, up, n); sv'.log == sv.log || sv'.log == sv.log + [Entry(None, None)]
  {
  }

  lemma WaitCalls(up: seq<Byte>, sv: ServerSide, e: ServerEvent)
    requires e.AfterCall? || e.IdleEnds? || e.LateEnds? || e.Length?
    ensures ServerStep(sv, up, e).log == sv.log
  {
  }

  lemma ServeCalls(up: seq<Byte>, sv: ServerSide, e: ServerEvent)
    requires e.Admit? || e.Refuse? || e.Offer? || e.Close? || e.Abandon? || e.RetireNow? || e.ExpireNow? || e.Stop?
    ensures ServerStep(sv, up, e).log == sv.log
  {
  }

  /** But for dispatch and reply, a step records at most a new call. */
  lemma CallsOnly(up: seq<Byte>, sv: ServerSide, e: ServerEvent)
    requires !e.Dispatch? && !e.Respond?
    ensures var sv' := ServerStep(sv, up, e); sv'.log == sv.log || sv'.log == sv.log + [Entry(None, None)]
  {
    if e.Take? {
      TakeCalls(up, sv, e.n);
    } else if e.AfterCall? || e.IdleEnds? || e.LateEnds? || e.Length? {
      WaitCalls(up, sv, e);
    } else if !e.AnswerAsk? && !e.Deliver? {
      ServeCalls(up, sv, e);
    }
  }

  lemma ClientSees(cl: ClientSide, sv: ServerSide, sv': ServerSide)
    requires ClientInv(cl, sv.lead, sv.wired, sv.tail) && WireGrew(cl.plain, cl.reqs, sv, sv')
    ensures ClientInv(cl, sv'.lead, sv'.wired, sv'.tail)
  {
    if sv'.wired != sv.wired {
      var k := |cl.reqs| - 1;
      if k <= |sv.wired| {
        CatPush(sv.wired, sv'.wired[|sv.wired|], k);
      }
    }
  }

  lemma OutcomesStay(cl: ClientSide, sv: ServerSide, sv': ServerSide)
    requires OutcomeInv(cl, sv.log, sv.s.Over?) && LogGrew(cl.reqs, sv, sv') && (sv.s.Over? ==> sv'.s.Over?) && sv.upAt <= |cl.up|
    ensures OutcomeInv(cl, sv'.log, sv'.s.Over?)
  {
    forall k | 0 <= k < |cl.outcomes|
      ensures OutcomeOk(cl, sv'.log, sv'.s.Over?, k)
    {
      assert OutcomeOk(cl, sv.log, sv.s.Over?, k);
    }
  }

  /** Every step of the server keeps the connection's invariant. */
  lemma ServerKeeps(l: Link, e: ServerEvent)
    requires Inv(l)
    ensures Inv(LinkStep(l, FromServer(e)))
  {
    var cl, sv := l.cl, l.sv;
    var sv' := ServerStep(sv, cl.up, e);
    Halves(l);
    ServerStepAll(cl.plain, cl.reqs, cl.up, sv, e);
    ServerGrew(cl.plain, cl.reqs, cl.up, sv, e);
    LogGrows(cl.plain, cl.reqs, cl.up, sv, e);
    ClientSees(cl, sv, sv');
    OutcomesStay(cl, sv, sv');
    Joined(cl, sv');
  }

  lemma LinkKeeps(l: Link, e: LinkEvent)
    requires Inv(l)
    ensures Inv(LinkStep(l, e))
  {
    match e
    case FromClient(ce) => ClientKeeps(l, ce);
    case FromServer(se) => ServerKeeps(l, se);
  }

  function Run(l: Link, es: seq<LinkEvent>): Link
    decreases |es|
  {
    if es == [] then l else Run(LinkStep(l, es[0]), es[1..])
  }

  /** Every run keeps the invariant. */
  lemma {:induction false} RunKeeps(l: Link, es: seq<LinkEvent>)
    requires Inv(l)
    ensures Inv(Run(l, es))
    decreases |es|
  {
    if es != [] {
      LinkKeeps(l, es[0]);
      RunKeeps(LinkStep(l, es[0]), es[1..]);
    }
  }

  /** Request and reply pairing, in every run of every connection, whichever way
      it was opened and served: the k-th reply the client returns is what the
      handler that was given the k-th frame replied, and every frame a handler was
      given is the frame the client sent, in order. */
  lemma RepliesArePaired(r: Request, plain: bool, wrapped: bool, es: seq<LinkEvent>, k: nat)
    ensures var l := Run(Dial(r, plain, wrapped), es);
            && (k < |l.cl.outcomes| && l.cl.outcomes[k].Replied? ==>
                  && k < |l.sv.log| && k < |l.cl.reqs| && !l.cl.reqs[k].oneWay
                  && l.sv.log[k].frame == Some(l.cl.reqs[k].frame) && l.sv.log[k].reply == Some(l.cl.outcomes[k].body))
            && (k < |l.sv.log| && l.sv.log[k].frame.Some? ==>
                  k < |l.cl.reqs| && l.sv.log[k].frame.value == l.cl.reqs[k].frame)
  {
    var l := Run(Dial(r, plain, wrapped), es);
    DialInv(r, plain, wrapped);
    RunKeeps(Dial(r, plain, wrapped), es);
    if k < |l.sv.log| {
      assert EntryOk(plain, l.cl.reqs, l.sv.upAt, l.sv.lead, l.sv.log[k], k) by {
        RunPlain(Dial(r, plain, wrapped), es);
      }
    }
    if k < |l.cl.outcomes| {
      assert OutcomeOk(l.cl, l.sv.log, l.sv.s.Over?, k);
    }
  }

  lemma StepPlain(cl: ClientSide, down: seq<Byte>, over: bool, e: ClientEvent)
    ensures ClientStep(cl, down, over, e).plain == cl.plain
  {
  }

  lemma {:induction false} RunPlain(l: Link, es: seq<LinkEvent>)
    ensures Run(l, es).cl.plain == l.cl.plain
    decreases |es|
  {
    if es != [] {
      if es[0].FromClient? {
        StepPlain(l.cl, l.sv.down, l.sv.s.Over?, es[0].ce);
      }
      RunPlain(LinkStep(l, es[0]), es[1..]);
    }
  }

  /** Where a session rests, both cursors are at a boundary: the server waits for
      a request having read exactly the requests it was given, and a connection in
      the pool has read exactly the answers to the requests made on it. */
  lemma RestsAtBoundaries(r: Request, plain: bool, wrapped: bool, es: seq<LinkEvent>)
    ensures var l := Run(Dial(r, plain, wrapped), es);
            var cl, sv := l.cl, l.sv;
            && (sv.s == Idle(0) ==>
                  |sv.log| <= |cl.reqs| && sv.upAt == UpOff(cl.reqs, |sv.log|) && sv.down == Base(sv.lead, sv.wired) && |sv.wired| == |sv.log|)
            && (cl.c.Pooled? ==>
                  |sv.wired| == |cl.reqs| && cl.downAt == DownOff(sv.lead, sv.wired, |cl.reqs|) && |cl.up| == UpOff(cl.reqs, |cl.reqs|))
  {
    var l := Run(Dial(r, plain, wrapped), es);
    DialInv(r, plain, wrapped);
    RunKeeps(Dial(r, plain, wrapped), es);
    RestsAt(l);
  }

  lemma RestsAt(l: Link)
    requires Inv(l)
    ensures l.sv.s == Idle(0) ==>
              && |l.sv.log| <= |l.cl.reqs| && l.sv.upAt == UpOff(l.cl.reqs, |l.sv.log|)
              && l.sv.down == Base(l.sv.lead, l.sv.wired) && |l.sv.wired| == |l.sv.log|
    ensures l.cl.c.Pooled? ==>
              && |l.sv.wired| == |l.cl.reqs| && l.cl.downAt == DownOff(l.sv.lead, l.sv.wired, |l.cl.reqs|)
              && |l.cl.up| == UpOff(l.cl.reqs, |l.cl.reqs|)
  {
    Halves(l);
    if l.sv.s == Idle(0) {
      ServerRests(l.cl.plain, l.cl.reqs, l.sv);
    }
    if l.cl.c.Pooled? {
      ClientRests(l.cl, l.sv);
    }
  }

  lemma ServerRests(plain: bool, reqs: seq<Request>, sv: ServerSide)
    requires ServerHalf(plain, reqs, sv) && ServerInv(plain, reqs, sv) && sv.s == Idle(0)
    ensures |sv.log| <= |reqs| && sv.upAt == UpOff(reqs, |sv.log|)
    ensures sv.down == Base(sv.lead, sv.wired) && |sv.wired| == |sv.log|
  {
    WireIsBase(sv.down, sv.lead, sv.wired);
  }

  lemma ClientRests(cl: ClientSide, sv: ServerSide)
    requires ClientHalf(cl, sv) && cl.c.Pooled?
    ensures |sv.wired| == |cl.reqs| && cl.downAt == DownOff(sv.lead, sv.wired, |cl.reqs|)
    ensures |cl.up| == UpOff(cl.reqs, |cl.reqs|)
  {
  }

  /** A server that is over stays as it is, but for its timers. */
  lemma OverIsFinal(sv: ServerSide, up: seq<Byte>, e: ServerEvent)
    requires sv.s.Over?
    ensures var sv' := ServerStep(sv, up, e); sv' == sv.(retiring := sv'.retiring, expired := sv'.expired)
  {
  }

  lemma MarkerAfterCall(plain: bool, reqs: seq<Request>, sv: ServerSide, cut: Option<nat>)
    requires ServerInv(plain, reqs, sv) && sv.tail.Nothing? && ServerAfterCall(sv, cut).tail.Control?
    ensures ServerAfterCall(sv, cut) == SendLast(sv, Control(CLOSING), cut)
    ensures |sv.log| <= |reqs| && sv.upAt == UpOff(reqs, |sv.log|) && |sv.wired| == |sv.log|
  {
  }

  lemma MarkerIdle(plain: bool, reqs: seq<Request>, up: seq<Byte>, sv: ServerSide, timeout: bool, cut: Option<nat>)
    requires ServerInv(plain, reqs, sv) && sv.tail.Nothing? && ServerIdleEnds(sv, up, timeout, cut).tail.Control?
    ensures ServerIdleEnds(sv, up, timeout, cut) == SendLast(sv, Control(CLOSING), cut)
    ensures |sv.log| <= |reqs| && sv.upAt == UpOff(reqs, |sv.log|) && |sv.wired| == |sv.log|
  {
  }

  /** The closing marker is written where no byte of a next request was read and
      every call was answered, and the server is over from then on. */
  lemma MarkerAtBoundary(l: Link, e: ServerEvent)
    requires Inv(l) && l.sv.tail.Nothing? && l.sv.lead == Some(ACCEPT)
    requires ServerStep(l.sv, l.cl.up, e).tail.Control?
    ensures var sv' := ServerStep(l.sv, l.cl.up, e);
            && sv'.tail == Control(CLOSING) && sv'.s.Over? && sv'.log == l.sv.log
            && |l.sv.log| <= |l.cl.reqs| && l.sv.upAt == UpOff(l.cl.reqs, |l.sv.log|) && |l.sv.wired| == |l.sv.log|
  {
    Halves(l);
    MarkerOf(l.cl.plain, l.cl.reqs, l.cl.up, l.sv, e);
  }

  lemma MarkerOf(plain: bool, reqs: seq<Request>, up: seq<Byte>, sv: ServerSide, e: ServerEvent)
    requires ServerInv(plain, reqs, sv) && sv.tail.Nothing? && sv.lead == Some(ACCEPT)
    requires ServerStep(sv, up, e).tail.Control?
    ensures var sv' := ServerStep(sv, up, e);
            && sv'.tail == Control(CLOSING) && sv'.s.Over? && sv'.log == sv.log
            && |sv.log| <= |reqs| && sv.upAt == UpOff(reqs, |sv.log|) && |sv.wired| == |sv.log|
  {
    ControlFrom(sv, up, e);
    PastAsking(plain, reqs, sv);
    if e.AfterCall? {
      MarkerAfterCall(plain, reqs, sv, e.cut);
    } else {
      MarkerIdle(plain, reqs, up, sv, e.timeout, e.cut);
    }
  }

  /** A server that accepted a session is past asking for one. */
  lemma PastAsking(plain: bool, reqs: seq<Request>, sv: ServerSide)
    requires ServerInv(plain, reqs, sv) && sv.lead == Some(ACCEPT)
    ensures !sv.s.Deciding? && !sv.s.Reading?
  {
  }

  lemma ControlFrom(sv: ServerSide, up: seq<Byte>, e: ServerEvent)
    requires sv.tail.Nothing? && ServerStep(sv, up, e).tail.Control?
    ensures e.AfterCall? || e.IdleEnds? || (e.AnswerAsk? && sv.s.Deciding?) || (e.Length? && sv.s.Reading?)
  {
  }

  /** A closing marker on the wire stands behind the answers to all requests taken,
      and no byte of a next one was read. */
  predicate MarkerOk(sv: ServerSide, reqs: seq<Request>) {
    sv.tail == Control(CLOSING) ==>
      && sv.s.Over? && sv.lead == Some(ACCEPT)
      && |sv.wired| == |sv.log| <= |reqs| && sv.upAt == UpOff(reqs, |sv.log|)
  }

  lemma MarkerServer(l: Link, e: ServerEvent)
    requires Inv(l) && MarkerOk(l.sv, l.cl.reqs)
    ensures MarkerOk(ServerStep(l.sv, l.cl.up, e), l.cl.reqs)
  {
    var sv' := ServerStep(l.sv, l.cl.up, e);
    if l.sv.s.Over? {
      OverIsFinal(l.sv, l.cl.up, e);
    } else if sv'.tail == Control(CLOSING) {
      MarkerFrom(l.cl.plain, l.cl.reqs, l.cl.up, l.sv, e);
      MarkerAtBoundary(l, e);
    }
  }

  /** The marker comes from a session with nothing else to say. */
  lemma MarkerFrom(plain: bool, reqs: seq<Request>, up: seq<Byte>, sv: ServerSide, e: ServerEvent)
    requires ServerInv(plain, reqs, sv) && sv.tail != Control(CLOSING) && ServerStep(sv, up, e).tail == Control(CLOSING)
    ensures sv.tail.Nothing? && sv.lead == Some(ACCEPT) && ServerStep(sv, up, e).lead == sv.lead
    ensures ServerStep(sv, up, e).upAt == sv.upAt && ServerStep(sv, up, e).wired == sv.wired
  {
    ClosingFrom(sv, up, e);
    if e.AfterCall? {
      ClosingAfterCall(plain, reqs, sv, e.cut);
    } else if e.IdleEnds? {
      ClosingIdle(plain, reqs, up, sv, e.timeout, e.cut);
    }
  }

  lemma ClosingFrom(sv: ServerSide, up: seq<Byte>, e: ServerEvent)
    requires sv.tail != Control(CLOSING) && ServerStep(sv, up, e).tail == Control(CLOSING)
    ensures e.AfterCall? || e.IdleEnds?
  {
    if e.Offer? && sv.s.Replying? {
      ClosingOffer(sv, e.n, e.cut);
    }
  }

  lemma ClosingOffer(sv: ServerSide, n: nat, cut: Option<nat>)
    requires sv.s.Replying? && sv.tail != Control(CLOSING)
    ensures ServerOffer(sv, n, cut).tail != Control(CLOSING)
  {
  }

  lemma ClosingAfterCall(plain: bool, reqs: seq<Request>, sv: ServerSide, cut: Option<nat>)
    requires ServerInv(plain, reqs, sv) && sv.tail != Control(CLOSING) && ServerAfterCall(sv, cut).tail == Control(CLOSING)
    ensures ServerAfterCall(sv, cut) == SendLast(sv, Control(CLOSING), cut) && sv.tail.Nothing? && sv.lead == Some(ACCEPT)
  {
  }

  lemma ClosingIdle(plain: bool, reqs: seq<Request>, up: seq<Byte>, sv: ServerSide, timeout: bool, cut: Option<nat>)
    requires ServerInv(plain, reqs, sv) && sv.tail != Control(CLOSING) && ServerIdleEnds(sv, up, timeout, cut).tail == Control(CLOSING)
    ensures ServerIdleEnds(sv, up, timeout, cut) == SendLast(sv, Control(CLOSING), cut) && sv.tail.Nothing? && sv.lead == Some(ACCEPT)
  {
  }

  lemma MarkerClient(l: Link, e: ClientEvent)
    requires l.cl.reqs != [] && MarkerOk(l.sv, l.cl.reqs)
    ensures MarkerOk(l.sv, ClientStep(l.cl, l.sv.down, l.sv.s.Over?, e).reqs)
  {
    if !(e.Reuse? && l.cl.c.Pooled?) {
      SameRequests(l.cl, l.sv.down, l.sv.s.Over?, e);
    } else if |l.sv.log| <= |l.cl.reqs| {
      FlatPush(false, l.cl.reqs, e.r, |l.sv.log|);
    }
  }

  lemma {:induction false} MarkerRun(l: Link, es: seq<LinkEvent>)
    requires Inv(l) && MarkerOk(l.sv, l.cl.reqs)
    ensures MarkerOk(Run(l, es).sv, Run(l, es).cl.reqs)
    decreases |es|
  {
    if es != [] {
      LinkKeeps(l, es[0]);
      if es[0].FromServer? {
        MarkerServer(l, es[0].se);
      } else {
        MarkerClient(l, es[0].ce);
      }
      MarkerRun(LinkStep(l, es[0]), es[1..]);
    }
  }

  /** In every run of every connection, wherever the closing marker was written. */
  lemma MarkersInRuns(r: Request, plain: bool, wrapped: bool, es: seq<LinkEvent>)
    ensures var l := Run(Dial(r, plain, wrapped), es); MarkerOk(l.sv, l.cl.reqs)
  {
    DialInv(r, plain, wrapped);
    MarkerRun(Dial(r, plain, wrapped), es);
  }

  // ---------------------------------------------------------------- what a retry means

  /** A client is told to try again only by a marker, and never in a plain exchange. */
  predicate RetriesOk(l: Link) {
    forall k :: 0 <= k < |l.cl.outcomes| ==>
      && (l.cl.outcomes[k].Retry? ==> l.sv.tail == Control(CLOSING) && l.sv.s.Over?)
      && (l.cl.plain ==> !l.cl.outcomes[k].Retry? && !l.cl.outcomes[k].NoSession?)
  }

  /** The outcome a step adds, if it adds one. */
  predicate AddsOk(cl: ClientSide, cl': ClientSide, tail: Tail, over: bool) {
    cl'.plain == cl.plain &&
    (|| cl'.outcomes == cl.outcomes
     || (&& |cl'.outcomes| == |cl.outcomes| + 1
         && var o := cl'.outcomes[|cl.outcomes|];
            && cl'.outcomes == cl.outcomes + [o]
            && (o.Retry? ==> tail == Control(CLOSING) && over) && (cl.plain ==> !o.Retry? && !o.NoSession?)))
  }

  lemma HeaderAdds(cl: ClientSide, w: Word, single: bool, limit: nat, tail: Tail, over: bool)
    requires cl.reqs != [] && (cl.plain ==> single) && (!single && w == CLOSING ==> tail == Control(CLOSING) && over)
    ensures AddsOk(cl, DecideHeader(cl, w, single, limit), tail, over)
  {
  }

  lemma AnswerAdds(cl: ClientSide, w: Word, tail: Tail, over: bool)
    requires cl.reqs != [] && !cl.plain && w != CLOSING
    ensures AddsOk(cl, DecideAnswer(cl, w), tail, over)
  {
  }

  lemma DecideAdds(l: Link, limit: nat)
    requires Inv(l)
    ensures AddsOk(l.cl, ClientDecide(l.cl, l.sv.down, limit), l.sv.tail, l.sv.s.Over?)
  {
    var cl, sv := l.cl, l.sv;
    DecideShape(cl, sv.down, limit);
    if cl.c == AwaitAnswer(4) {
      AnswerIsNoMarker(cl, sv);
      AnswerAdds(cl, Word32(Gathered(sv.down, cl.downAt, 4)), sv.tail, sv.s.Over?);
    } else if cl.c.AwaitHeader? && cl.c.have == 4 {
      MarkerWord(cl, sv);
      HeaderAdds(cl, Word32(Gathered(sv.down, cl.downAt, 4)), cl.c.single, limit, sv.tail, sv.s.Over?);
    }
  }

  lemma AnswerIsNoMarker(cl: ClientSide, sv: ServerSide)
    requires ServerHalf(cl.plain, cl.reqs, sv) && ClientInv(cl, sv.lead, sv.wired, sv.tail)
    requires cl.c == AwaitAnswer(4) && cl.downAt <= |sv.down|
    ensures Word32(Gathered(sv.down, cl.downAt, 4)) != CLOSING
  {
    AnswerWord(cl.reqs, sv);
    assert Gathered(sv.down, cl.downAt, 4) == sv.down[..4];
  }

  /** A word read as the marker is the marker. */
  lemma MarkerWord(cl: ClientSide, sv: ServerSide)
    requires ServerHalf(cl.plain, cl.reqs, sv) && ClientInv(cl, sv.lead, sv.wired, sv.tail)
    requires cl.c.AwaitHeader? && cl.c.have == 4 && cl.downAt <= |sv.down|
    ensures cl.plain ==> cl.c.single
    ensures !cl.c.single && Word32(Gathered(sv.down, cl.downAt, 4)) == CLOSING ==> sv.tail == Control(CLOSING) && sv.s.Over?
  {
    if !cl.c.single {
      var k := |cl.reqs| - 1;
      MarkerTail(cl.reqs, sv, k);
      assert Word32(Gathered(sv.down, cl.downAt, 4)) == WordAt(sv.down, sv.lead, sv.wired, k);
    }
  }

  lemma MarkerTail(reqs: seq<Request>, sv: ServerSide, k: nat)
    requires DownInv(reqs, sv.s.Over?, sv.down, sv.lead, sv.wired, sv.tail, sv.log)
    requires k <= |sv.wired| && DownOff(sv.lead, sv.wired, k) + 4 <= |sv.down|
    ensures WordAt(sv.down, sv.lead, sv.wired, k) == CLOSING ==> sv.tail == Control(CLOSING) && sv.s.Over?
  {
    HeaderCases(sv.down, sv.lead, sv.wired, sv.tail, k);
    if k < |sv.wired| {
      ReplyHeaderFields(|sv.wired[k]|, true);
    } else if sv.tail.Payload? {
      ReplyHeaderFields(|sv.tail.body|, sv.tail.keep);
    }
  }

  lemma ClientAdds(l: Link, e: ClientEvent)
    requires Inv(l)
    ensures AddsOk(l.cl, ClientStep(l.cl, l.sv.down, l.sv.s.Over?, e), l.sv.tail, l.sv.s.Over?)
  {
    if e.Decide? {
      DecideAdds(l, e.limit);
    } else {
      OtherAdds(l.cl, l.sv, e);
    }
  }

  lemma OtherAdds(cl: ClientSide, sv: ServerSide, e: ClientEvent)
    requires ClientInv(cl, sv.lead, sv.wired, sv.tail) && !e.Decide?
    ensures AddsOk(cl, ClientStep(cl, sv.down, sv.s.Over?, e), sv.tail, sv.s.Over?)
  {
  }

  lemma RetriesStep(l: Link, e: LinkEvent)
    requires Inv(l) && RetriesOk(l)
    ensures RetriesOk(LinkStep(l, e))
  {
    if e.FromServer? {
      ServerRetries(l.cl, l.sv, e.se);
    } else {
      ClientAdds(l, e.ce);
      AddedRetries(l, ClientStep(l.cl, l.sv.down, l.sv.s.Over?, e.ce));
    }
  }

  lemma ServerRetries(cl: ClientSide, sv: ServerSide, e: ServerEvent)
    requires RetriesOk(Link(cl, sv))
    ensures RetriesOk(Link(cl, ServerStep(sv, cl.up, e)))
  {
    if sv.s.Over? {
      OverIsFinal(sv, cl.up, e);
    }
  }

  lemma AddedRetries(l: Link, cl': ClientSide)
    requires RetriesOk(l) && AddsOk(l.cl, cl', l.sv.tail, l.sv.s.Over?)
    ensures RetriesOk(Link(cl', l.sv))
  {
  }

  lemma {:induction false} RetriesRun(l: Link, es: seq<LinkEvent>)
    requires Inv(l) && RetriesOk(l)
    ensures RetriesOk(Run(l, es))
    decreases |es|
  {
    if es != [] {
      LinkKeeps(l, es[0]);
      RetriesStep(l, es[0]);
      RetriesRun(LinkStep(l, es[0]), es[1..]);
    }
  }

  /** In every run of every connection, a client that is to try again has read a closing
      marker that the server wrote, after which the server is over; and in a plain
      exchange it is never told to. */
  lemma RetryMeansMarker(r: Request, plain: bool, wrapped: bool, es: seq<LinkEvent>, k: nat)
    requires k < |Run(Dial(r, plain, wrapped), es).cl.outcomes| && Run(Dial(r, plain, wrapped), es).cl.outcomes[k].Retry?
    ensures var l := Run(Dial(r, plain, wrapped), es);
            !plain && l.sv.tail == Control(CLOSING) && l.sv.s.Over? && l.sv.lead == Some(ACCEPT)
  {
    var l := Run(Dial(r, plain, wrapped), es);
    DialInv(r, plain, wrapped);
    RetriesRun(Dial(r, plain, wrapped), es);
    RunKeeps(Dial(r, plain, wrapped), es);
    MarkersInRuns(r, plain, wrapped, es);
    PlainRun(Dial(r, plain, wrapped), es);
    RetryIs(l, k);
  }

  lemma {:induction false} PlainRun(l: Link, es: seq<LinkEvent>)
    ensures Run(l, es).cl.plain == l.cl.plain
    decreases |es|
  {
    if es != [] {
      PlainStep(l, es[0]);
      PlainRun(LinkStep(l, es[0]), es[1..]);
    }
  }

  lemma PlainStep(l: Link, e: LinkEvent)
    ensures LinkStep(l, e).cl.plain == l.cl.plain
  {
    if e.FromClient? && e.ce.Decide? {
      DecideFrame(l.cl, l.sv.down, e.ce.limit);
    } else if e.FromClient? {
      OtherPlain(l.cl, l.sv.down, l.sv.s.Over?, e.ce);
    }
  }

  lemma OtherPlain(cl: ClientSide, down: seq<Byte>, over: bool, e: ClientEvent)
    requires !e.Decide?
    ensures ClientStep(cl, down, over, e).plain == cl.plain
  {
  }

  lemma RetryIs(l: Link, k: nat)
    requires Inv(l) && RetriesOk(l) && MarkerOk(l.sv, l.cl.reqs) && k < |l.cl.outcomes| && l.cl.outcomes[k].Retry?
    ensures l.sv.lead == Some(ACCEPT) && !l.cl.plain
  {
  }

  /** Nothing a server does after its last word: it records and answers nothing more. */
  lemma {:induction false} OverRun(l: Link, es: seq<LinkEvent>)
    requires l.sv.s.Over?
    ensures var l' := Run(l, es); l'.sv.s.Over? && l'.sv.log == l.sv.log && l'.sv.down == l.sv.down
    decreases |es|
  {
    if es != [] {
      if es[0].FromServer? {
        OverIsFinal(l.sv, l.cl.up, es[0].se);
      }
      OverRun(LinkStep(l, es[0]), es[1..]);
    }
  }
}
