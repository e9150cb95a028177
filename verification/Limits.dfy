/** The limits on a frame and on a reply (listen/framed.go:102-112, 479-505,
    listen/pool.go:248-279): what is longer ends the connection, and is given to no
    handler and returned to no caller. */
module Limits {
  import opened Options
  import opened Wire
  import opened SessionCalls
  import opened Links
  import opened LinkRuns

  /** The receiver admits a length exactly up to its limit. */
  lemma AdmitsExactly(sv: ServerSide, up: seq<Byte>, limit: nat)
    requires sv.s.Admitting? && sv.s.length <= LENGTH_MASK
    ensures var sv' := ServerStep(sv, up, Admit(limit));
            if limit < sv.s.length then sv' == sv.(s := Over) else sv' == sv.(s := Body(sv.s.length, 0, sv.s.view))
  {
  }

  /** On a connection served once it is measured before, behind the answer to a session
      request if that is what was sent. */
  lemma MeasuresExactly(sv: ServerSide, up: seq<Byte>, length: nat, asked: bool, oneWay: bool, limit: nat)
    requires sv.s.Reading? && sv.s.have == 4 && sv.s.view.Direct? && length <= LENGTH_MASK
    requires asked ==> RequestHeader(length, oneWay) != CLOSING
    requires FirstFour(up, sv.s.view.lent, sv.s.view.skip) == Be32(if asked then RequestHeader(length, oneWay) else length)
    ensures var sv' := ServerStep(sv, up, Length(limit, None));
            && sv'.s == (if limit < length then Over else Admitting(length, sv.s.view))
            && sv'.down == (if asked then sv.down + Be32(UNSUPPORTED) else sv.down) && sv'.log == sv.log
  {
    WordRoundTrip(if asked then RequestHeader(length, oneWay) else length);
    RequestHeaderFields(length, oneWay);
  }

  /** The client goes on to read a body exactly up to its limit, and fails beyond it. */
  lemma AwaitsExactly(cl: ClientSide, length: nat, keep: bool, single: bool, limit: nat)
    requires cl.reqs != [] && !Current(cl).oneWay && length <= LENGTH_MASK && (single ==> !keep)
    ensures DecideHeader(cl, ReplyHeader(length, keep), single, limit) ==
            if limit < length then cl.(outcomes := cl.outcomes + [Failed], c := Gone) else cl.(c := AwaitBody(keep, length, 0))
  {
    ReplyHeaderFields(length, keep);
  }

  // ---------------------------------------------------------------- over every run

  predicate FramesWithin(sv: ServerSide, limit: nat) {
    && (sv.s.Body? ==> sv.s.length <= limit)
    && forall k :: 0 <= k < |sv.log| && sv.log[k].frame.Some? ==> |sv.log[k].frame.value| <= limit
  }

  predicate RepliesWithin(cl: ClientSide, limit: nat) {
    && (cl.c.AwaitBody? ==> cl.c.length <= limit)
    && forall k :: 0 <= k < |cl.outcomes| && cl.outcomes[k].Replied? ==> |cl.outcomes[k].body| <= limit
  }

  /** Receiver and client are given limits no larger than these. */
  predicate Capped(e: LinkEvent, frames: nat, replies: nat) {
    match e
    case FromServer(se) => se.Admit? ==> se.limit <= frames
    case FromClient(ce) => ce.Decide? ==> ce.limit <= replies
  }

  lemma DispatchWithin(sv: ServerSide, up: seq<Byte>, limit: nat)
    requires FramesWithin(sv, limit)
    ensures FramesWithin(ServerDispatch(sv, up), limit)
  {
  }

  lemma RespondWithin(sv: ServerSide, body: Frame, limit: nat)
    requires FramesWithin(sv, limit)
    ensures FramesWithin(ServerRespond(sv, body), limit)
  {
  }

  lemma TakeWithin(sv: ServerSide, up: seq<Byte>, e: ServerEvent, limit: nat)
    requires FramesWithin(sv, limit) && (e.Take? || e.AnswerAsk? || e.Deliver? || e.Length? || e.Admit?)
    requires e.Admit? ==> e.limit <= limit
    ensures FramesWithin(ServerStep(sv, up, e), limit)
  {
    if e.Take? {
      ReadWithin(sv, up, e.n, limit);
    } else if e.Length? {
      LengthWithin(sv, up, e.limit, e.cut, limit);
    }
  }

  lemma ReadWithin(sv: ServerSide, up: seq<Byte>, n: nat, limit: nat)
    requires FramesWithin(sv, limit)
    ensures FramesWithin(ServerTake(sv, up, n), limit)
  {
  }

  lemma LengthWithin(sv: ServerSide, up: seq<Byte>, most: nat, cut: Option<nat>, limit: nat)
    requires FramesWithin(sv, limit)
    ensures FramesWithin(ServerLength(sv, up, most, cut), limit)
  {
  }

  lemma ServeWithin(sv: ServerSide, up: seq<Byte>, e: ServerEvent, limit: nat)
    requires FramesWithin(sv, limit) && !e.Dispatch? && !e.Respond?
    requires !(e.Take? || e.AnswerAsk? || e.Deliver? || e.Length? || e.Admit?)
    ensures FramesWithin(ServerStep(sv, up, e), limit)
  {
  }

  lemma ServerWithin(sv: ServerSide, up: seq<Byte>, e: ServerEvent, limit: nat)
    requires FramesWithin(sv, limit) && (e.Admit? ==> e.limit <= limit)
    ensures FramesWithin(ServerStep(sv, up, e), limit)
  {
    if e.Dispatch? {
      DispatchWithin(sv, up, limit);
    } else if e.Respond? {
      RespondWithin(sv, e.body, limit);
    } else if e.Take? || e.AnswerAsk? || e.Deliver? || e.Length? || e.Admit? {
      TakeWithin(sv, up, e, limit);
    } else {
      ServeWithin(sv, up, e, limit);
    }
  }

  lemma HeaderWithin(cl: ClientSide, w: Word, single: bool, limit: nat, replies: nat)
    requires cl.reqs != [] && RepliesWithin(cl, replies) && limit <= replies
    ensures RepliesWithin(DecideHeader(cl, w, single, limit), replies) && RepliesWithin(DecideAnswer(cl, w), replies)
  {
  }

  lemma ClientWithin(cl: ClientSide, down: seq<Byte>, over: bool, e: ClientEvent, replies: nat)
    requires RepliesWithin(cl, replies) && (e.Decide? ==> e.limit <= replies)
    ensures RepliesWithin(ClientStep(cl, down, over, e), replies)
  {
    if e.Decide? && cl.reqs != [] && cl.downAt <= |down| {
      HeaderWithin(cl, Word32(if 4 <= cl.downAt then Gathered(down, cl.downAt, 4) else Be32(0)),
                   cl.c.AwaitHeader? && cl.c.single, e.limit, replies);
    }
  }

  lemma {:induction false} WithinRun(l: Link, es: seq<LinkEvent>, frames: nat, replies: nat)
    requires FramesWithin(l.sv, frames) && RepliesWithin(l.cl, replies)
    requires forall i :: 0 <= i < |es| ==> Capped(es[i], frames, replies)
    ensures FramesWithin(Run(l, es).sv, frames) && RepliesWithin(Run(l, es).cl, replies)
    decreases |es|
  {
    if es != [] {
      assert Capped(es[0], frames, replies);
      if es[0].FromServer? {
        ServerWithin(l.sv, l.cl.up, es[0].se, frames);
      } else {
        ClientWithin(l.cl, l.sv.down, l.sv.s.Over?, es[0].ce, replies);
      }
      WithinRun(LinkStep(l, es[0]), es[1..], frames, replies);
    }
  }

  /** In every run of every connection, no frame over the receiver's limit is given to a
      handler, and no reply over the client's is returned. */
  lemma LimitsHold(r: Request, plain: bool, wrapped: bool, es: seq<LinkEvent>, frames: nat, replies: nat, k: nat)
    requires forall i :: 0 <= i < |es| ==> Capped(es[i], frames, replies)
    ensures var l := Run(Dial(r, plain, wrapped), es);
            && (k < |l.sv.log| && l.sv.log[k].frame.Some? ==> |l.sv.log[k].frame.value| <= frames)
            && (k < |l.cl.outcomes| && l.cl.outcomes[k].Replied? ==> |l.cl.outcomes[k].body| <= replies)
  {
    WithinRun(Dial(r, plain, wrapped), es, frames, replies);
  }
}
