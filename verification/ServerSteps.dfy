/** Every step of the server keeps the connection's invariant. */
module ServerSteps {
  import opened Options
  import opened Wire
  import opened SessionCalls
  import opened Links
  import opened LinkInvariant
  import opened ClientSteps

  /** Everything the server's end must keep true about what the client wrote. */
  ghost predicate ServerAll(plain: bool, reqs: seq<Request>, up: seq<Byte>, sv: ServerSide) {
    && sv.upAt <= |up| && Starts(up, Flat(plain, reqs, |reqs|))
    && ServerHalf(plain, reqs, sv)
    && ServerInv(plain, reqs, sv)
  }

  /** Reading on, or changing phase, leaves the log and the wire as they are. */
  lemma PhaseHalf(plain: bool, reqs: seq<Request>, sv: ServerSide, sv': ServerSide)
    requires ServerHalf(plain, reqs, sv)
    requires sv'.lead == sv.lead && sv'.wired == sv.wired
    requires sv'.tail == sv.tail && sv'.log == sv.log && sv'.down == sv.down
    requires sv.upAt <= sv'.upAt && (sv.s.Over? ==> sv'.s.Over?)
    ensures ServerHalf(plain, reqs, sv')
  {
    forall k | 0 <= k < |sv.log|
      ensures EntryOk(plain, reqs, sv'.upAt, sv.lead, sv.log[k], k)
    {
      assert EntryOk(plain, reqs, sv.upAt, sv.lead, sv.log[k], k);
    }
  }

  /** A new call joins the log. */
  lemma CallHalf(plain: bool, reqs: seq<Request>, sv: ServerSide, sv': ServerSide)
    requires ServerHalf(plain, reqs, sv) && sv.tail.Nothing? && |sv.log| == |sv.wired| < |reqs|
    requires sv'.lead == sv.lead && sv'.wired == sv.wired && sv'.tail == sv.tail
    requires sv'.down == sv.down && sv'.upAt == sv.upAt
    requires sv'.log == sv.log + [Entry(None, None)]
    ensures ServerHalf(plain, reqs, sv')
  {
    forall k | 0 <= k < |sv'.log|
      ensures EntryOk(plain, reqs, sv'.upAt, sv.lead, sv'.log[k], k)
    {
      if k < |sv.log| {
        assert EntryOk(plain, reqs, sv.upAt, sv.lead, sv.log[k], k);
      }
    }
    forall k | 0 <= k < |sv.wired|
      ensures Answers(reqs, sv.lead, sv'.log, k, sv.wired[k])
    {
      assert Answers(reqs, sv.lead, sv.log, k, sv.wired[k]);
    }
  }

  lemma FirstByte(plain: bool, r: Request)
    ensures Sent(plain, r)[0] < 128 <==> plain
  {
    Digits(if plain then |r.frame| else Header(r));
  }

  lemma SentHead(plain: bool, r: Request)
    ensures Sent(plain, r)[0..4] == Be32(if plain then |r.frame| else Header(r))
    ensures Word32(Sent(plain, r)[0..4]) == if plain then |r.frame| else Header(r)
  {
    HeadOf(if plain then |r.frame| else Header(r), r.frame);
    assert Sent(plain, r)[0..4] == Be32(if plain then |r.frame| else Header(r));
  }

  lemma TakeFirstAll(plain: bool, reqs: seq<Request>, up: seq<Byte>, sv: ServerSide, n: nat)
    requires ServerAll(plain, reqs, up, sv) && sv.s.First?
    requires 0 < n && sv.s.have + n <= (if sv.s.have == 0 then 1 else 4) && sv.upAt + n <= |up|
    ensures ServerAll(plain, reqs, up, TakeFirst(sv.(upAt := sv.upAt + n), Gathered(up, sv.upAt + n, sv.s.have + n)))
  {
    var m := sv.s.have + n;
    var sv1 := sv.(upAt := m);
    var got := Gathered(up, m, m);
    UpAt(plain, reqs, up, 0, 0, m);
    assert got == up[0..m] == Sent(plain, reqs[0])[0..m];
    FirstByte(plain, reqs[0]);
    PhaseHalf(plain, reqs, sv, sv1);
    var sv' := TakeFirst(sv1, got);
    if m == 1 && got[0] < 128 {
      assert got == [Sent(plain, reqs[0])[0]];
      CallHalf(plain, reqs, sv1, sv');
    } else {
      if m == 4 {
        SentHead(plain, reqs[0]);
      }
      PhaseHalf(plain, reqs, sv1, sv');
    }
  }

  lemma TakeFrame(sv: ServerSide, up: seq<Byte>, n: nat)
    requires !sv.s.First?
    ensures var sv' := ServerTake(sv, up, n);
            sv' == sv.(upAt := sv'.upAt, s := sv'.s) && sv.upAt <= sv'.upAt && (sv.upAt <= |up| ==> sv'.upAt <= |up|)
    ensures sv.s.Over? ==> ServerTake(sv, up, n) == sv
  {
  }

  lemma TakeLent(plain: bool, reqs: seq<Request>, up: seq<Byte>, sv: ServerSide, n: nat)
    requires ServerInv(plain, reqs, sv) && sv.s.Reading?
    ensures ServerInv(plain, reqs, ServerTake(sv, up, n))
  {
  }

  lemma TakeBody(plain: bool, reqs: seq<Request>, up: seq<Byte>, sv: ServerSide, n: nat)
    requires ServerInv(plain, reqs, sv) && sv.s.Body?
    ensures ServerInv(plain, reqs, ServerTake(sv, up, n))
  {
  }

  lemma TakeHeader(plain: bool, reqs: seq<Request>, up: seq<Byte>, sv: ServerSide, n: nat)
    requires ServerInv(plain, reqs, sv) && (sv.s.Idle? || sv.s.Late?) && |up| <= UpOff(reqs, |reqs|)
    ensures ServerInv(plain, reqs, ServerTake(sv, up, n))
  {
  }

  lemma TakeAll(plain: bool, reqs: seq<Request>, up: seq<Byte>, sv: ServerSide, n: nat)
    requires ServerAll(plain, reqs, up, sv)
    ensures ServerAll(plain, reqs, up, ServerTake(sv, up, n))
  {
    if sv.s.First? {
      if 0 < n && sv.s.have + n <= (if sv.s.have == 0 then 1 else 4) && sv.upAt + n <= |up| {
        TakeFirstAll(plain, reqs, up, sv, n);
      }
    } else {
      TakeFrame(sv, up, n);
      PhaseHalf(plain, reqs, sv, ServerTake(sv, up, n));
      if sv.s.Reading? {
        TakeLent(plain, reqs, up, sv, n);
      } else if sv.s.Body? {
        TakeBody(plain, reqs, up, sv, n);
      } else if sv.s.Idle? || sv.s.Late? {
        TakeHeader(plain, reqs, up, sv, n);
      }
    }
  }

  /** With nothing pending, the wire is exactly the complete answers. */
  lemma WireIsBase(down: seq<Byte>, lead: Option<Word>, wired: seq<Frame>)
    requires OnWire(down, lead, wired, Nothing)
    ensures down == Base(lead, wired)
  {
    assert Base(lead, wired) + [] == Base(lead, wired);
  }

  /** A beginning of the next answer may follow them. */
  lemma WirePlus(down: seq<Byte>, lead: Option<Word>, wired: seq<Frame>, t: Tail, m: nat)
    requires OnWire(down, lead, wired, Nothing) && m <= |TailBytes(t)|
    ensures OnWire(down + TailBytes(t)[..m], lead, wired, t)
    ensures |down + TailBytes(t)[..m]| == |Base(lead, wired)| + m
  {
    WireIsBase(down, lead, wired);
    assert (down + TailBytes(t))[..|down| + m] == down + TailBytes(t)[..m];
  }

  function Kept(t: Tail, cut: Option<nat>): nat {
    if cut.Some? then Min(cut.value, |TailBytes(t)|) else |TailBytes(t)|
  }

  /** Sending a last control word and ending. */
  lemma SendLastAll(plain: bool, reqs: seq<Request>, up: seq<Byte>, sv: ServerSide, t: Tail, cut: Option<nat>)
    requires ServerAll(plain, reqs, up, sv) && sv.tail.Nothing?
    requires match t
             case Nothing => true
             case Control(w) =>
               if sv.lead == Some(ACCEPT) then w == CLOSING && |sv.log| == |sv.wired|
               else sv.lead.None? && cut.Some? && cut.value < 4 && (0 < |sv.log| ==> sv.log[0].frame.None?)
             case Payload(body, keep) =>
               && |sv.wired| < |sv.log| && (keep ==> sv.lead == Some(ACCEPT) && cut.Some? && cut.value < 4 + |body|)
               && Answers(reqs, sv.lead, sv.log, |sv.wired|, body)
             case Refused(_, _) => |sv.wired| < |sv.log| && sv.log[|sv.wired|].frame.None?
    ensures ServerAll(plain, reqs, up, SendLast(sv, t, cut))
  {
    SentLast(sv, t, cut);
    LastHalf(plain, reqs, sv, t, Kept(t, cut));
  }

  lemma LastHalf(plain: bool, reqs: seq<Request>, sv: ServerSide, t: Tail, m: nat)
    requires ServerHalf(plain, reqs, sv) && sv.tail.Nothing? && m <= |TailBytes(t)|
    requires match t
             case Nothing => true
             case Control(w) =>
               if sv.lead == Some(ACCEPT) then w == CLOSING && |sv.log| == |sv.wired|
               else sv.lead.None? && m < 4 && (0 < |sv.log| ==> sv.log[0].frame.None?)
             case Payload(body, keep) =>
               && |sv.wired| < |sv.log| && (keep ==> sv.lead == Some(ACCEPT) && m < 4 + |body|)
               && Answers(reqs, sv.lead, sv.log, |sv.wired|, body)
             case Refused(_, _) => |sv.wired| < |sv.log| && sv.log[|sv.wired|].frame.None?
    ensures ServerHalf(plain, reqs, sv.(down := sv.down + TailBytes(t)[..m], tail := t, s := Over))
  {
    WirePlus(sv.down, sv.lead, sv.wired, t, m);
    WireIsBase(sv.down, sv.lead, sv.wired);
  }

  lemma SentLast(sv: ServerSide, t: Tail, cut: Option<nat>)
    ensures SendLast(sv, t, cut) == sv.(down := sv.down + TailBytes(t)[..Kept(t, cut)], tail := t, s := Over)
  {
    WholeTail(t);
  }

  lemma WholeTail(t: Tail)
    ensures TailBytes(t)[..|TailBytes(t)|] == TailBytes(t)
  {
  }

  /** The whole of the server's answer to a session request. */
  lemma LeadHalf(reqs: seq<Request>, sv: ServerSide, sv': ServerSide, w: Word)
    requires ServerHalf(false, reqs, sv) && sv.lead.None? && sv.tail.Nothing? && w in {ACCEPT, DECLINE, UNSUPPORTED}
    requires forall k :: 0 <= k < |sv.log| ==> sv.log[k] == Entry(None, None)
    requires sv'.down == sv.down + Be32(w) && sv'.lead == Some(w) && sv'.wired == sv.wired && sv'.tail == sv.tail
    requires sv'.log == sv.log && sv'.upAt == sv.upAt
    ensures ServerHalf(false, reqs, sv')
  {
    WireIsBase(sv.down, sv.lead, sv.wired);
    assert sv.wired == [] && sv.down == [];
    assert sv'.down == Be32(w) == Base(sv'.lead, sv'.wired);
    assert Base(sv'.lead, sv'.wired) + [] == sv'.down;
  }

  lemma AnswerAll(plain: bool, reqs: seq<Request>, up: seq<Byte>, sv: ServerSide, accept: bool, cut: Option<nat>)
    requires ServerAll(plain, reqs, up, sv) && sv.s.Deciding?
    ensures ServerAll(plain, reqs, up, ServerAnswer(sv, accept, cut))
  {
    var h := sv.s.header;
    var w := if accept then ACCEPT else DECLINE;
    if cut.Some? {
      SendLastAll(plain, reqs, up, sv, Control(w), Some(Min(cut.value, 3)));
    } else {
      var sv1 := sv.(down := sv.down + Be32(w), lead := Some(w));
      LeadHalf(reqs, sv, sv1, w);
      var sv' := ServerAnswer(sv, accept, cut);
      assert UpOff(reqs, 0) == 0;
      if accept {
        PhaseHalf(plain, reqs, sv1, sv');
      } else {
        RequestHeaderFields(|reqs[0].frame|, reqs[0].oneWay);
        CallHalf(plain, reqs, sv1, sv');
      }
    }
  }

  /** The call a request's header becomes. */
  lemma DeliverShape(sv: ServerSide, r: Request)
    requires sv.s == Starting(Header(r))
    ensures ServerDeliver(sv) ==
            if Header(r) == CLOSING then sv.(s := Over)
            else sv.(s := Admitting(|r.frame|, InCall(r.oneWay)), log := sv.log + [Entry(None, None)])
  {
    RequestHeaderFields(|r.frame|, r.oneWay);
  }

  lemma DeliveredAll(plain: bool, reqs: seq<Request>, up: seq<Byte>, sv: ServerSide)
    requires ServerAll(plain, reqs, up, sv) && sv.s.Starting?
    ensures var r := reqs[|sv.log|];
            ServerAll(plain, reqs, up, sv.(s := Admitting(|r.frame|, InCall(r.oneWay)), log := sv.log + [Entry(None, None)]))
  {
    var r := reqs[|sv.log|];
    DeliveredInv(plain, reqs, sv, r);
    DeliveredHalf(plain, reqs, sv, r);
  }

  lemma DeliveredInv(plain: bool, reqs: seq<Request>, sv: ServerSide, r: Request)
    requires ServerInv(plain, reqs, sv) && sv.s.Starting? && |sv.log| < |reqs| && r == reqs[|sv.log|]
    ensures ServerInv(plain, reqs, sv.(s := Admitting(|r.frame|, InCall(r.oneWay)), log := sv.log + [Entry(None, None)]))
  {
  }

  lemma DeliveredHalf(plain: bool, reqs: seq<Request>, sv: ServerSide, r: Request)
    requires ServerHalf(plain, reqs, sv) && ServerInv(plain, reqs, sv) && sv.s.Starting?
    ensures ServerHalf(plain, reqs, sv.(s := Admitting(|r.frame|, InCall(r.oneWay)), log := sv.log + [Entry(None, None)]))
  {
    CallHalf(plain, reqs, sv, sv.(s := Admitting(|r.frame|, InCall(r.oneWay)), log := sv.log + [Entry(None, None)]));
  }

  lemma DeliverAll(plain: bool, reqs: seq<Request>, up: seq<Byte>, sv: ServerSide)
    requires ServerAll(plain, reqs, up, sv) && sv.s.Starting?
    ensures ServerAll(plain, reqs, up, ServerDeliver(sv))
  {
    NextStarts(plain, reqs, sv);
    DeliverShape(sv, reqs[|sv.log|]);
    if Header(reqs[|sv.log|]) == CLOSING {
      OverAll(plain, reqs, up, sv);
    } else {
      DeliveredAll(plain, reqs, up, sv);
    }
  }

  lemma NextStarts(plain: bool, reqs: seq<Request>, sv: ServerSide)
    requires ServerInv(plain, reqs, sv) && sv.s.Starting?
    ensures |sv.log| < |reqs| && sv.s == Starting(Header(reqs[|sv.log|]))
  {
  }

  lemma OverAll(plain: bool, reqs: seq<Request>, up: seq<Byte>, sv: ServerSide)
    requires ServerAll(plain, reqs, up, sv)
    ensures ServerAll(plain, reqs, up, sv.(s := Over))
  {
    PhaseHalf(plain, reqs, sv, sv.(s := Over));
  }

  /** The four bytes ReceiveFramed reads first are the request's header, or the
      plain length that stands for it. */
  lemma LentHead(plain: bool, reqs: seq<Request>, up: seq<Byte>, sv: ServerSide)
    requires ServerAll(plain, reqs, up, sv) && sv.s.Reading? && sv.s.have == 4
    ensures var head := FirstFour(up, sv.s.view.lent, sv.s.view.skip);
            && |head| == 4
            && Word32(head) == if plain || sv.lead.Some? then |reqs[0].frame| else Header(reqs[0])
    ensures sv.upAt == 4
  {
    var lent, skip := sv.s.view.lent, sv.s.view.skip;
    if sv.lead.Some? {
      LentWhole(up, lent, skip);
      WordRoundTrip(|reqs[0].frame|);
    } else {
      UpAt(plain, reqs, up, 0, 0, 4);
      SentHead(plain, reqs[0]);
      if skip == 1 {
        assert up[0] == up[0..4][0] == Sent(plain, reqs[0])[0..4][0] == lent[0];
      }
      LentAgain(up, lent, skip);
    }
  }

  lemma LentWhole(up: seq<Byte>, lent: seq<Byte>, skip: nat)
    requires |lent| == 4
    ensures FirstFour(up, lent, skip) == lent
  {
  }

  lemma LentAgain(up: seq<Byte>, lent: seq<Byte>, skip: nat)
    requires 4 <= |up| && skip == |lent| <= 4 && lent == up[..skip]
    ensures FirstFour(up, lent, skip) == up[0..4]
  {
    assert lent + up[skip..] == up;
  }

  /** A session request on a connection that is served once. */
  lemma AskedAll(reqs: seq<Request>, up: seq<Byte>, sv: ServerSide, s: Server)
    requires ServerAll(false, reqs, up, sv) && sv.s.Reading? && sv.upAt == 4 && sv.lead.None?
    requires s == Over || s == Admitting(|reqs[0].frame|, sv.s.view)
    ensures ServerAll(false, reqs, up, sv.(down := sv.down + Be32(UNSUPPORTED), lead := Some(UNSUPPORTED), s := s))
  {
    AskedHalf(reqs, sv, s);
    AskedInv(reqs, sv, s);
  }

  lemma AskedHalf(reqs: seq<Request>, sv: ServerSide, s: Server)
    requires ServerHalf(false, reqs, sv) && ServerInv(false, reqs, sv) && sv.s.Reading? && sv.lead.None?
    ensures ServerHalf(false, reqs, sv.(down := sv.down + Be32(UNSUPPORTED), lead := Some(UNSUPPORTED), s := s))
  {
    LeadHalf(reqs, sv, sv.(down := sv.down + Be32(UNSUPPORTED), lead := Some(UNSUPPORTED), s := s), UNSUPPORTED);
  }

  lemma AskedInv(reqs: seq<Request>, sv: ServerSide, s: Server)
    requires ServerInv(false, reqs, sv) && sv.s.Reading? && sv.upAt == 4 && sv.lead.None?
    requires s == Over || s == Admitting(|reqs[0].frame|, sv.s.view)
    ensures ServerInv(false, reqs, sv.(down := sv.down + Be32(UNSUPPORTED), lead := Some(UNSUPPORTED), s := s))
  {
    assert UpOff(reqs, 0) == 0;
  }

  /** A plain length, or one the listener has answered for. */
  lemma MeasuredAll(plain: bool, reqs: seq<Request>, up: seq<Byte>, sv: ServerSide, s: Server)
    requires ServerAll(plain, reqs, up, sv) && sv.s.Reading? && sv.upAt == 4
    requires s == Over || (s == Admitting(|reqs[0].frame|, sv.s.view) && (plain || sv.lead.Some?))
    ensures ServerAll(plain, reqs, up, sv.(s := s))
  {
    assert UpOff(reqs, 0) == 0;
    PhaseHalf(plain, reqs, sv, sv.(s := s));
  }

  /** A session request that is the closing marker, or whose answer is cut short, or
      that is answered. */
  lemma AskedLengthAll(reqs: seq<Request>, up: seq<Byte>, sv: ServerSide, limit: nat, cut: Option<nat>)
    requires ServerAll(false, reqs, up, sv) && sv.s.Reading? && sv.s.have == 4 && sv.lead.None?
    ensures ServerAll(false, reqs, up, ServerLength(sv, up, limit, cut))
  {
    LentHead(false, reqs, up, sv);
    var sv' := ServerLength(sv, up, limit, cut);
    RequestHeaderFields(|reqs[0].frame|, reqs[0].oneWay);
    if Header(reqs[0]) == CLOSING {
      MeasuredAll(false, reqs, up, sv, Over);
      assert sv' == sv.(s := Over);
    } else if cut.Some? {
      SendLastAll(false, reqs, up, sv, Control(UNSUPPORTED), Some(Min(cut.value, 3)));
      assert sv' == SendLast(sv, Control(UNSUPPORTED), Some(Min(cut.value, 3)));
    } else {
      AskedAll(reqs, up, sv, sv'.s);
      assert sv' == sv.(down := sv.down + Be32(UNSUPPORTED), lead := Some(UNSUPPORTED), s := sv'.s);
    }
  }

  lemma LengthAll(plain: bool, reqs: seq<Request>, up: seq<Byte>, sv: ServerSide, limit: nat, cut: Option<nat>)
    requires ServerAll(plain, reqs, up, sv) && sv.s.Reading? && sv.s.have == 4
    ensures ServerAll(plain, reqs, up, ServerLength(sv, up, limit, cut))
  {
    if plain || sv.lead.Some? {
      LentHead(plain, reqs, up, sv);
      var sv' := ServerLength(sv, up, limit, cut);
      MeasuredAll(plain, reqs, up, sv, sv'.s);
      assert sv' == sv.(s := sv'.s);
    } else {
      AskedLengthAll(reqs, up, sv, limit, cut);
    }
  }
}
