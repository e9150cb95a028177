/** The inductive invariant of one connection: it ties the read and write cursors
    of both ends to request and answer boundaries, in every mode. */
module LinkInvariant {
  import opened Options
  import opened Wire
  import opened SessionCalls
  import opened Links

  /** Where request k begins on the way up. */
  function UpOff(reqs: seq<Request>, k: nat): nat
    requires k <= |reqs|
  {
    if k == 0 then 0 else UpOff(reqs, k - 1) + 4 + |reqs[k - 1].frame|
  }

  /** The first k requests of a connection, end to end. */
  function Flat(plain: bool, reqs: seq<Request>, k: nat): (b: seq<Byte>)
    requires k <= |reqs|
    ensures |b| == UpOff(reqs, k)
    decreases k
  {
    if k == 0 then [] else Flat(plain, reqs, k - 1) + Sent(plain, reqs[k - 1])
  }

  /** The length of the first k complete answers. */
  function CatOff(ws: seq<Frame>, k: nat): nat
    requires k <= |ws|
  {
    if k == 0 then 0 else CatOff(ws, k - 1) + 4 + |ws[k - 1]|
  }

  /** The first k complete answers that keep a session, end to end. */
  function Cat(ws: seq<Frame>, k: nat): (b: seq<Byte>)
    requires k <= |ws|
    ensures |b| == CatOff(ws, k)
    decreases k
  {
    if k == 0 then [] else Cat(ws, k - 1) + Answer(ws[k - 1], true)
  }

  lemma {:induction false} FlatPush(plain: bool, reqs: seq<Request>, r: Request, k: nat)
    requires k <= |reqs|
    ensures Flat(plain, reqs + [r], k) == Flat(plain, reqs, k) && UpOff(reqs + [r], k) == UpOff(reqs, k)
    decreases k
  {
    if 0 < k {
      FlatPush(plain, reqs, r, k - 1);
    }
  }

  lemma {:induction false} CatPush(ws: seq<Frame>, w: Frame, k: nat)
    requires k <= |ws|
    ensures Cat(ws + [w], k) == Cat(ws, k) && CatOff(ws + [w], k) == CatOff(ws, k)
    decreases k
  {
    if 0 < k {
      CatPush(ws, w, k - 1);
    }
  }

  lemma {:induction false} FlatStarts(plain: bool, reqs: seq<Request>, k: nat, m: nat)
    requires k <= m <= |reqs|
    ensures Starts(Flat(plain, reqs, k), Flat(plain, reqs, m))
    decreases m
  {
    if k < m {
      FlatStarts(plain, reqs, k, m - 1);
      StartsConcat(Flat(plain, reqs, m - 1), Sent(plain, reqs[m - 1]));
      StartsTrans(Flat(plain, reqs, k), Flat(plain, reqs, m - 1), Flat(plain, reqs, m));
    }
  }

  lemma {:induction false} CatStarts(ws: seq<Frame>, k: nat, m: nat)
    requires k <= m <= |ws|
    ensures Starts(Cat(ws, k), Cat(ws, m))
    decreases m
  {
    if k < m {
      CatStarts(ws, k, m - 1);
      StartsConcat(Cat(ws, m - 1), Answer(ws[m - 1], true));
      StartsTrans(Cat(ws, k), Cat(ws, m - 1), Cat(ws, m));
    }
  }

  function LeadBytes(lead: Option<Word>): seq<Byte> {
    if lead.Some? then Be32(lead.value) else []
  }

  /** Where answer k begins on the way down. */
  function DownOff(lead: Option<Word>, wired: seq<Frame>, k: nat): nat
    requires k <= |wired|
  {
    |LeadBytes(lead)| + CatOff(wired, k)
  }

  function Base(lead: Option<Word>, wired: seq<Frame>): seq<Byte> {
    LeadBytes(lead) + Cat(wired, |wired|)
  }

  /** The wire carries the complete answers and a beginning of what follows. */
  predicate OnWire(down: seq<Byte>, lead: Option<Word>, wired: seq<Frame>, tail: Tail) {
    |Base(lead, wired)| <= |down| && Starts(down, Base(lead, wired) + TailBytes(tail))
  }

  /** The handler was given request k's frame and replied with body; a one-way
      call of a session is answered by its completion alone. */
  predicate Answers(reqs: seq<Request>, lead: Option<Word>, log: seq<Entry>, k: nat, body: seq<Byte>)
    requires k < |log| && k < |reqs|
  {
    if lead == Some(ACCEPT) && reqs[k].oneWay then body == []
    else log[k].frame.Some? && log[k].reply == Some(body)
  }

  /** A call's frame is its request's, and was read from the connection. */
  predicate EntryOk(plain: bool, reqs: seq<Request>, upAt: nat, lead: Option<Word>, e: Entry, k: nat)
    requires k < |reqs|
  {
    && (e.reply.Some? ==> e.frame.Some?)
    && (e.frame.Some? ==> e.frame.value == reqs[k].frame && UpOff(reqs, k + 1) <= upAt && (plain || lead.Some?))
  }

  ghost predicate LogInv(plain: bool, reqs: seq<Request>, upAt: nat, lead: Option<Word>, wired: seq<Frame>, log: seq<Entry>) {
    && 0 < |reqs|
    && |wired| <= |log| <= |wired| + 1 && |log| <= |reqs|
    && (lead.Some? ==> lead.value in {ACCEPT, DECLINE, UNSUPPORTED} && !plain)
    && (lead != Some(ACCEPT) ==> |reqs| == 1 && wired == [])
    && (forall k :: 0 <= k < |log| ==> EntryOk(plain, reqs, upAt, lead, log[k], k))
    && (forall k :: 0 <= k < |wired| ==> Answers(reqs, lead, log, k, wired[k]))
  }

  /** What is on the wire is the complete answers and part of the next one. */
  ghost predicate DownInv(reqs: seq<Request>, over: bool, down: seq<Byte>, lead: Option<Word>, wired: seq<Frame>, tail: Tail, log: seq<Entry>) {
    && OnWire(down, lead, wired, tail)
    && match tail
       case Nothing => true
       case Control(w) =>
         && over
         && (if lead == Some(ACCEPT) then w == CLOSING && |log| == |wired|
             else lead.None? && |down| < 4 && (0 < |log| ==> log[0].frame.None?))
       case Payload(body, keep) =>
         && |wired| < |log| <= |reqs|
         && (keep ==> lead == Some(ACCEPT) && |down| < |Base(lead, wired)| + 4 + |body|)
         && Answers(reqs, lead, log, |wired|, body)
       case Refused(_, _) => over && |wired| < |log| && log[|wired|].frame.None?
  }

  /** The client's mode: an exchange of a session, or one exchange alone. */
  predicate Mode(cl: ClientSide, lead: Option<Word>, wired: seq<Frame>, single: bool) {
    if single then |cl.reqs| == 1 && wired == [] && (if cl.plain then lead.None? else lead.Some? && lead != Some(ACCEPT))
    else !cl.plain && lead == Some(ACCEPT) && |cl.reqs| <= |wired| + 1
  }

  /** The answer to request k announces this length and this bit. */
  predicate Awaited(wired: seq<Frame>, tail: Tail, k: nat, length: nat, keep: bool) {
    if k < |wired| then keep && |wired[k]| == length
    else tail.Payload? && tail.keep == keep && |tail.body| == length
  }

  ghost predicate ClientInv(cl: ClientSide, lead: Option<Word>, wired: seq<Frame>, tail: Tail) {
    && 0 < |cl.reqs|
    && var k := |cl.reqs| - 1;
       var left := UpOff(cl.reqs, k + 1) - |cl.up|;
       match cl.c
       case Opening(n) => !cl.plain && k == 0 && n <= 4 && |cl.up| == 4 - n && cl.downAt == 0
       case AwaitAnswer(have) => !cl.plain && k == 0 && |cl.up| == 4 && have <= 4 && cl.downAt == have
       case Sending(n, single) =>
         n == left && n <= 4 + |cl.reqs[k].frame| && Mode(cl, lead, wired, single) && cl.downAt == DownOff(lead, wired, k)
       case AwaitHeader(have, single) =>
         && left == 0 && Mode(cl, lead, wired, single) && !(single && cl.reqs[k].oneWay)
         && have <= 4 && cl.downAt == DownOff(lead, wired, k) + have
       case AwaitBody(keep, length, have) =>
         && left == 0 && !cl.reqs[k].oneWay && (Mode(cl, lead, wired, false) || (Mode(cl, lead, wired, true) && !keep))
         && have <= length && cl.downAt == DownOff(lead, wired, k) + 4 + have && Awaited(wired, tail, k, length, keep)
       case AwaitEnd => left == 0 && Mode(cl, lead, wired, true) && cl.reqs[k].oneWay
       case Pooled =>
         left == 0 && !cl.plain && lead == Some(ACCEPT) && |wired| == |cl.reqs| && cl.downAt == DownOff(lead, wired, k + 1)
       case Gone => true
  }

  /** The handler works on the last call, with its request read up to `taken`. */
  predicate Serving(plain: bool, reqs: seq<Request>, sv: ServerSide, view: View, taken: nat) {
    var k := |sv.log| - 1;
    && 0 <= k < |reqs| && taken <= |reqs[k].frame|
    && sv.upAt == UpOff(reqs, k) + 4 + taken
    && match view
       case InCall(oneWay) => !plain && sv.lead == Some(ACCEPT) && oneWay == reqs[k].oneWay
       case Direct(_, _) => sv.lead != Some(ACCEPT)
  }

  /** A header being read is the beginning of the next request. */
  predicate HeaderPart(plain: bool, reqs: seq<Request>, sv: ServerSide, have: nat) {
    var k := |sv.log|;
    && !plain && sv.lead == Some(ACCEPT) && sv.tail.Nothing? && |sv.wired| == k && have <= 4
    && k <= |reqs| && sv.upAt == UpOff(reqs, k) + have
    && (0 < have ==> k < |reqs|)
  }

  /** What a connection served once hands out first is the request's length, with
      the flags of a session request only where the listener has not seen it. */
  predicate LentPart(plain: bool, reqs: seq<Request>, sv: ServerSide, have: nat, view: View)
    requires 0 < |reqs|
  {
    && view.Direct? && have <= 4
    && if sv.lead.Some? then sv.upAt == 4 == view.skip && view.lent == Be32(|reqs[0].frame|)
       else
         || (view.lent == [] && view.skip == 0 && sv.upAt == have)
         || (view.lent == [Sent(plain, reqs[0])[0]] && view.skip == 1 && sv.upAt == (if have == 0 then 1 else have))
  }

  ghost predicate ServerInv(plain: bool, reqs: seq<Request>, sv: ServerSide) {
    0 < |reqs| &&
    match sv.s
    case First(have) =>
      && sv.log == [] && sv.lead.None? && sv.tail.Nothing? && sv.wired == []
      && have < 4 && sv.upAt == have && (0 < have ==> 128 <= Sent(plain, reqs[0])[0])
    case Deciding(h) =>
      && sv.log == [] && sv.lead.None? && sv.tail.Nothing? && sv.wired == [] && !plain
      && sv.upAt == 4 && h == Header(reqs[0]) && h != CLOSING
    case Starting(h) =>
      && !plain && sv.lead == Some(ACCEPT) && sv.tail.Nothing? && |sv.wired| == |sv.log| < |reqs|
      && sv.upAt == UpOff(reqs, |sv.log|) + 4 && h == Header(reqs[|sv.log|])
    case Reading(have, view) =>
      && sv.log == [Entry(None, None)] && sv.wired == [] && sv.tail.Nothing? && sv.lead != Some(ACCEPT)
      && LentPart(plain, reqs, sv, have, view)
    case Admitting(length, view) =>
      && Serving(plain, reqs, sv, view, 0) && sv.tail.Nothing? && |sv.wired| == |sv.log| - 1
      && length == |reqs[|sv.log| - 1].frame| && sv.log[|sv.log| - 1] == Entry(None, None) && (plain || sv.lead.Some?)
    case Body(length, have, view) =>
      && Serving(plain, reqs, sv, view, have) && sv.tail.Nothing? && |sv.wired| == |sv.log| - 1
      && length == |reqs[|sv.log| - 1].frame| && sv.log[|sv.log| - 1] == Entry(None, None) && (plain || sv.lead.Some?)
    case Running(view) =>
      && 0 < |sv.log| <= |reqs| && Serving(plain, reqs, sv, view, |reqs[|sv.log| - 1].frame|)
      && sv.tail.Nothing? && |sv.wired| == |sv.log| - 1
      && sv.log[|sv.log| - 1].frame.Some? && sv.log[|sv.log| - 1].reply.None?
    case Replying(body, offered, r, view) =>
      && 0 < |sv.log| <= |reqs| && Serving(plain, reqs, sv, view, |reqs[|sv.log| - 1].frame|)
      && |sv.wired| == |sv.log| - 1 && ReplyInv(sv, body, offered, r, view)
    case Answered(continued, view) =>
      && 0 < |sv.log| <= |reqs| && Serving(plain, reqs, sv, view, |reqs[|sv.log| - 1].frame|)
      && (if continued then view.InCall? && sv.tail.Nothing? && |sv.wired| == |sv.log| else |sv.wired| == |sv.log| - 1)
    case Idle(have) => HeaderPart(plain, reqs, sv, have)
    case Late(have) => HeaderPart(plain, reqs, sv, have)
    case Over => true
  }

  /** A reply in progress is on the wire as far as it was offered. */
  ghost predicate ReplyInv(sv: ServerSide, body: Frame, offered: nat, r: Reply, view: View) {
    && sv.log != [] && sv.log[|sv.log| - 1].frame.Some? && sv.log[|sv.log| - 1].reply == Some(body)
    && offered < 4 + |body| && r.wire == sv.down && |r.out| <= 4
    && match view
       case InCall(oneWay) =>
         && !oneWay && Agrees(r, Base(sv.lead, sv.wired), (Be32(|body|) + body)[..offered], r.continued)
         && sv.tail == (if offered < 4 then Nothing else Payload(body, r.continued))
       case Direct(_, _) =>
         && sv.down == Base(sv.lead, sv.wired) + (Be32(|body|) + body)[..offered]
         && (sv.tail == Payload(body, false) || (offered == 0 && sv.tail.Nothing?))
  }

  /** The server's call k was not dispatched, and never will be. */
  predicate Void(cl: ClientSide, log: seq<Entry>, over: bool, k: nat)
    requires k < |cl.reqs|
  {
    && (k < |log| ==> log[k].frame.None?)
    && (over || (cl.c.Gone? && |cl.up| < UpOff(cl.reqs, k + 1)))
  }

  /** A reply is the reply of the handler that was given this request's frame; a
      request the client may repeat was not dispatched and never will be. */
  ghost predicate OutcomeOk(cl: ClientSide, log: seq<Entry>, over: bool, k: nat)
    requires k < |cl.outcomes| && k < |cl.reqs|
  {
    match cl.outcomes[k]
    case Replied(body) => k < |log| && log[k].frame.Some? && log[k].reply == Some(body) && !cl.reqs[k].oneWay
    case Submitted => cl.reqs[k].oneWay
    case Retry => Void(cl, log, over, k)
    case NoSession => cl.reqs[k].frame != [] || !cl.lossy ==> Void(cl, log, over, k)
    case Failed => true
  }

  ghost predicate OutcomeInv(cl: ClientSide, log: seq<Entry>, over: bool) {
    && |cl.outcomes| == (if cl.c.Pooled? || cl.c.Gone? then |cl.reqs| else |cl.reqs| - 1)
    && forall k :: 0 <= k < |cl.outcomes| ==> OutcomeOk(cl, log, over, k)
  }

  ghost predicate Inv(l: Link) {
    var cl, sv := l.cl, l.sv;
    && sv.upAt <= |cl.up| && cl.downAt <= |sv.down| && Starts(cl.up, Flat(cl.plain, cl.reqs, |cl.reqs|))
    && LogInv(cl.plain, cl.reqs, sv.upAt, sv.lead, sv.wired, sv.log)
    && DownInv(cl.reqs, sv.s.Over?, sv.down, sv.lead, sv.wired, sv.tail, sv.log)
    && ClientInv(cl, sv.lead, sv.wired, sv.tail)
    && ServerInv(cl.plain, cl.reqs, sv)
    && OutcomeInv(cl, sv.log, sv.s.Over?)
  }

  /** Bytes read where request k begins are bytes of that request. */
  lemma {:induction false} UpAt(plain: bool, reqs: seq<Request>, up: seq<Byte>, k: nat, a: nat, n: nat)
    requires Starts(up, Flat(plain, reqs, |reqs|)) && k < |reqs| && a + n <= 4 + |reqs[k].frame|
    requires UpOff(reqs, k) + a + n <= |up|
    ensures var at := UpOff(reqs, k) + a; up[at..at + n] == Sent(plain, reqs[k])[a..a + n]
  {
    FlatStarts(plain, reqs, k + 1, |reqs|);
    SliceWithin(up, [], Flat(plain, reqs, |reqs|), [], Flat(plain, reqs, k), Sent(plain, reqs[k]), a, a + n);
  }

  /** Bytes read where a complete answer begins are bytes of that answer. */
  lemma {:induction false} WiredAt(down: seq<Byte>, front: seq<Byte>, wired: seq<Frame>, rest: seq<Byte>, k: nat, a: nat, n: nat)
    requires Starts(down, front + Cat(wired, |wired|) + rest) && k < |wired| && a + n <= 4 + |wired[k]|
    requires |front| + CatOff(wired, k) + a + n <= |down|
    ensures var at := |front| + CatOff(wired, k) + a; down[at..at + n] == Answer(wired[k], true)[a..a + n]
  {
    CatStarts(wired, k + 1, |wired|);
    assert Cat(wired, k + 1) == Cat(wired, k) + Answer(wired[k], true);
    SliceWithin(down, front, Cat(wired, |wired|), rest, Cat(wired, k), Answer(wired[k], true), a, a + n);
  }

  lemma DialInv(r: Request, plain: bool, wrapped: bool)
    ensures Inv(Dial(r, plain, wrapped))
  {
    assert UpOff([r], 1) == UpOff([r], 0) + 4 + |r.frame|;
  }
}
