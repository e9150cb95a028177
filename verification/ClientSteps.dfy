/** Every step of the client keeps the connection's invariant. */
module ClientSteps {
  import opened Options
  import opened Wire
  import opened SessionCalls
  import opened Links
  import opened LinkInvariant

  predicate UpShape(cl: ClientSide) {
    Starts(cl.up, Flat(cl.plain, cl.reqs, |cl.reqs|))
  }

  /** Writing on extends what was written by the next bytes of the request. */
  lemma PieceExtends(cl: ClientSide, left: nat, n: nat)
    requires cl.reqs != [] && n <= left <= 4 + |Current(cl).frame|
    requires UpShape(cl) && |cl.up| + left == UpOff(cl.reqs, |cl.reqs|)
    ensures Starts(cl.up + Piece(cl, left, n), Flat(cl.plain, cl.reqs, |cl.reqs|))
  {
    var b := Sent(cl.plain, Current(cl));
    SliceRight(Flat(cl.plain, cl.reqs, |cl.reqs| - 1), b, |b| - left, |b| - left + n);
    StartsGrows(cl.up, Flat(cl.plain, cl.reqs, |cl.reqs|), n);
  }

  lemma WriteInv(cl: ClientSide, lead: Option<Word>, wired: seq<Frame>, tail: Tail, n: nat)
    requires ClientInv(cl, lead, wired, tail) && UpShape(cl)
    ensures ClientInv(ClientWrite(cl, n), lead, wired, tail) && UpShape(ClientWrite(cl, n))
  {
    if cl.c.Opening? && n <= cl.c.left {
      OpeningInv(cl, lead, wired, tail, n);
    } else if cl.c.Sending? && n <= cl.c.left {
      SendingInv(cl, lead, wired, tail, n);
    }
  }

  lemma OpeningInv(cl: ClientSide, lead: Option<Word>, wired: seq<Frame>, tail: Tail, n: nat)
    requires ClientInv(cl, lead, wired, tail) && UpShape(cl) && cl.c.Opening? && n <= cl.c.left
    ensures ClientInv(ClientWrite(cl, n), lead, wired, tail) && UpShape(ClientWrite(cl, n))
  {
    assert UpOff(cl.reqs, 1) == UpOff(cl.reqs, 0) + 4 + |cl.reqs[0].frame|;
    PieceExtends(cl, cl.c.left + |Current(cl).frame|, n);
  }

  lemma SendingInv(cl: ClientSide, lead: Option<Word>, wired: seq<Frame>, tail: Tail, n: nat)
    requires ClientInv(cl, lead, wired, tail) && UpShape(cl) && cl.c.Sending? && n <= cl.c.left
    ensures ClientInv(ClientWrite(cl, n), lead, wired, tail) && UpShape(ClientWrite(cl, n))
  {
    PieceExtends(cl, cl.c.left, n);
  }

  lemma ReadInv(cl: ClientSide, down: seq<Byte>, lead: Option<Word>, wired: seq<Frame>, tail: Tail, n: nat)
    requires ClientInv(cl, lead, wired, tail)
    ensures ClientInv(ClientRead(cl, down, n), lead, wired, tail)
  {
  }

  lemma HeadOf(w: Word, rest: seq<Byte>)
    ensures Word32((Be32(w) + rest)[0..4]) == w
  {
    assert (Be32(w) + rest)[0..4] == Be32(w);
    WordRoundTrip(w);
  }

  lemma HeadOfTail(t: Tail)
    requires 4 <= |TailBytes(t)|
    ensures Word32(TailBytes(t)[0..4]) ==
            match t case Nothing => 0 case Control(v) => v case Payload(body, keep) => ReplyHeader(|body|, keep) case Refused(_, _) => REFUSAL
  {
    match t
    case Nothing =>
    case Control(v) =>
      HeadOf(v, []);
      assert Be32(v) + [] == Be32(v);
    case Payload(body, keep) => HeadOf(ReplyHeader(|body|, keep), body);
    case Refused(a, b) => HeadOf(REFUSAL, [a, b]);
  }

  /** The word that stands where answer k begins. */
  function WordAt(down: seq<Byte>, lead: Option<Word>, wired: seq<Frame>, k: nat): Word
    requires k <= |wired| && DownOff(lead, wired, k) + 4 <= |down|
  {
    var at := DownOff(lead, wired, k);
    Word32(down[at..at + 4])
  }

  lemma WiredHead(down: seq<Byte>, lead: Option<Word>, wired: seq<Frame>, tail: Tail, k: nat)
    requires OnWire(down, lead, wired, tail) && k < |wired| && DownOff(lead, wired, k) + 4 <= |down|
    ensures WordAt(down, lead, wired, k) == ReplyHeader(|wired[k]|, true)
  {
    WiredAt(down, LeadBytes(lead), wired, TailBytes(tail), k, 0, 4);
    HeadOf(ReplyHeader(|wired[k]|, true), wired[k]);
  }

  lemma TailHead(down: seq<Byte>, base: seq<Byte>, tail: Tail)
    requires Starts(down, base + TailBytes(tail)) && |base| + 4 <= |down|
    ensures var w := Word32(down[|base|..|base| + 4]);
            match tail
            case Nothing => false
            case Control(v) => w == v
            case Payload(body, keep) => w == ReplyHeader(|body|, keep)
            case Refused(_, _) => w == REFUSAL
  {
    SliceBehind(down, base, TailBytes(tail), 0, 4);
    HeadOfTail(tail);
  }

  /** What the word that begins answer k can be, once it has arrived. */
  lemma HeaderCases(down: seq<Byte>, lead: Option<Word>, wired: seq<Frame>, tail: Tail, k: nat)
    requires OnWire(down, lead, wired, tail)
    requires k <= |wired| && DownOff(lead, wired, k) + 4 <= |down|
    ensures var w := WordAt(down, lead, wired, k);
            if k < |wired| then w == ReplyHeader(|wired[k]|, true)
            else match tail
                 case Nothing => false
                 case Control(v) => w == v
                 case Payload(body, keep) => w == ReplyHeader(|body|, keep)
                 case Refused(_, _) => w == REFUSAL
  {
    if k < |wired| {
      WiredHead(down, lead, wired, tail, k);
    } else {
      TailHead(down, Base(lead, wired), tail);
    }
  }

  lemma AnswerBody(body: seq<Byte>, keep: bool)
    requires |body| <= LENGTH_MASK
    ensures Answer(body, keep)[4..4 + |body|] == body
  {
    SliceRight(Be32(ReplyHeader(|body|, keep)), body, 0, |body|);
  }

  lemma WiredBody(down: seq<Byte>, lead: Option<Word>, wired: seq<Frame>, tail: Tail, k: nat)
    requires OnWire(down, lead, wired, tail) && k < |wired| && DownOff(lead, wired, k) + 4 + |wired[k]| <= |down|
    ensures var at := DownOff(lead, wired, k) + 4; down[at..at + |wired[k]|] == wired[k]
  {
    WiredAt(down, LeadBytes(lead), wired, TailBytes(tail), k, 4, |wired[k]|);
    AnswerBody(wired[k], true);
  }

  lemma TailBody(down: seq<Byte>, base: seq<Byte>, body: Frame, keep: bool)
    requires Starts(down, base + Answer(body, keep)) && |base| + 4 + |body| <= |down|
    ensures var at := |base| + 4; down[at..at + |body|] == body
  {
    SliceBehind(down, base, Answer(body, keep), 4, 4 + |body|);
    AnswerBody(body, keep);
  }

  /** The body read where answer k was announced is that answer's body. */
  lemma BodyIs(down: seq<Byte>, lead: Option<Word>, wired: seq<Frame>, tail: Tail, k: nat, length: nat, keep: bool)
    requires OnWire(down, lead, wired, tail)
    requires k <= |wired| && Awaited(wired, tail, k, length, keep)
    requires DownOff(lead, wired, k) + 4 + length <= |down|
    ensures var at := DownOff(lead, wired, k) + 4;
            down[at..at + length] == if k < |wired| then wired[k] else tail.body
  {
    if k < |wired| {
      WiredBody(down, lead, wired, tail, k);
    } else {
      TailBody(down, Base(lead, wired), tail.body, keep);
    }
  }

  /** One more outcome leaves the earlier ones as they are. */
  lemma FinishInv(cl: ClientSide, o: Outcome, c: Client, log: seq<Entry>, over: bool)
    requires 0 < |cl.reqs| && OutcomeInv(cl, log, over) && !cl.c.Pooled? && !cl.c.Gone? && (c.Pooled? || c.Gone?)
    requires OutcomeOk(Finish(cl, o, c), log, over, |cl.outcomes|)
    ensures OutcomeInv(Finish(cl, o, c), log, over)
  {
    var cl' := Finish(cl, o, c);
    forall k | 0 <= k < |cl'.outcomes|
      ensures OutcomeOk(cl', log, over, k)
    {
      if k < |cl.outcomes| {
        assert OutcomeOk(cl, log, over, k);
      }
    }
  }

  /** Moving on within an exchange settles nothing. */
  lemma MoveInv(cl: ClientSide, c: Client, log: seq<Entry>, over: bool)
    requires 0 < |cl.reqs| && OutcomeInv(cl, log, over) && !cl.c.Pooled? && !cl.c.Gone? && !c.Pooled? && !c.Gone?
    ensures OutcomeInv(cl.(c := c), log, over)
  {
    forall k | 0 <= k < |cl.outcomes|
      ensures OutcomeOk(cl.(c := c), log, over, k)
    {
      assert OutcomeOk(cl, log, over, k);
    }
  }

  /** The server's half of the invariant, as the client's steps leave it. */
  ghost predicate ServerHalf(plain: bool, reqs: seq<Request>, sv: ServerSide) {
    && LogInv(plain, reqs, sv.upAt, sv.lead, sv.wired, sv.log)
    && DownInv(reqs, sv.s.Over?, sv.down, sv.lead, sv.wired, sv.tail, sv.log)
  }

  /** The answer to a session request is the server's, or a refusal. */
  lemma AnswerWord(reqs: seq<Request>, sv: ServerSide)
    requires ServerHalf(false, reqs, sv) && 4 <= |sv.down|
    ensures Word32(sv.down[..4]) == if sv.lead.Some? then sv.lead.value else REFUSAL
  {
    if sv.lead.Some? {
      var base := Base(sv.lead, sv.wired);
      StartsSlice(sv.down, base + TailBytes(sv.tail), 0, 4);
      assert (base + TailBytes(sv.tail))[0..4] == Be32(sv.lead.value);
      WordRoundTrip(sv.lead.value);
    } else {
      assert 0 < |sv.log| ==> EntryOk(false, reqs, sv.upAt, sv.lead, sv.log[0], 0);
      HeaderCases(sv.down, sv.lead, sv.wired, sv.tail, 0);
    }
  }

  lemma DecideAnswerInv(cl: ClientSide, sv: ServerSide)
    requires ServerHalf(false, cl.reqs, sv) && ClientInv(cl, sv.lead, sv.wired, sv.tail)
    requires OutcomeInv(cl, sv.log, sv.s.Over?)
    requires cl.c == AwaitAnswer(4) && cl.downAt <= |sv.down|
    ensures var cl' := DecideAnswer(cl, Word32(Gathered(sv.down, cl.downAt, 4)));
            ClientInv(cl', sv.lead, sv.wired, sv.tail) && OutcomeInv(cl', sv.log, sv.s.Over?)
  {
    AnswerWord(cl.reqs, sv);
    assert Gathered(sv.down, cl.downAt, 4) == sv.down[..4];
    if sv.lead.None? {
      FinishInv(cl, Failed, Gone, sv.log, sv.s.Over?);
    } else {
      AnswerTaken(cl, sv.lead, sv.wired, sv.tail, sv.log, sv.s.Over?);
    }
  }

  /** The client's side of an answer that is no refusal. */
  lemma AnswerTaken(cl: ClientSide, lead: Option<Word>, wired: seq<Frame>, tail: Tail, log: seq<Entry>, over: bool)
    requires ClientInv(cl, lead, wired, tail) && OutcomeInv(cl, log, over) && cl.c == AwaitAnswer(4)
    requires lead.Some? && lead.value in {ACCEPT, DECLINE, UNSUPPORTED} && (lead != Some(ACCEPT) ==> wired == [])
    ensures var cl' := DecideAnswer(cl, lead.value); ClientInv(cl', lead, wired, tail) && OutcomeInv(cl', log, over)
  {
    assert UpOff(cl.reqs, 1) == UpOff(cl.reqs, 0) + 4 + |cl.reqs[0].frame|;
    MoveInv(cl, AfterSending(cl, |Current(cl).frame|, lead.value != ACCEPT), log, over);
  }

  /** The header of an answer on a session, as it must be read: the marker tells
      the truth, and anything but it and a refusal announces the handler's answer. */
  lemma SessionHeader(reqs: seq<Request>, sv: ServerSide, k: nat)
    requires DownInv(reqs, sv.s.Over?, sv.down, sv.lead, sv.wired, sv.tail, sv.log)
    requires sv.lead == Some(ACCEPT) && k <= |sv.wired| && DownOff(sv.lead, sv.wired, k) + 4 <= |sv.down|
    ensures var w := WordAt(sv.down, sv.lead, sv.wired, k);
            && (w == CLOSING ==> sv.s.Over? && k == |sv.log|)
            && (w != CLOSING && w != REFUSAL ==> !HasOneWay(w) && Awaited(sv.wired, sv.tail, k, LengthOf(w), HasSession(w)))
  {
    HeaderCases(sv.down, sv.lead, sv.wired, sv.tail, k);
    if k < |sv.wired| {
      ReplyHeaderFields(|sv.wired[k]|, true);
    } else if sv.tail.Payload? {
      ReplyHeaderFields(|sv.tail.body|, sv.tail.keep);
    }
  }

  /** An answer that keeps the session and was read to its end is complete. */
  lemma KeepIsComplete(reqs: seq<Request>, sv: ServerSide, k: nat, length: nat)
    requires DownInv(reqs, sv.s.Over?, sv.down, sv.lead, sv.wired, sv.tail, sv.log)
    requires k <= |sv.wired| && Awaited(sv.wired, sv.tail, k, length, true)
    requires DownOff(sv.lead, sv.wired, k) + 4 + length <= |sv.down|
    ensures k < |sv.wired|
  {
  }

  /** The exchange is done. The connection goes to the pool only with the answer
      complete, and then with the client's cursor at a boundary. */
  lemma DoneInv(cl: ClientSide, o: Outcome, keep: bool, lead: Option<Word>, wired: seq<Frame>, tail: Tail, log: seq<Entry>, over: bool)
    requires ClientInv(cl, lead, wired, tail) && OutcomeInv(cl, log, over) && (cl.c.AwaitHeader? || cl.c.AwaitBody?)
    requires var k := |cl.reqs| - 1;
             keep ==> !cl.plain && lead == Some(ACCEPT) && |wired| == k + 1 && cl.downAt == DownOff(lead, wired, k) + 4 + |wired[k]|
    requires var k := |cl.reqs| - 1;
             || (o == Submitted && Current(cl).oneWay)
             || (o.Replied? && !Current(cl).oneWay && k < |log| && log[k].frame.Some? && log[k].reply == Some(o.body))
    ensures var cl' := Finish(cl, o, if keep then Pooled else Gone);
            ClientInv(cl', lead, wired, tail) && OutcomeInv(cl', log, over)
  {
    FinishInv(cl, o, if keep then Pooled else Gone, log, over);
  }

  lemma DecideHeaderInv(cl: ClientSide, sv: ServerSide, limit: nat)
    requires ServerHalf(cl.plain, cl.reqs, sv) && ClientInv(cl, sv.lead, sv.wired, sv.tail)
    requires OutcomeInv(cl, sv.log, sv.s.Over?)
    requires cl.c == AwaitHeader(4, false) && cl.downAt <= |sv.down|
    ensures var cl' := DecideHeader(cl, Word32(Gathered(sv.down, cl.downAt, 4)), false, limit);
            ClientInv(cl', sv.lead, sv.wired, sv.tail) && OutcomeInv(cl', sv.log, sv.s.Over?)
  {
    var k := |cl.reqs| - 1;
    HeaderAt(cl, sv.down, sv.lead, sv.wired, sv.tail);
    var w := WordAt(sv.down, sv.lead, sv.wired, k);
    SessionHeader(cl.reqs, sv, k);
    if w != CLOSING && w != REFUSAL && LengthOf(w) == 0 && HasSession(w) {
      KeepIsComplete(cl.reqs, sv, k, 0);
    }
    HeaderRead(cl, w, limit, sv.lead, sv.wired, sv.tail, sv.log, sv.s.Over?);
  }

  /** The four bytes a waiting client gathered begin the answer to its last request. */
  lemma HeaderAt(cl: ClientSide, down: seq<Byte>, lead: Option<Word>, wired: seq<Frame>, tail: Tail)
    requires ClientInv(cl, lead, wired, tail) && cl.c == AwaitHeader(4, false) && cl.downAt <= |down|
    ensures var k := |cl.reqs| - 1;
            && 0 <= k <= |wired| && lead == Some(ACCEPT) && cl.downAt == DownOff(lead, wired, k) + 4
            && Word32(Gathered(down, cl.downAt, 4)) == WordAt(down, lead, wired, k)
  {
  }

  /** The client's side of that decision. */
  lemma HeaderRead(cl: ClientSide, w: Word, limit: nat, lead: Option<Word>, wired: seq<Frame>, tail: Tail, log: seq<Entry>, over: bool)
    requires ClientInv(cl, lead, wired, tail) && OutcomeInv(cl, log, over)
    requires cl.c == AwaitHeader(4, false) && |wired| <= |cl.reqs|
    requires var k := |cl.reqs| - 1;
             && (w == CLOSING ==> over && k == |log|)
             && (w != CLOSING && w != REFUSAL ==> !HasOneWay(w) && Awaited(wired, tail, k, LengthOf(w), HasSession(w)))
             && (Current(cl).oneWay && w != CLOSING && w != REFUSAL && LengthOf(w) == 0 && HasSession(w) ==> k < |wired|)
    ensures var cl' := DecideHeader(cl, w, false, limit);
            ClientInv(cl', lead, wired, tail) && OutcomeInv(cl', log, over)
  {
    if w == CLOSING {
      FinishInv(cl, Retry, Gone, log, over);
    } else if w == REFUSAL || (if Current(cl).oneWay then LengthOf(w) != 0 else Min(limit, LENGTH_MASK) < LengthOf(w)) {
      FinishInv(cl, Failed, Gone, log, over);
    } else if Current(cl).oneWay {
      DoneInv(cl, Submitted, HasSession(w), lead, wired, tail, log, over);
    } else {
      MoveInv(cl, AwaitBody(HasSession(w), LengthOf(w), 0), log, over);
    }
  }

  lemma DecideSingleInv(cl: ClientSide, sv: ServerSide, limit: nat)
    requires ServerHalf(cl.plain, cl.reqs, sv) && ClientInv(cl, sv.lead, sv.wired, sv.tail)
    requires OutcomeInv(cl, sv.log, sv.s.Over?)
    requires cl.c == AwaitHeader(4, true) && cl.downAt <= |sv.down|
    ensures var cl' := DecideHeader(cl, Word32(Gathered(sv.down, cl.downAt, 4)), true, limit);
            ClientInv(cl', sv.lead, sv.wired, sv.tail) && OutcomeInv(cl', sv.log, sv.s.Over?)
  {
    SingleAt(cl, sv.down, sv.lead, sv.wired, sv.tail);
    SingleHeader(cl.plain, cl.reqs, sv);
    SingleRead(cl, WordAt(sv.down, sv.lead, sv.wired, 0), limit, sv.lead, sv.wired, sv.tail, sv.log, sv.s.Over?);
  }

  /** The four bytes a client without a session gathered begin the only answer. */
  lemma SingleAt(cl: ClientSide, down: seq<Byte>, lead: Option<Word>, wired: seq<Frame>, tail: Tail)
    requires ClientInv(cl, lead, wired, tail) && cl.c == AwaitHeader(4, true) && cl.downAt <= |down|
    ensures lead != Some(ACCEPT) && cl.downAt == DownOff(lead, wired, 0) + 4
    ensures Word32(Gathered(down, cl.downAt, 4)) == WordAt(down, lead, wired, 0)
  {
  }

  /** That word is a refusal or the length of the reply that follows. */
  lemma SingleHeader(plain: bool, reqs: seq<Request>, sv: ServerSide)
    requires ServerHalf(plain, reqs, sv) && sv.lead != Some(ACCEPT) && DownOff(sv.lead, sv.wired, 0) + 4 <= |sv.down|
    ensures var w := WordAt(sv.down, sv.lead, sv.wired, 0); w != REFUSAL ==> Awaited(sv.wired, sv.tail, 0, w, false)
  {
    HeaderCases(sv.down, sv.lead, sv.wired, sv.tail, 0);
  }

  /** The client's side of that decision. */
  lemma SingleRead(cl: ClientSide, w: Word, limit: nat, lead: Option<Word>, wired: seq<Frame>, tail: Tail, log: seq<Entry>, over: bool)
    requires ClientInv(cl, lead, wired, tail) && OutcomeInv(cl, log, over) && cl.c == AwaitHeader(4, true)
    requires w != REFUSAL ==> Awaited(wired, tail, 0, w, false)
    ensures var cl' := DecideHeader(cl, w, true, limit);
            ClientInv(cl', lead, wired, tail) && OutcomeInv(cl', log, over)
  {
    if w == REFUSAL || Min(limit, LENGTH_MASK) < w {
      FinishInv(cl, Failed, Gone, log, over);
    } else {
      MoveInv(cl, AwaitBody(false, w, 0), log, over);
    }
  }

  lemma DecideWordInv(cl: ClientSide, sv: ServerSide, limit: nat)
    requires ServerHalf(cl.plain, cl.reqs, sv) && ClientInv(cl, sv.lead, sv.wired, sv.tail)
    requires OutcomeInv(cl, sv.log, sv.s.Over?)
    requires cl.c.AwaitHeader? && cl.c.have == 4 && cl.downAt <= |sv.down|
    ensures var cl' := DecideHeader(cl, Word32(Gathered(sv.down, cl.downAt, 4)), cl.c.single, limit);
            ClientInv(cl', sv.lead, sv.wired, sv.tail) && OutcomeInv(cl', sv.log, sv.s.Over?)
  {
    if cl.c.single {
      DecideSingleInv(cl, sv, limit);
    } else {
      DecideHeaderInv(cl, sv, limit);
    }
  }

  /** A reply the client returns is the reply of the handler that was given this
      request's frame. */
  lemma ReplyIsHandlers(plain: bool, reqs: seq<Request>, sv: ServerSide, k: nat, length: nat, keep: bool)
    requires ServerHalf(plain, reqs, sv)
    requires k <= |sv.wired| && k < |reqs| && !reqs[k].oneWay && Awaited(sv.wired, sv.tail, k, length, keep)
    requires DownOff(sv.lead, sv.wired, k) + 4 + length <= |sv.down|
    ensures k < |sv.log| && sv.log[k].frame.Some?
    ensures sv.log[k].reply == Some(Gathered(sv.down, DownOff(sv.lead, sv.wired, k) + 4 + length, length))
  {
    BodyIs(sv.down, sv.lead, sv.wired, sv.tail, k, length, keep);
    if k < |sv.wired| {
      assert Answers(reqs, sv.lead, sv.log, k, sv.wired[k]);
    }
  }

  lemma DecideBodyInv(cl: ClientSide, sv: ServerSide)
    requires ServerHalf(cl.plain, cl.reqs, sv) && ClientInv(cl, sv.lead, sv.wired, sv.tail)
    requires OutcomeInv(cl, sv.log, sv.s.Over?)
    requires cl.c.AwaitBody? && cl.c.have == cl.c.length && cl.downAt <= |sv.down|
    ensures var cl' := Finish(cl, Replied(Gathered(sv.down, cl.downAt, cl.c.length)), if cl.c.keep then Pooled else Gone);
            ClientInv(cl', sv.lead, sv.wired, sv.tail) && OutcomeInv(cl', sv.log, sv.s.Over?)
  {
    BodyThere(cl, sv);
    BodyRead(cl, Gathered(sv.down, cl.downAt, cl.c.length), sv.lead, sv.wired, sv.tail, sv.log, sv.s.Over?);
  }

  /** The body that was read is the handler's reply. */
  lemma BodyThere(cl: ClientSide, sv: ServerSide)
    requires ServerHalf(cl.plain, cl.reqs, sv) && ClientInv(cl, sv.lead, sv.wired, sv.tail)
    requires cl.c.AwaitBody? && cl.c.have == cl.c.length && cl.downAt <= |sv.down|
    ensures var k := |cl.reqs| - 1;
            && k < |sv.log| && sv.log[k].frame.Some? && sv.log[k].reply == Some(Gathered(sv.down, cl.downAt, cl.c.length))
            && (cl.c.keep ==> k < |sv.wired| <= |cl.reqs|)
  {
    var k := |cl.reqs| - 1;
    ReplyIsHandlers(cl.plain, cl.reqs, sv, k, cl.c.length, cl.c.keep);
    if cl.c.keep {
      KeepIsComplete(cl.reqs, sv, k, cl.c.length);
    }
  }

  /** The client's side of that. */
  lemma BodyRead(cl: ClientSide, body: Frame, lead: Option<Word>, wired: seq<Frame>, tail: Tail, log: seq<Entry>, over: bool)
    requires ClientInv(cl, lead, wired, tail) && OutcomeInv(cl, log, over) && cl.c.AwaitBody? && cl.c.have == cl.c.length
    requires var k := |cl.reqs| - 1;
             k < |log| && log[k].frame.Some? && log[k].reply == Some(body) && (cl.c.keep ==> k < |wired| <= |cl.reqs|)
    ensures var cl' := Finish(cl, Replied(body), if cl.c.keep then Pooled else Gone);
            ClientInv(cl', lead, wired, tail) && OutcomeInv(cl', log, over)
  {
    DoneInv(cl, Replied(body), cl.c.keep, lead, wired, tail, log, over);
  }

  /** An unanswered session request may be repeated: if its frame is not empty
      its body was never sent, and at a clean end the server never answered. */
  lemma LoseInv(cl: ClientSide, sv: ServerSide, eof: bool)
    requires ServerHalf(cl.plain, cl.reqs, sv) && ClientInv(cl, sv.lead, sv.wired, sv.tail)
    requires OutcomeInv(cl, sv.log, sv.s.Over?)
    requires cl.c == AwaitAnswer(0) && (eof ==> sv.s.Over? && cl.downAt == |sv.down|) && sv.upAt <= |cl.up|
    ensures var cl' := Finish(cl.(lossy := cl.lossy || !eof), NoSession, Gone);
            ClientInv(cl', sv.lead, sv.wired, sv.tail) && OutcomeInv(cl', sv.log, sv.s.Over?)
  {
    var cl1 := cl.(lossy := cl.lossy || !eof);
    assert cl.outcomes == [] && OutcomeInv(cl1, sv.log, sv.s.Over?);
    assert UpOff(cl.reqs, 1) == UpOff(cl.reqs, 0) + 4 + |cl.reqs[0].frame|;
    if 0 < |sv.log| {
      assert EntryOk(cl.plain, cl.reqs, sv.upAt, sv.lead, sv.log[0], 0);
    }
    FinishInv(cl1, NoSession, Gone, sv.log, sv.s.Over?);
  }

  /** A pooled connection takes a further request: the server stands between
      calls, or its last answer is out and its call about to close. */
  lemma ReuseServerInv(reqs: seq<Request>, r: Request, sv: ServerSide)
    requires ServerInv(false, reqs, sv) && |sv.wired| == |reqs| == |sv.log| && sv.lead == Some(ACCEPT)
    ensures ServerInv(false, reqs + [r], sv)
  {
    FlatPush(false, reqs, r, |reqs|);
    FlatPush(false, reqs, r, |reqs| - 1);
  }

  lemma ReuseLogInv(reqs: seq<Request>, r: Request, sv: ServerSide)
    requires ServerHalf(false, reqs, sv) && |sv.wired| == |reqs| && sv.lead == Some(ACCEPT)
    ensures ServerHalf(false, reqs + [r], sv)
  {
    var reqs' := reqs + [r];
    forall k | 0 <= k < |sv.log|
      ensures EntryOk(false, reqs', sv.upAt, sv.lead, sv.log[k], k)
    {
      assert EntryOk(false, reqs, sv.upAt, sv.lead, sv.log[k], k);
      FlatPush(false, reqs, r, k + 1);
    }
    forall k | 0 <= k < |sv.wired|
      ensures Answers(reqs', sv.lead, sv.log, k, sv.wired[k])
    {
      assert Answers(reqs, sv.lead, sv.log, k, sv.wired[k]);
    }
  }

  lemma ReuseClientInv(cl: ClientSide, r: Request, lead: Option<Word>, wired: seq<Frame>, tail: Tail, log: seq<Entry>, over: bool)
    requires ClientInv(cl, lead, wired, tail) && UpShape(cl) && OutcomeInv(cl, log, over) && cl.c.Pooled?
    ensures var cl' := cl.(reqs := cl.reqs + [r], c := Sending(4 + |r.frame|, false));
            ClientInv(cl', lead, wired, tail) && UpShape(cl') && OutcomeInv(cl', log, over)
  {
    var cl' := cl.(reqs := cl.reqs + [r], c := Sending(4 + |r.frame|, false));
    FlatPush(cl.plain, cl.reqs, r, |cl.reqs|);
    StartsConcat(Flat(cl.plain, cl'.reqs, |cl.reqs|), Sent(cl.plain, r));
    StartsTrans(cl.up, Flat(cl.plain, cl.reqs, |cl.reqs|), Flat(cl.plain, cl'.reqs, |cl'.reqs|));
    forall k | 0 <= k < |cl'.outcomes|
      ensures OutcomeOk(cl', log, over, k)
    {
      assert OutcomeOk(cl, log, over, k);
    }
  }

  /** Giving up, or the end of a one-way exchange, leaves the rest as it is. */
  lemma GiveUpInv(cl: ClientSide, o: Outcome, lead: Option<Word>, wired: seq<Frame>, tail: Tail, log: seq<Entry>, over: bool)
    requires ClientInv(cl, lead, wired, tail) && OutcomeInv(cl, log, over) && !cl.c.Pooled? && !cl.c.Gone?
    requires o == Failed || (o == Submitted && Current(cl).oneWay)
    ensures ClientInv(Finish(cl, o, Gone), lead, wired, tail) && OutcomeInv(Finish(cl, o, Gone), log, over)
  {
    FinishInv(cl, o, Gone, log, over);
  }

  lemma DiscardInv(cl: ClientSide, lead: Option<Word>, wired: seq<Frame>, tail: Tail, log: seq<Entry>, over: bool)
    requires ClientInv(cl, lead, wired, tail) && OutcomeInv(cl, log, over) && cl.c.Pooled?
    ensures ClientInv(cl.(c := Gone), lead, wired, tail) && OutcomeInv(cl.(c := Gone), log, over)
  {
    var cl' := cl.(c := Gone);
    forall k | 0 <= k < |cl'.outcomes|
      ensures OutcomeOk(cl', log, over, k)
    {
      assert OutcomeOk(cl, log, over, k);
    }
  }

  lemma WriteOutcomes(cl: ClientSide, n: nat, log: seq<Entry>, over: bool)
    requires 0 < |cl.reqs| && OutcomeInv(cl, log, over)
    ensures OutcomeInv(ClientWrite(cl, n), log, over)
  {
    var cl' := ClientWrite(cl, n);
    forall k | 0 <= k < |cl'.outcomes|
      ensures OutcomeOk(cl', log, over, k)
    {
      assert OutcomeOk(cl, log, over, k);
    }
  }

  lemma ReadOutcomes(cl: ClientSide, down: seq<Byte>, n: nat, log: seq<Entry>, over: bool)
    requires 0 < |cl.reqs| && OutcomeInv(cl, log, over)
    ensures OutcomeInv(ClientRead(cl, down, n), log, over)
  {
    var cl' := ClientRead(cl, down, n);
    forall k | 0 <= k < |cl'.outcomes|
      ensures OutcomeOk(cl', log, over, k)
    {
      assert OutcomeOk(cl, log, over, k);
    }
  }

  lemma DecideInv(cl: ClientSide, sv: ServerSide, limit: nat)
    requires ServerHalf(cl.plain, cl.reqs, sv) && ClientInv(cl, sv.lead, sv.wired, sv.tail)
    requires OutcomeInv(cl, sv.log, sv.s.Over?)
    requires cl.downAt <= |sv.down|
    ensures var cl' := ClientDecide(cl, sv.down, limit);
            ClientInv(cl', sv.lead, sv.wired, sv.tail) && OutcomeInv(cl', sv.log, sv.s.Over?)
  {
    DecideShape(cl, sv.down, limit);
    if cl.c == AwaitAnswer(4) {
      DecideAnswerInv(cl, sv);
    } else if cl.c.AwaitHeader? && cl.c.have == 4 {
      DecideWordInv(cl, sv, limit);
    } else if cl.c.AwaitBody? && cl.c.have == cl.c.length {
      DecideBodyInv(cl, sv);
    }
  }

  /** What is decided, once all of it was read, and nothing before. */
  lemma DecideShape(cl: ClientSide, down: seq<Byte>, limit: nat)
    requires cl.reqs != [] && cl.downAt <= |down| && (cl.c.AwaitAnswer? || cl.c.AwaitHeader? ==> cl.c.have <= cl.downAt)
    ensures ClientDecide(cl, down, limit) ==
            match cl.c
            case AwaitAnswer(have) => if have == 4 then DecideAnswer(cl, Word32(Gathered(down, cl.downAt, 4))) else cl
            case AwaitHeader(have, single) =>
              if have == 4 then DecideHeader(cl, Word32(Gathered(down, cl.downAt, 4)), single, limit) else cl
            case AwaitBody(keep, length, have) =>
              if have == length then Finish(cl, Replied(Gathered(down, cl.downAt, length)), if keep then Pooled else Gone) else cl
            case _ => cl
  {
  }

  lemma DecideFrame(cl: ClientSide, down: seq<Byte>, limit: nat)
    ensures var cl' := ClientDecide(cl, down, limit); cl' == cl.(outcomes := cl'.outcomes, c := cl'.c)
  {
  }

  /** Everything the client's end must keep true, given the server's. */
  ghost predicate ClientHalf(cl: ClientSide, sv: ServerSide) {
    && sv.upAt <= |cl.up| && cl.downAt <= |sv.down| && UpShape(cl)
    && ClientInv(cl, sv.lead, sv.wired, sv.tail)
    && OutcomeInv(cl, sv.log, sv.s.Over?)
  }

  lemma WriteKeepsHalf(cl: ClientSide, sv: ServerSide, n: nat)
    requires ClientHalf(cl, sv)
    ensures ClientHalf(ClientWrite(cl, n), sv)
  {
    WriteInv(cl, sv.lead, sv.wired, sv.tail, n);
    WriteOutcomes(cl, n, sv.log, sv.s.Over?);
  }

  lemma ReadKeepsHalf(cl: ClientSide, sv: ServerSide, n: nat)
    requires ClientHalf(cl, sv)
    ensures ClientHalf(ClientRead(cl, sv.down, n), sv)
  {
    ReadInv(cl, sv.down, sv.lead, sv.wired, sv.tail, n);
    ReadOutcomes(cl, sv.down, n, sv.log, sv.s.Over?);
  }

  lemma DecideKeepsHalf(cl: ClientSide, sv: ServerSide, limit: nat)
    requires ClientHalf(cl, sv) && ServerHalf(cl.plain, cl.reqs, sv)
    ensures ClientHalf(ClientDecide(cl, sv.down, limit), sv)
  {
    DecideInv(cl, sv, limit);
    DecideFrame(cl, sv.down, limit);
  }

  lemma PooledKeepsHalf(cl: ClientSide, sv: ServerSide, e: ClientEvent)
    requires ClientHalf(cl, sv) && cl.c.Pooled? && (e.Reuse? || e.Discard?)
    ensures ClientHalf(ClientStep(cl, sv.down, sv.s.Over?, e), sv)
  {
    if e.Reuse? {
      ReuseClientInv(cl, e.r, sv.lead, sv.wired, sv.tail, sv.log, sv.s.Over?);
    } else {
      DiscardInv(cl, sv.lead, sv.wired, sv.tail, sv.log, sv.s.Over?);
    }
  }

  lemma EndKeepsHalf(cl: ClientSide, sv: ServerSide, e: ClientEvent)
    requires ClientHalf(cl, sv) && !cl.c.Gone? && !cl.c.Pooled? && (e.Fail? || (e.End? && cl.c.AwaitEnd?))
    ensures ClientHalf(ClientStep(cl, sv.down, sv.s.Over?, e), sv)
  {
    GiveUpInv(cl, if e.Fail? then Failed else Submitted, sv.lead, sv.wired, sv.tail, sv.log, sv.s.Over?);
  }

  lemma LoseKeepsHalf(cl: ClientSide, sv: ServerSide, eof: bool)
    requires ClientHalf(cl, sv) && ServerHalf(cl.plain, cl.reqs, sv)
    ensures ClientHalf(ClientLoses(cl, sv.down, sv.s.Over?, eof), sv)
  {
    if cl.c == AwaitAnswer(0) && (eof ==> sv.s.Over? && cl.downAt == |sv.down|) {
      LoseInv(cl, sv, eof);
    }
  }

  lemma ClientKeepsHalf(cl: ClientSide, sv: ServerSide, e: ClientEvent)
    requires ClientHalf(cl, sv) && ServerHalf(cl.plain, cl.reqs, sv)
    ensures ClientHalf(ClientStep(cl, sv.down, sv.s.Over?, e), sv)
  {
    match e
    case Write(n) => WriteKeepsHalf(cl, sv, n);
    case Read(n) => ReadKeepsHalf(cl, sv, n);
    case Decide(limit) => DecideKeepsHalf(cl, sv, limit);
    case LoseAnswer(eof) => LoseKeepsHalf(cl, sv, eof);
    case Reuse(_) => if cl.c.Pooled? { PooledKeepsHalf(cl, sv, e); }
    case Discard => if cl.c.Pooled? { PooledKeepsHalf(cl, sv, e); }
    case Fail => if !cl.c.Gone? && !cl.c.Pooled? { EndKeepsHalf(cl, sv, e); }
    case End => if cl.c.AwaitEnd? { EndKeepsHalf(cl, sv, e); }
  }

  lemma ClientKeeps(l: Link, e: ClientEvent)
    requires Inv(l)
    ensures Inv(LinkStep(l, FromClient(e)))
  {
    var cl, sv := l.cl, l.sv;
    var cl' := ClientStep(cl, sv.down, sv.s.Over?, e);
    Halves(l);
    ClientKeepsHalf(cl, sv, e);
    ClientLeavesServer(cl, sv, e);
    Joined(cl', sv);
  }

  lemma Halves(l: Link)
    requires Inv(l)
    ensures ClientHalf(l.cl, l.sv) && ServerHalf(l.cl.plain, l.cl.reqs, l.sv) && ServerInv(l.cl.plain, l.cl.reqs, l.sv)
  {
  }

  lemma Joined(cl: ClientSide, sv: ServerSide)
    requires ClientHalf(cl, sv) && ServerHalf(cl.plain, cl.reqs, sv) && ServerInv(cl.plain, cl.reqs, sv)
    ensures Inv(Link(cl, sv))
  {
  }

  /** What the client does leaves the server's half true. */
  lemma ClientLeavesServer(cl: ClientSide, sv: ServerSide, e: ClientEvent)
    requires ClientHalf(cl, sv) && ServerHalf(cl.plain, cl.reqs, sv) && ServerInv(cl.plain, cl.reqs, sv)
    ensures var cl' := ClientStep(cl, sv.down, sv.s.Over?, e);
            ServerHalf(cl'.plain, cl'.reqs, sv) && ServerInv(cl'.plain, cl'.reqs, sv)
  {
    if e.Reuse? && cl.c.Pooled? {
      PooledAll(cl, sv);
      ReuseServerInv(cl.reqs, e.r, sv);
      ReuseLogInv(cl.reqs, e.r, sv);
    } else {
      SameRequests(cl, sv.down, sv.s.Over?, e);
    }
  }

  /** A pooled connection's server answered every request and keeps the session. */
  lemma PooledAll(cl: ClientSide, sv: ServerSide)
    requires ClientHalf(cl, sv) && ServerHalf(cl.plain, cl.reqs, sv) && cl.c.Pooled?
    ensures !cl.plain && sv.lead == Some(ACCEPT) && |sv.wired| == |cl.reqs| == |sv.log|
  {
  }

  lemma SameRequests(cl: ClientSide, down: seq<Byte>, over: bool, e: ClientEvent)
    requires !(e.Reuse? && cl.c.Pooled?)
    ensures var cl' := ClientStep(cl, down, over, e); cl'.reqs == cl.reqs && cl'.plain == cl.plain
  {
  }
}
