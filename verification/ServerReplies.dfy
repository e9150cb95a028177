/** The server's steps from a request's last byte to the next request. */
module ServerReplies {
  import opened Options
  import opened Wire
  import opened SessionCalls
  import opened Links
  import opened LinkInvariant
  import opened ClientSteps
  import opened ServerSteps

  /** The last call's entry is filled in. */
  lemma NoteHalf(plain: bool, reqs: seq<Request>, sv: ServerSide, sv': ServerSide, e: Entry)
    requires ServerHalf(plain, reqs, sv) && sv.tail.Nothing? && |sv.wired| == |sv.log| - 1
    requires EntryOk(plain, reqs, sv.upAt, sv.lead, e, |sv.log| - 1)
    requires sv'.lead == sv.lead && sv'.wired == sv.wired && sv'.tail == sv.tail
    requires sv'.down == sv.down && sv'.upAt == sv.upAt
    requires sv'.log == Noted(sv, e)
    ensures ServerHalf(plain, reqs, sv')
  {
    forall k | 0 <= k < |sv'.log|
      ensures EntryOk(plain, reqs, sv'.upAt, sv.lead, sv'.log[k], k)
    {
      assert EntryOk(plain, reqs, sv.upAt, sv.lead, sv.log[k], k);
    }
    forall k | 0 <= k < |sv.wired|
      ensures Answers(reqs, sv.lead, sv'.log, k, sv.wired[k])
    {
      assert Answers(reqs, sv.lead, sv.log, k, sv.wired[k]);
    }
  }

  /** The frame the handler is given is the one the client sent. */
  lemma FrameIs(plain: bool, reqs: seq<Request>, up: seq<Byte>, k: nat, upAt: nat)
    requires k < |reqs| && Starts(up, Flat(plain, reqs, |reqs|))
    requires upAt == UpOff(reqs, k) + 4 + |reqs[k].frame| <= |up|
    ensures Gathered(up, upAt, |reqs[k].frame|) == reqs[k].frame
  {
    var n := |reqs[k].frame|;
    UpAt(plain, reqs, up, k, 4, n);
    SliceRight(Be32(if plain then n else Header(reqs[k])), reqs[k].frame, 0, n);
    assert Sent(plain, reqs[k])[4..4 + n] == reqs[k].frame[0..n] == reqs[k].frame;
  }

  lemma DispatchAll(plain: bool, reqs: seq<Request>, up: seq<Byte>, sv: ServerSide)
    requires ServerAll(plain, reqs, up, sv) && sv.s.Body?
    ensures ServerAll(plain, reqs, up, ServerDispatch(sv, up))
  {
    if sv.s.have == sv.s.length {
      FrameIs(plain, reqs, up, |sv.log| - 1, sv.upAt);
      RunningAll(plain, reqs, up, sv, reqs[|sv.log| - 1].frame);
      assert ServerDispatch(sv, up) == sv.(s := Running(sv.s.view), log := Noted(sv, Entry(Some(reqs[|sv.log| - 1].frame), None)));
    }
  }

  lemma RunningAll(plain: bool, reqs: seq<Request>, up: seq<Byte>, sv: ServerSide, frame: Frame)
    requires ServerAll(plain, reqs, up, sv) && sv.s.Body?
    requires sv.s.have == sv.s.length && frame == reqs[|sv.log| - 1].frame
    ensures ServerAll(plain, reqs, up, sv.(s := Running(sv.s.view), log := Noted(sv, Entry(Some(frame), None))))
  {
    var e := Entry(Some(frame), None);
    RunningInv(plain, reqs, sv, e);
    NoteHalf(plain, reqs, sv, sv.(s := Running(sv.s.view), log := Noted(sv, e)), e);
  }

  lemma RunningInv(plain: bool, reqs: seq<Request>, sv: ServerSide, e: Entry)
    requires ServerInv(plain, reqs, sv) && sv.s.Body? && sv.s.have == sv.s.length && e.frame.Some? && e.reply.None?
    ensures ServerInv(plain, reqs, sv.(s := Running(sv.s.view), log := Noted(sv, e)))
  {
  }

  lemma RespondInv(plain: bool, reqs: seq<Request>, sv: ServerSide, body: Frame)
    requires ServerInv(plain, reqs, sv) && sv.s.Running? && !(sv.s.view.InCall? && sv.s.view.oneWay)
    requires sv.down == Base(sv.lead, sv.wired)
    ensures ServerInv(plain, reqs, ServerRespond(sv, body))
  {
    assert (Be32(|body|) + body)[..0] == [];
    assert sv.down == Base(sv.lead, sv.wired) + [];
  }

  lemma RespondAll(plain: bool, reqs: seq<Request>, up: seq<Byte>, sv: ServerSide, body: Frame)
    requires ServerAll(plain, reqs, up, sv) && sv.s.Running?
    ensures ServerAll(plain, reqs, up, ServerRespond(sv, body))
  {
    if !(sv.s.view.InCall? && sv.s.view.oneWay) {
      WireIsBase(sv.down, sv.lead, sv.wired);
      NoteHalf(plain, reqs, sv, ServerRespond(sv, body), sv.log[|sv.log| - 1].(reply := Some(body)));
      RespondInv(plain, reqs, sv, body);
    }
  }

  /** One offer of a reply through a call of a session. */
  lemma OfferAgrees(r: Reply, base: seq<Byte>, body: Frame, offered: nat, n: nat, keep: bool)
    requires offered + n <= 4 + |body|
    requires Agrees(r, base, (Be32(|body|) + body)[..offered], r.continued)
    ensures var whole := Be32(|body|) + body;
            var w := WriteStep(r, whole[offered..offered + n], keep).reply;
            && Agrees(w, base, whole[..offered + n], w.continued)
            && w.wire == base + (if offered + n < 4 then [] else Answer(body, w.continued)[..offered + n])
            && (4 <= offered ==> w.continued == r.continued)
  {
    var whole := Be32(|body|) + body;
    var chunk := whole[offered..offered + n];
    assert whole[..offered] + chunk == whole[..offered + n];
    WriteAgrees(r, base, whole[..offered], r.continued, chunk, keep);
    var now := if offered < 4 then keep else r.continued;
    PartOfFrame(body, offered + n, now);
    if offered + n < 4 {
      PartOfFrame(body, offered + n, false);
    }
  }

  /** Part of an answer on the wire behind the complete ones. */
  lemma PartOnWire(lead: Option<Word>, wired: seq<Frame>, body: Frame, keep: bool, m: nat, n: nat)
    requires m <= n <= 4 + |body|
    ensures OnWire((Base(lead, wired) + Answer(body, keep)[..n])[..|Base(lead, wired)| + m], lead, wired, Payload(body, keep))
  {
    var base := Base(lead, wired);
    assert (base + Answer(body, keep)[..n])[..|base| + m] == (base + Answer(body, keep))[..|base| + m];
  }

  /** A complete answer that keeps the session joins the others. */
  lemma WholeOnWire(lead: Option<Word>, wired: seq<Frame>, body: Frame)
    ensures Base(lead, wired) + Answer(body, true) == Base(lead, wired + [body])
    ensures OnWire(Base(lead, wired + [body]), lead, wired + [body], Nothing)
  {
    CatPush(wired, body, |wired|);
    Associative(LeadBytes(lead), Cat(wired, |wired|), Answer(body, true));
    assert Base(lead, wired + [body]) + [] == Base(lead, wired + [body]);
  }

  /** The server's half with a reply under way. */
  lemma PayloadHalf(plain: bool, reqs: seq<Request>, sv: ServerSide, sv': ServerSide, body: Frame, keep: bool, m: nat, n: nat)
    requires ServerHalf(plain, reqs, sv) && |sv.wired| < |sv.log|
    requires Answers(reqs, sv.lead, sv.log, |sv.wired|, body)
    requires m <= n <= 4 + |body| && (keep ==> sv.lead == Some(ACCEPT) && m < 4 + |body|)
    requires sv'.lead == sv.lead && sv'.wired == sv.wired && sv'.log == sv.log
    requires sv'.upAt == sv.upAt && sv'.tail == Payload(body, keep)
    requires sv'.down == (Base(sv.lead, sv.wired) + Answer(body, keep)[..n])[..|Base(sv.lead, sv.wired)| + m]
    ensures ServerHalf(plain, reqs, sv')
  {
    PartOnWire(sv.lead, sv.wired, body, keep, m, n);
  }

  /** The server's half with one more complete answer. */
  lemma WiredHalf(plain: bool, reqs: seq<Request>, sv: ServerSide, sv': ServerSide, body: Frame)
    requires ServerHalf(plain, reqs, sv) && |sv.wired| < |sv.log| && sv.lead == Some(ACCEPT)
    requires Answers(reqs, sv.lead, sv.log, |sv.wired|, body)
    requires sv'.lead == sv.lead && sv'.wired == sv.wired + [body]
    requires sv'.log == sv.log && sv'.upAt == sv.upAt && sv'.tail.Nothing?
    requires sv'.down == Base(sv.lead, sv.wired) + Answer(body, true)
    ensures ServerHalf(plain, reqs, sv')
  {
    WholeOnWire(sv.lead, sv.wired, body);
    forall k | 0 <= k < |sv'.wired|
      ensures Answers(reqs, sv.lead, sv.log, k, sv'.wired[k])
    {
      if k < |sv.wired| {
        assert Answers(reqs, sv.lead, sv.log, k, sv.wired[k]);
      }
    }
  }

  /** The wire behind the complete answers is where the offers left off. */
  lemma OfferedSoFar(sv: ServerSide, body: Frame, offered: nat, r: Reply, oneWay: bool)
    requires ReplyInv(sv, body, offered, r, InCall(oneWay))
    ensures |sv.down| == |Base(sv.lead, sv.wired)| + (if offered < 4 then 0 else offered)
  {
    PartOfFrame(body, offered, r.continued);
  }

  /** The last call's handler was given its request and is replying. */
  predicate AtReply(plain: bool, reqs: seq<Request>, sv: ServerSide, body: Frame, view: View) {
    && 0 < |sv.log| <= |reqs| && Serving(plain, reqs, sv, view, |reqs[|sv.log| - 1].frame|) && |sv.wired| == |sv.log| - 1
    && sv.log[|sv.log| - 1].frame.Some? && sv.log[|sv.log| - 1].reply == Some(body)
  }

  lemma OfferShort(plain: bool, reqs: seq<Request>, sv: ServerSide, body: Frame, w: Reply, m: nat)
    requires ServerHalf(plain, reqs, sv) && AtReply(plain, reqs, sv, body, InCall(false)) && sv.tail.Nothing?
    requires !sv.s.Over? && m < 4 && |w.out| <= 4 && w.wire == sv.down
    requires Agrees(w, Base(sv.lead, sv.wired), (Be32(|body|) + body)[..m], w.continued)
    ensures var sv' := sv.(s := Replying(body, m, w, InCall(false))); ServerHalf(plain, reqs, sv') && ServerInv(plain, reqs, sv')
  {
    PhaseHalf(plain, reqs, sv, sv.(s := Replying(body, m, w, InCall(false))));
  }

  lemma OfferPart(plain: bool, reqs: seq<Request>, sv: ServerSide, body: Frame, w: Reply, m: nat)
    requires ServerHalf(plain, reqs, sv) && AtReply(plain, reqs, sv, body, InCall(false))
    requires 4 <= m < 4 + |body| && |w.out| <= 4
    requires Agrees(w, Base(sv.lead, sv.wired), (Be32(|body|) + body)[..m], w.continued)
    requires w.wire == Base(sv.lead, sv.wired) + Answer(body, w.continued)[..m]
    ensures var sv' := sv.(down := w.wire, tail := Payload(body, w.continued), s := Replying(body, m, w, InCall(false)));
            ServerHalf(plain, reqs, sv') && ServerInv(plain, reqs, sv')
  {
    var sv' := sv.(down := w.wire, tail := Payload(body, w.continued), s := Replying(body, m, w, InCall(false)));
    assert w.wire[..|w.wire|] == w.wire;
    PayloadHalf(plain, reqs, sv, sv', body, w.continued, m, m);
  }

  /** The reply is complete, or the connection broke under it. */
  lemma OfferLast(plain: bool, reqs: seq<Request>, sv: ServerSide, body: Frame, keep: bool, view: View, n: nat, m: nat, s: Server)
    requires ServerHalf(plain, reqs, sv) && AtReply(plain, reqs, sv, body, view) && (view.InCall? ==> !view.oneWay)
    requires m <= n <= 4 + |body| && (keep ==> view.InCall? && m < 4 + |body|)
    requires s == Over || s == Answered(false, view)
    ensures var base := Base(sv.lead, sv.wired);
            var sv' := sv.(down := (base + Answer(body, keep)[..n])[..|base| + m], tail := Payload(body, keep), s := s);
            ServerHalf(plain, reqs, sv') && ServerInv(plain, reqs, sv')
  {
    var base := Base(sv.lead, sv.wired);
    var sv' := sv.(down := (base + Answer(body, keep)[..n])[..|base| + m], tail := Payload(body, keep), s := s);
    PayloadHalf(plain, reqs, sv, sv', body, keep, m, n);
  }

  lemma OfferKept(plain: bool, reqs: seq<Request>, sv: ServerSide, body: Frame)
    requires ServerHalf(plain, reqs, sv) && AtReply(plain, reqs, sv, body, InCall(false))
    ensures var sv' := sv.(down := Base(sv.lead, sv.wired) + Answer(body, true), tail := Nothing, wired := sv.wired + [body],
                           s := Answered(true, InCall(false)));
            ServerHalf(plain, reqs, sv') && ServerInv(plain, reqs, sv')
  {
    var sv' := sv.(down := Base(sv.lead, sv.wired) + Answer(body, true), tail := Nothing, wired := sv.wired + [body],
                   s := Answered(true, InCall(false)));
    WiredHalf(plain, reqs, sv, sv', body);
  }

  /** A connection that breaks under an offer keeps part of the answer. */
  lemma CarriedCut(plain: bool, reqs: seq<Request>, sv: ServerSide, body: Frame, w: Reply, offered: nat, m: nat, cut: nat)
    requires ServerHalf(plain, reqs, sv) && AtReply(plain, reqs, sv, body, InCall(false))
    requires offered <= m <= 4 + |body| && |sv.down| == |Base(sv.lead, sv.wired)| + (if offered < 4 then 0 else offered)
    requires w.wire == Base(sv.lead, sv.wired) + (if m < 4 then [] else Answer(body, w.continued)[..m])
    ensures var sv' := Carried(sv, body, m, w, InCall(false), Some(cut));
            sv' == sv || (ServerHalf(plain, reqs, sv') && ServerInv(plain, reqs, sv'))
  {
    var base := Base(sv.lead, sv.wired);
    if cut < |w.wire| - |sv.down| {
      var k := |sv.down| - |base| + cut;
      OfferLast(plain, reqs, sv, body, w.continued, InCall(false), m, k, Over);
      assert Carried(sv, body, m, w, InCall(false), Some(cut)) ==
             sv.(down := w.wire[..|base| + k], tail := Payload(body, w.continued), s := Over);
    }
  }

  lemma CarriedInCall(plain: bool, reqs: seq<Request>, sv: ServerSide, body: Frame, w: Reply, offered: nat, m: nat, cut: Option<nat>)
    requires ServerHalf(plain, reqs, sv) && AtReply(plain, reqs, sv, body, InCall(false)) && !sv.s.Over?
    requires offered <= m <= 4 + |body| && |w.out| <= 4 && (offered < 4 ==> sv.tail.Nothing?)
    requires |sv.down| == |Base(sv.lead, sv.wired)| + (if offered < 4 then 0 else offered)
    requires Agrees(w, Base(sv.lead, sv.wired), (Be32(|body|) + body)[..m], w.continued)
    requires w.wire == Base(sv.lead, sv.wired) + (if m < 4 then [] else Answer(body, w.continued)[..m])
    ensures var sv' := Carried(sv, body, m, w, InCall(false), cut);
            sv' == sv || (ServerHalf(plain, reqs, sv') && ServerInv(plain, reqs, sv'))
  {
    var sv' := Carried(sv, body, m, w, InCall(false), cut);
    if cut.Some? {
      CarriedCut(plain, reqs, sv, body, w, offered, m, cut.value);
    } else if m < 4 {
      WireIsBase(sv.down, sv.lead, sv.wired);
      OfferShort(plain, reqs, sv, body, w, m);
      assert sv' == sv.(s := Replying(body, m, w, InCall(false)));
    } else if m < 4 + |body| {
      OfferPart(plain, reqs, sv, body, w, m);
    } else {
      CarriedDone(plain, reqs, sv, body, w);
    }
  }

  /** The last byte of a reply was offered. */
  lemma CarriedDone(plain: bool, reqs: seq<Request>, sv: ServerSide, body: Frame, w: Reply)
    requires ServerHalf(plain, reqs, sv) && AtReply(plain, reqs, sv, body, InCall(false))
    requires w.wire == Base(sv.lead, sv.wired) + Answer(body, w.continued)[..4 + |body|]
    ensures var sv' := Carried(sv, body, 4 + |body|, w, InCall(false), None);
            ServerHalf(plain, reqs, sv') && ServerInv(plain, reqs, sv')
  {
    var m := 4 + |body|;
    assert Answer(body, w.continued)[..m] == Answer(body, w.continued);
    if w.continued {
      OfferKept(plain, reqs, sv, body);
    } else {
      assert w.wire[..|Base(sv.lead, sv.wired)| + m] == w.wire;
      OfferLast(plain, reqs, sv, body, false, InCall(false), m, m, Answered(false, InCall(false)));
    }
  }

  /** What an offer through a call puts on the connection. */
  lemma OfferCarries(sv: ServerSide, n: nat, cut: Option<nat>) returns (w: Reply)
    requires sv.s.Replying? && sv.s.view == InCall(false) && sv.s.offered + n <= 4 + |sv.s.body|
    requires ReplyInv(sv, sv.s.body, sv.s.offered, sv.s.r, InCall(false))
    ensures 4 <= sv.s.offered ==> w.continued == sv.s.r.continued
    ensures |w.out| <= 4 && ServerOffer(sv, n, cut) == Carried(sv, sv.s.body, sv.s.offered + n, w, InCall(false), cut)
    ensures Agrees(w, Base(sv.lead, sv.wired), (Be32(|sv.s.body|) + sv.s.body)[..sv.s.offered + n], w.continued)
    ensures w.wire == Base(sv.lead, sv.wired) + (if sv.s.offered + n < 4 then [] else Answer(sv.s.body, w.continued)[..sv.s.offered + n])
  {
    var body, offered, r := sv.s.body, sv.s.offered, sv.s.r;
    OfferAgrees(r, Base(sv.lead, sv.wired), body, offered, n, !Stopping(sv));
    w := WriteStep(r, (Be32(|body|) + body)[offered..offered + n], !Stopping(sv)).reply;
  }

  lemma OfferInCall(plain: bool, reqs: seq<Request>, sv: ServerSide, n: nat, cut: Option<nat>)
    requires ServerHalf(plain, reqs, sv) && sv.s.Replying? && sv.s.view.InCall? && sv.s.offered + n <= 4 + |sv.s.body|
    requires AtReply(plain, reqs, sv, sv.s.body, sv.s.view) && ReplyInv(sv, sv.s.body, sv.s.offered, sv.s.r, sv.s.view)
    ensures var sv' := ServerOffer(sv, n, cut); sv' == sv || (ServerHalf(plain, reqs, sv') && ServerInv(plain, reqs, sv'))
  {
    OfferedSoFar(sv, sv.s.body, sv.s.offered, sv.s.r, false);
    var w := OfferCarries(sv, n, cut);
    CarriedInCall(plain, reqs, sv, sv.s.body, w, sv.s.offered, sv.s.offered + n, cut);
  }

  lemma DirectPart(plain: bool, reqs: seq<Request>, sv: ServerSide, body: Frame, w: Reply, m: nat, view: View)
    requires ServerHalf(plain, reqs, sv) && AtReply(plain, reqs, sv, body, view) && view.Direct?
    requires m < 4 + |body| && |w.out| <= 4 && w.wire == Base(sv.lead, sv.wired) + (Be32(|body|) + body)[..m]
    ensures var sv' := sv.(down := w.wire, tail := Payload(body, false), s := Replying(body, m, w, view));
            ServerHalf(plain, reqs, sv') && ServerInv(plain, reqs, sv')
  {
    var sv' := sv.(down := w.wire, tail := Payload(body, false), s := Replying(body, m, w, view));
    assert Be32(|body|) + body == Answer(body, false);
    assert w.wire[..|w.wire|] == w.wire;
    PayloadHalf(plain, reqs, sv, sv', body, false, m, m);
  }

  lemma CarriedDirect(plain: bool, reqs: seq<Request>, sv: ServerSide, body: Frame, w: Reply, m: nat, view: View, cut: Option<nat>)
    requires ServerHalf(plain, reqs, sv) && AtReply(plain, reqs, sv, body, view) && view.Direct?
    requires m <= 4 + |body| && |w.out| <= 4 && w.wire == Base(sv.lead, sv.wired) + (Be32(|body|) + body)[..m]
    requires |Base(sv.lead, sv.wired)| <= |sv.down|
    ensures var sv' := Carried(sv, body, m, w, view, cut);
            sv' == sv || (ServerHalf(plain, reqs, sv') && ServerInv(plain, reqs, sv'))
  {
    var sv' := Carried(sv, body, m, w, view, cut);
    var base := Base(sv.lead, sv.wired);
    assert Be32(|body|) + body == Answer(body, false);
    if cut.Some? {
      if cut.value < |w.wire| - |sv.down| {
        var k := |sv.down| - |base| + cut.value;
        OfferLast(plain, reqs, sv, body, false, view, m, k, Over);
        assert sv' == sv.(down := w.wire[..|base| + k], tail := Payload(body, false), s := Over);
      }
    } else if m < 4 + |body| {
      DirectPart(plain, reqs, sv, body, w, m, view);
    } else {
      assert w.wire[..|base| + m] == w.wire;
      OfferLast(plain, reqs, sv, body, false, view, m, m, Answered(false, view));
      assert sv' == sv.(down := w.wire, tail := Payload(body, false), s := Answered(false, view));
    }
  }

  /** What an offer on a connection served once puts on it. */
  lemma DirectCarries(sv: ServerSide, n: nat, cut: Option<nat>) returns (w: Reply)
    requires sv.s.Replying? && sv.s.view.Direct? && sv.s.offered + n <= 4 + |sv.s.body|
    requires ReplyInv(sv, sv.s.body, sv.s.offered, sv.s.r, sv.s.view)
    ensures |w.out| <= 4 && ServerOffer(sv, n, cut) == Carried(sv, sv.s.body, sv.s.offered + n, w, sv.s.view, cut)
    ensures w.wire == Base(sv.lead, sv.wired) + (Be32(|sv.s.body|) + sv.s.body)[..sv.s.offered + n]
  {
    var body, offered, m := sv.s.body, sv.s.offered, sv.s.offered + n;
    var whole := Be32(|body|) + body;
    SliceGrows(whole, 0, offered, m);
    Associative(Base(sv.lead, sv.wired), whole[..offered], whole[offered..m]);
    w := sv.s.r.(wire := sv.s.r.wire + whole[offered..m]);
  }

  lemma OfferDirect(plain: bool, reqs: seq<Request>, sv: ServerSide, n: nat, cut: Option<nat>)
    requires ServerHalf(plain, reqs, sv) && sv.s.Replying? && sv.s.view.Direct? && sv.s.offered + n <= 4 + |sv.s.body|
    requires AtReply(plain, reqs, sv, sv.s.body, sv.s.view) && ReplyInv(sv, sv.s.body, sv.s.offered, sv.s.r, sv.s.view)
    ensures var sv' := ServerOffer(sv, n, cut); sv' == sv || (ServerHalf(plain, reqs, sv') && ServerInv(plain, reqs, sv'))
  {
    var w := DirectCarries(sv, n, cut);
    CarriedDirect(plain, reqs, sv, sv.s.body, w, sv.s.offered + n, sv.s.view, cut);
  }

  lemma CompleteAll(plain: bool, reqs: seq<Request>, up: seq<Byte>, sv: ServerSide, view: View, cut: Option<nat>)
    requires ServerAll(plain, reqs, up, sv) && sv.tail.Nothing? && |sv.wired| == |sv.log| - 1
    requires 0 < |sv.log| <= |reqs| && Serving(plain, reqs, sv, view, |reqs[|sv.log| - 1].frame|)
    requires view == InCall(true)
    ensures ServerAll(plain, reqs, up, Complete(sv, view, cut))
  {
    if cut.Some? {
      SendLastAll(plain, reqs, up, sv, Payload([], !Stopping(sv)), Some(Min(cut.value, 3)));
    } else {
      CompletedAll(plain, reqs, up, sv, view);
    }
  }

  /** The whole completion word. */
  lemma CompletedAll(plain: bool, reqs: seq<Request>, up: seq<Byte>, sv: ServerSide, view: View)
    requires ServerAll(plain, reqs, up, sv) && sv.tail.Nothing? && |sv.wired| == |sv.log| - 1
    requires 0 < |sv.log| <= |reqs| && Serving(plain, reqs, sv, view, |reqs[|sv.log| - 1].frame|)
    requires view == InCall(true)
    ensures ServerAll(plain, reqs, up, Complete(sv, view, None))
  {
    WireIsBase(sv.down, sv.lead, sv.wired);
    if !Stopping(sv) {
      WiredHalf(plain, reqs, sv, Complete(sv, view, None), []);
    } else {
      LastCompletedAll(plain, reqs, up, sv, view);
    }
  }

  lemma LastCompletedAll(plain: bool, reqs: seq<Request>, up: seq<Byte>, sv: ServerSide, view: View)
    requires ServerAll(plain, reqs, up, sv) && sv.tail.Nothing? && |sv.wired| == |sv.log| - 1
    requires 0 < |sv.log| <= |reqs| && Serving(plain, reqs, sv, view, |reqs[|sv.log| - 1].frame|)
    requires view == InCall(true) && Stopping(sv) && sv.down == Base(sv.lead, sv.wired)
    ensures ServerAll(plain, reqs, up, Complete(sv, view, None))
  {
    var sv' := Complete(sv, view, None);
    assert Answer([], false)[..4] == Answer([], false);
    assert sv'.down[..|sv'.down|] == sv'.down;
    PayloadHalf(plain, reqs, sv, sv', [], false, 4, 4);
  }

  lemma OverAll(plain: bool, reqs: seq<Request>, up: seq<Byte>, sv: ServerSide)
    requires ServerAll(plain, reqs, up, sv)
    ensures ServerAll(plain, reqs, up, sv.(s := Over))
  {
    PhaseHalf(plain, reqs, sv, sv.(s := Over));
  }

  lemma CloseAll(plain: bool, reqs: seq<Request>, up: seq<Byte>, sv: ServerSide, cut: Option<nat>)
    requires ServerAll(plain, reqs, up, sv)
    ensures ServerAll(plain, reqs, up, ServerClose(sv, cut))
    ensures ServerAll(plain, reqs, up, ServerAbandon(sv, cut))
  {
    OverAll(plain, reqs, up, sv);
    if sv.s.Running? && sv.s.view == InCall(true) {
      CompleteAll(plain, reqs, up, sv, sv.s.view, cut);
    } else if sv.s.Body? && sv.s.have == sv.s.length && sv.s.view == InCall(true) {
      CompleteAll(plain, reqs, up, sv, sv.s.view, cut);
    }
  }

  lemma AfterCallAll(plain: bool, reqs: seq<Request>, up: seq<Byte>, sv: ServerSide, cut: Option<nat>)
    requires ServerAll(plain, reqs, up, sv) && sv.s.Answered?
    ensures ServerAll(plain, reqs, up, ServerAfterCall(sv, cut))
  {
    var sv' := ServerAfterCall(sv, cut);
    if sv.s.view.InCall? {
      var exit := LeaveCall(false, sv.s.continued, Stopping(sv));
      if exit.GoIdle? {
        assert UpOff(reqs, |sv.log|) == UpOff(reqs, |sv.log| - 1) + 4 + |reqs[|sv.log| - 1].frame|;
        PhaseHalf(plain, reqs, sv, sv');
      } else if exit.Retire? {
        SendLastAll(plain, reqs, up, sv, Control(CLOSING), cut);
      } else {
        OverAll(plain, reqs, up, sv);
      }
    }
  }

  /** Four header bytes are the next request's header. */
  lemma HeaderIs(reqs: seq<Request>, up: seq<Byte>, k: nat, upAt: nat)
    requires Starts(up, Flat(false, reqs, |reqs|)) && k < |reqs| && upAt == UpOff(reqs, k) + 4 <= |up|
    ensures |Gathered(up, upAt, 4)| == 4 && Word32(Gathered(up, upAt, 4)) == Header(reqs[k])
  {
    UpAt(false, reqs, up, k, 0, 4);
    SentHead(false, reqs[k]);
  }

  /** A complete header begins the next call. */
  lemma NextAll(plain: bool, reqs: seq<Request>, up: seq<Byte>, sv: ServerSide)
    requires ServerAll(plain, reqs, up, sv) && (sv.s == Idle(4) || sv.s == Late(4))
    ensures |Gathered(up, sv.upAt, 4)| == 4
    ensures ServerAll(plain, reqs, up, sv.(s := Starting(Word32(Gathered(up, sv.upAt, 4)))))
  {
    HeaderIs(reqs, up, |sv.log|, sv.upAt);
    PhaseHalf(plain, reqs, sv, sv.(s := Starting(Word32(Gathered(up, sv.upAt, 4)))));
  }

  lemma LingerAll(plain: bool, reqs: seq<Request>, up: seq<Byte>, sv: ServerSide)
    requires ServerAll(plain, reqs, up, sv) && sv.s.Idle?
    ensures ServerAll(plain, reqs, up, sv.(s := Late(sv.s.have)))
  {
    PhaseHalf(plain, reqs, sv, sv.(s := Late(sv.s.have)));
  }

  lemma IdleAll(plain: bool, reqs: seq<Request>, up: seq<Byte>, sv: ServerSide, timeout: bool, cut: Option<nat>)
    requires ServerAll(plain, reqs, up, sv) && sv.s.Idle?
    ensures ServerAll(plain, reqs, up, ServerIdleEnds(sv, up, timeout, cut))
  {
    WaitingIs(plain, reqs, up, sv);
    IdleIs(sv, up, timeout, cut);
    match LeaveIdle(sv.s.have, timeout, Stopping(sv)) {
      case Serve => NextAll(plain, reqs, up, sv);
      case FinishHeader => LingerAll(plain, reqs, up, sv);
      case SendMarker => SendLastAll(plain, reqs, up, sv, Control(CLOSING), cut);
      case End => OverAll(plain, reqs, up, sv);
    }
  }

  lemma WaitingIs(plain: bool, reqs: seq<Request>, up: seq<Byte>, sv: ServerSide)
    requires ServerAll(plain, reqs, up, sv) && sv.s.Idle?
    ensures sv.s.have <= 4 && sv.s.have <= sv.upAt <= |up| && sv.tail.Nothing? && sv.lead == Some(ACCEPT) && |sv.log| == |sv.wired|
  {
  }

  lemma IdleIs(sv: ServerSide, up: seq<Byte>, timeout: bool, cut: Option<nat>)
    requires sv.s.Idle? && sv.s.have <= 4 && (sv.s.have == 4 ==> 4 <= sv.upAt <= |up|)
    ensures ServerIdleEnds(sv, up, timeout, cut) ==
            match LeaveIdle(sv.s.have, timeout, Stopping(sv))
            case Serve => sv.(s := Starting(Word32(Gathered(up, sv.upAt, 4))))
            case FinishHeader => sv.(s := Late(sv.s.have))
            case SendMarker => SendLast(sv, Control(CLOSING), cut)
            case End => sv.(s := Over)
  {
  }

  lemma LateAll(plain: bool, reqs: seq<Request>, up: seq<Byte>, sv: ServerSide)
    requires ServerAll(plain, reqs, up, sv) && sv.s.Late?
    ensures ServerAll(plain, reqs, up, ServerLateEnds(sv, up))
  {
    OverAll(plain, reqs, up, sv);
    if sv.s.have == 4 {
      NextAll(plain, reqs, up, sv);
    }
  }

  lemma AdmitAll(plain: bool, reqs: seq<Request>, up: seq<Byte>, sv: ServerSide, limit: nat)
    requires ServerAll(plain, reqs, up, sv) && sv.s.Admitting?
    ensures ServerAll(plain, reqs, up, ServerAdmit(sv, limit))
  {
    if Min(limit, LENGTH_MASK) < sv.s.length {
      OverAll(plain, reqs, up, sv);
    } else {
      BodyAll(plain, reqs, up, sv);
    }
  }

  lemma BodyAll(plain: bool, reqs: seq<Request>, up: seq<Byte>, sv: ServerSide)
    requires ServerAll(plain, reqs, up, sv) && sv.s.Admitting?
    ensures ServerAll(plain, reqs, up, sv.(s := Body(sv.s.length, 0, sv.s.view)))
  {
    PhaseHalf(plain, reqs, sv, sv.(s := Body(sv.s.length, 0, sv.s.view)));
  }

  lemma ReplyingIs(plain: bool, reqs: seq<Request>, sv: ServerSide)
    requires ServerInv(plain, reqs, sv) && sv.s.Replying?
    ensures AtReply(plain, reqs, sv, sv.s.body, sv.s.view) && ReplyInv(sv, sv.s.body, sv.s.offered, sv.s.r, sv.s.view)
  {
  }

  lemma OfferKeeps(plain: bool, reqs: seq<Request>, sv: ServerSide, n: nat, cut: Option<nat>)
    requires ServerHalf(plain, reqs, sv) && sv.s.Replying? && sv.s.offered + n <= 4 + |sv.s.body|
    requires AtReply(plain, reqs, sv, sv.s.body, sv.s.view) && ReplyInv(sv, sv.s.body, sv.s.offered, sv.s.r, sv.s.view)
    ensures var sv' := ServerOffer(sv, n, cut); sv' == sv || (ServerHalf(plain, reqs, sv') && ServerInv(plain, reqs, sv'))
  {
    if sv.s.view.InCall? {
      OfferInCall(plain, reqs, sv, n, cut);
    } else {
      OfferDirect(plain, reqs, sv, n, cut);
    }
  }

  lemma OfferFrame(sv: ServerSide, n: nat, cut: Option<nat>)
    ensures ServerOffer(sv, n, cut).upAt == sv.upAt
    ensures !(sv.s.Replying? && sv.s.offered + n <= 4 + |sv.s.body|) ==> ServerOffer(sv, n, cut) == sv
  {
  }

  lemma OfferAll(plain: bool, reqs: seq<Request>, up: seq<Byte>, sv: ServerSide, n: nat, cut: Option<nat>)
    requires ServerAll(plain, reqs, up, sv)
    ensures ServerAll(plain, reqs, up, ServerOffer(sv, n, cut))
  {
    OfferFrame(sv, n, cut);
    if sv.s.Replying? && sv.s.offered + n <= 4 + |sv.s.body| {
      ReplyingIs(plain, reqs, sv);
      OfferKeeps(plain, reqs, sv, n, cut);
    }
  }

  lemma FlagsInv(plain: bool, reqs: seq<Request>, sv: ServerSide, retiring: bool, expired: bool)
    requires ServerInv(plain, reqs, sv)
    ensures ServerInv(plain, reqs, sv.(retiring := retiring, expired := expired))
  {
  }

  /** Two timers of the session only change what later steps decide. */
  lemma FlagsAll(plain: bool, reqs: seq<Request>, up: seq<Byte>, sv: ServerSide, retiring: bool, expired: bool)
    requires ServerAll(plain, reqs, up, sv)
    ensures ServerAll(plain, reqs, up, sv.(retiring := retiring, expired := expired))
  {
    FlagsInv(plain, reqs, sv, retiring, expired);
    PhaseHalf(plain, reqs, sv, sv.(retiring := retiring, expired := expired));
  }

  lemma ReceiveAll(plain: bool, reqs: seq<Request>, up: seq<Byte>, sv: ServerSide, e: ServerEvent)
    requires ServerAll(plain, reqs, up, sv)
    requires e.Take? || e.AnswerAsk? || e.Deliver? || e.Length? || e.Admit? || e.Refuse? || e.Dispatch?
    ensures ServerAll(plain, reqs, up, ServerStep(sv, up, e))
  {
    match e
    case Take(n) => TakeAll(plain, reqs, up, sv, n);
    case AnswerAsk(accept, cut) => if sv.s.Deciding? { AnswerAll(plain, reqs, up, sv, accept, cut); }
    case Deliver => if sv.s.Starting? { DeliverAll(plain, reqs, up, sv); }
    case Length(limit, cut) => if sv.s.Reading? && sv.s.have == 4 { LengthAll(plain, reqs, up, sv, limit, cut); }
    case Admit(limit) => if sv.s.Admitting? { AdmitAll(plain, reqs, up, sv, limit); }
    case Refuse(a, b, cut) => if sv.s.Admitting? { SendLastAll(plain, reqs, up, sv, Refused(a, b), cut); }
    case Dispatch => if sv.s.Body? { DispatchAll(plain, reqs, up, sv); }
  }

  lemma ServerStepAll(plain: bool, reqs: seq<Request>, up: seq<Byte>, sv: ServerSide, e: ServerEvent)
    requires ServerAll(plain, reqs, up, sv)
    ensures ServerAll(plain, reqs, up, ServerStep(sv, up, e))
  {
    match e
    case Abandon(cut) => CloseAll(plain, reqs, up, sv, cut);
    case Respond(body) => if sv.s.Running? { RespondAll(plain, reqs, up, sv, body); }
    case Offer(n, cut) => OfferAll(plain, reqs, up, sv, n, cut);
    case Close(cut) => CloseAll(plain, reqs, up, sv, cut);
    case AfterCall(cut) => if sv.s.Answered? { AfterCallAll(plain, reqs, up, sv, cut); }
    case IdleEnds(timeout, cut) => if sv.s.Idle? { IdleAll(plain, reqs, up, sv, timeout, cut); }
    case LateEnds => if sv.s.Late? { LateAll(plain, reqs, up, sv); }
    case RetireNow => FlagsAll(plain, reqs, up, sv, true, sv.expired);
    case ExpireNow => FlagsAll(plain, reqs, up, sv, sv.retiring, true);
    case Stop => OverAll(plain, reqs, up, sv);
    case _ => ReceiveAll(plain, reqs, up, sv, e);
  }
}
