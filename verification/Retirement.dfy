/** What a server still takes once it was asked to retire (listen/session.go:309-347,
    479-494, 561-596). */
module Retirement {
  import opened Options
  import opened Wire
  import opened SessionCalls
  import opened Links
  import opened LinkInvariant
  import opened ClientSteps
  import opened ServerSteps
  import opened ServerReplies
  import opened LinkRuns

  /** A call the server has begun to take and has not recorded yet. */
  function Begun(s: Server): nat {
    if s.First? || s.Deciding? || s.Starting? || s.Late? then 1 else 0
  }

  /** Whether a step records no more calls than had begun. */
  predicate NoNewCall(sv: ServerSide, sv': ServerSide) {
    sv'.retiring && |sv'.log| + Begun(sv'.s) <= |sv.log| + Begun(sv.s)
  }

  lemma RetiredTake(sv: ServerSide, up: seq<Byte>, n: nat)
    requires sv.retiring
    ensures NoNewCall(sv, ServerTake(sv, up, n))
  {
  }

  lemma RetiredWait(sv: ServerSide, up: seq<Byte>, e: ServerEvent)
    requires sv.retiring && (e.AfterCall? || e.IdleEnds? || e.LateEnds?)
    ensures NoNewCall(sv, ServerStep(sv, up, e))
  {
  }

  lemma RetiredServe(sv: ServerSide, up: seq<Byte>, e: ServerEvent)
    requires sv.retiring && (e.Length? || e.Admit? || e.Refuse? || e.Dispatch? || e.Respond? || e.Offer? || e.Close? || e.Abandon?)
    ensures NoNewCall(sv, ServerStep(sv, up, e))
  {
  }

  lemma RetiredStep(sv: ServerSide, up: seq<Byte>, e: ServerEvent)
    requires sv.retiring
    ensures NoNewCall(sv, ServerStep(sv, up, e))
  {
    if e.Take? {
      RetiredTake(sv, up, e.n);
    } else if e.AfterCall? || e.IdleEnds? || e.LateEnds? {
      RetiredWait(sv, up, e);
    } else if !(e.AnswerAsk? || e.Deliver? || e.RetireNow? || e.ExpireNow? || e.Stop?) {
      RetiredServe(sv, up, e);
    }
  }

  /** Once a session is asked to retire it takes at most the request it had begun
      to read; one that was waiting, or serving a call, takes none. */
  lemma {:induction false} RetiredRun(l: Link, es: seq<LinkEvent>)
    requires l.sv.retiring
    ensures |Run(l, es).sv.log| + Begun(Run(l, es).sv.s) <= |l.sv.log| + Begun(l.sv.s)
    decreases |es|
  {
    if es != [] {
      if es[0].FromServer? {
        RetiredStep(l.sv, l.cl.up, es[0].se);
      }
      RetiredRun(LinkStep(l, es[0]), es[1..]);
    }
  }

  // ------------------------------------------------- exactly what is still taken

  /** The server's steps on a connection that brings no further bytes. */
  function ServerRun(sv: ServerSide, up: seq<Byte>, es: seq<ServerEvent>): ServerSide
    decreases |es|
  {
    if es == [] then sv else ServerRun(ServerStep(sv, up, es[0]), up, es[1..])
  }

  /** A header that starts a call. */
  predicate Callable(w: Word) {
    HasSession(w) && w != CLOSING
  }

  /** The four bytes that end at `at` are there and are such a header. */
  predicate HeaderThere(up: seq<Byte>, at: int) {
    4 <= at <= |up| && Callable(Word32(up[at - 4..at]))
  }

  /** A retired server will still take a request: it has its header in hand; or it
      let the header finish, it has not expired and the rest is there. Before there is
      a session to retire, the connection's first request is handed out as any other. */
  predicate TakesMore(sv: ServerSide, up: seq<Byte>) {
    match sv.s
    case Starting(h) => Callable(h)
    case Late(have) => have <= 4 && !sv.expired && HeaderThere(up, sv.upAt + 4 - have)
    case First(have) =>
      || (have == 0 < |up| && up[0] < 128)
      || (4 <= |up| && Word32(up[..4]) != CLOSING)
    case Deciding(_) => true
    case _ => false
  }

  /** The first header is read from the connection's first byte. */
  predicate FirstBytes(sv: ServerSide, up: seq<Byte>) {
    sv.s.First? ==> sv.upAt == sv.s.have < 4 && sv.upAt <= |up| && (0 < sv.s.have ==> 128 <= up[0])
  }

  /** A step of a retired server that will take nothing more. */
  predicate TakesNothing(sv: ServerSide, up: seq<Byte>, sv': ServerSide) {
    sv'.retiring && FirstBytes(sv', up) && !TakesMore(sv', up) && |sv'.log| == |sv.log|
  }

  lemma NothingTaken(sv: ServerSide, up: seq<Byte>, n: nat)
    requires sv.retiring && FirstBytes(sv, up) && !TakesMore(sv, up)
    ensures TakesNothing(sv, up, ServerTake(sv, up, n))
  {
    if sv.s.First? && sv.upAt + n <= |up| {
      assert up[0..sv.upAt + n] == up[..sv.upAt + n];
    }
  }

  lemma NothingWaited(sv: ServerSide, up: seq<Byte>, e: ServerEvent)
    requires sv.retiring && FirstBytes(sv, up) && !TakesMore(sv, up)
    requires e.AfterCall? || e.IdleEnds? || e.AnswerAsk? || e.Deliver? || e.RetireNow? || e.ExpireNow? || e.Stop?
    ensures TakesNothing(sv, up, ServerStep(sv, up, e))
  {
  }

  lemma NothingLate(sv: ServerSide, up: seq<Byte>)
    requires sv.retiring && !TakesMore(sv, up) && sv.s.Late?
    ensures TakesNothing(sv, up, ServerLateEnds(sv, up))
  {
    var got := Gathered(up, sv.upAt, 4);
    if sv.s.have == 4 && |got| == 4 && !sv.expired {
      assert got == up[sv.upAt - 4..sv.upAt] && !Callable(Word32(got));
    }
  }

  lemma NothingServed(sv: ServerSide, up: seq<Byte>, e: ServerEvent)
    requires sv.retiring && FirstBytes(sv, up) && !TakesMore(sv, up)
    requires e.Length? || e.Admit? || e.Refuse? || e.Dispatch? || e.Respond? || e.Offer? || e.Close? || e.Abandon?
    ensures TakesNothing(sv, up, ServerStep(sv, up, e))
  {
  }

  lemma {:induction false} NothingMore(sv: ServerSide, up: seq<Byte>, es: seq<ServerEvent>)
    requires sv.retiring && FirstBytes(sv, up) && !TakesMore(sv, up)
    ensures |ServerRun(sv, up, es).log| == |sv.log|
    decreases |es|
  {
    if es != [] {
      var e := es[0];
      if e.Take? {
        NothingTaken(sv, up, e.n);
      } else if e.Length? || e.Admit? || e.Refuse? || e.Dispatch? || e.Respond? || e.Offer? || e.Close? || e.Abandon? {
        NothingServed(sv, up, e);
      } else if !e.LateEnds? {
        NothingWaited(sv, up, e);
      } else if sv.s.Late? {
        NothingLate(sv, up);
      }
      NothingMore(ServerStep(sv, up, e), up, es[1..]);
    }
  }

  /** How a server that takes a request comes to record it. */
  function Taking(sv: ServerSide, up: seq<Byte>): (es: seq<ServerEvent>) {
    match sv.s
    case Starting(_) => [Deliver]
    case Late(have) => if have <= 4 then [Take(4 - have), LateEnds, Deliver] else []
    case Deciding(_) => [AnswerAsk(false, None)]
    case First(have) =>
      if have == 0 then
        if up != [] && up[0] < 128 then [Take(1)] else [Take(1), Take(3), AnswerAsk(false, None)]
      else if have < 4 then [Take(4 - have), AnswerAsk(false, None)]
      else []
    case _ => []
  }

  /** A session that lets a request finish its header after an idle timeout serves it,
      also if it was asked to retire in between. */
  lemma BegunIsServed(sv: ServerSide, up: seq<Byte>)
    requires sv.s.Late? && TakesMore(sv, up)
    ensures |ServerRun(sv, up, Taking(sv, up)).log| == |sv.log| + 1
  {
    var at := sv.upAt + 4 - sv.s.have;
    var read := sv.(upAt := at, s := Late(4));
    assert ServerStep(sv, up, Take(4 - sv.s.have)) == read;
    assert Gathered(up, at, 4) == up[at - 4..at];
    var started := read.(s := Starting(Word32(up[at - 4..at])));
    assert ServerStep(read, up, LateEnds) == started;
    Three(sv, up, Take(4 - sv.s.have), LateEnds, Deliver);
  }

  /** Four bytes of a first request that are not the closing marker. */
  lemma FirstFourTaken(sv: ServerSide, up: seq<Byte>)
    requires sv.s.First? && FirstBytes(sv, up) && 0 < sv.s.have && 4 <= |up| && Word32(up[..4]) != CLOSING
    ensures ServerStep(sv, up, Take(4 - sv.s.have)) == sv.(upAt := 4, s := Deciding(Word32(up[..4])))
  {
    assert Gathered(up, 4, 4) == up[..4];
  }

  lemma FirstOneTaken(sv: ServerSide, up: seq<Byte>)
    requires sv.s == First(0) && FirstBytes(sv, up) && up != []
    ensures ServerStep(sv, up, Take(1)) ==
            if up[0] < 128 then sv.(upAt := 1, s := Reading(0, Direct([up[0]], 1)), log := sv.log + [Entry(None, None)])
            else sv.(upAt := 1, s := First(1))
  {
    assert Gathered(up, 1, 1) == [up[0]];
    FirstOneIs(sv.(upAt := 1), up[0]);
  }

  lemma FirstOneIs(sv: ServerSide, b: Byte)
    ensures TakeFirst(sv, [b]) ==
            if b < 128 then sv.(s := Reading(0, Direct([b], 1)), log := sv.log + [Entry(None, None)]) else sv.(s := First(1))
  {
  }

  lemma FirstTakes(sv: ServerSide, up: seq<Byte>)
    requires sv.s.First? && FirstBytes(sv, up) && TakesMore(sv, up)
    ensures |ServerRun(sv, up, Taking(sv, up)).log| == |sv.log| + 1
  {
    if 0 < sv.s.have {
      RestTakes(sv, up);
    } else {
      FirstOneTaken(sv, up);
      if up[0] < 128 {
        One(sv, up, Take(1));
      } else {
        HeaderTakes(sv, up);
      }
    }
  }

  lemma RestTakes(sv: ServerSide, up: seq<Byte>)
    requires sv.s.First? && FirstBytes(sv, up) && TakesMore(sv, up) && 0 < sv.s.have
    ensures |ServerRun(sv, up, Taking(sv, up)).log| == |sv.log| + 1
  {
    FirstFourTaken(sv, up);
    Two(sv, up, Take(4 - sv.s.have), AnswerAsk(false, None));
  }

  lemma HeaderTakes(sv: ServerSide, up: seq<Byte>)
    requires sv.s == First(0) && FirstBytes(sv, up) && TakesMore(sv, up) && up != [] && 128 <= up[0]
    requires ServerStep(sv, up, Take(1)) == sv.(upAt := 1, s := First(1))
    ensures |ServerRun(sv, up, Taking(sv, up)).log| == |sv.log| + 1
  {
    FirstFourTaken(sv.(upAt := 1, s := First(1)), up);
    Three(sv, up, Take(1), Take(3), AnswerAsk(false, None));
  }

  lemma One(sv: ServerSide, up: seq<Byte>, a: ServerEvent)
    ensures ServerRun(sv, up, [a]) == ServerStep(sv, up, a)
  {
    var es := [a];
    assert es[1..] == [];
  }

  lemma Two(sv: ServerSide, up: seq<Byte>, a: ServerEvent, b: ServerEvent)
    ensures ServerRun(sv, up, [a, b]) == ServerStep(ServerStep(sv, up, a), up, b)
  {
    var es := [a, b];
    assert es[1..] == [b];
    One(ServerStep(sv, up, a), up, b);
  }

  lemma Three(sv: ServerSide, up: seq<Byte>, a: ServerEvent, b: ServerEvent, c: ServerEvent)
    ensures ServerRun(sv, up, [a, b, c]) == ServerStep(ServerStep(ServerStep(sv, up, a), up, b), up, c)
  {
    var es := [a, b, c];
    assert es[1..] == [b, c];
    Two(ServerStep(sv, up, a), up, b, c);
  }

  /** A retired server takes a request exactly in the states named: for the bytes
      the client has sent, some run records a further call if and only if it does. */
  lemma RetiredExactly(plain: bool, reqs: seq<Request>, up: seq<Byte>, sv: ServerSide)
    requires ServerAll(plain, reqs, up, sv) && sv.retiring
    ensures (exists es :: |sv.log| < |ServerRun(sv, up, es).log|) <==> TakesMore(sv, up)
  {
    if TakesMore(sv, up) {
      match sv.s {
        case Starting(_) => One(sv, up, Deliver);
        case Deciding(_) => One(sv, up, AnswerAsk(false, None));
        case Late(_) => BegunIsServed(sv, up);
        case First(_) => FirstTakes(sv, up);
        case _ =>
      }
      assert |sv.log| < |ServerRun(sv, up, Taking(sv, up)).log|;
    } else {
      forall es ensures |ServerRun(sv, up, es).log| == |sv.log| {
        NothingMore(sv, up, es);
      }
    }
  }

  /** A session asked to retire right after it accepted, or between reading a header
      and handing out its call, still serves that call. */
  lemma StartedIsServed(plain: bool, reqs: seq<Request>, up: seq<Byte>, sv: ServerSide)
    requires ServerAll(plain, reqs, up, sv) && sv.s.Starting? && Header(reqs[|sv.log|]) != CLOSING
    ensures ServerRun(sv, up, [RetireNow, Deliver]).log == sv.log + [Entry(None, None)]
  {
    var r := reqs[|sv.log|];
    RequestHeaderFields(|r.frame|, r.oneWay);
    Two(sv, up, RetireNow, Deliver);
  }

  // -------------------------------------------------- what a retired server still says

  /** No answer under way says that the session continues. */
  predicate PromisesNothing(sv: ServerSide) {
    sv.retiring && (sv.s.Replying? ==> !sv.s.r.continued)
  }

  predicate KeepsNothing(sv: ServerSide, sv': ServerSide) {
    PromisesNothing(sv') && sv'.wired == sv.wired
  }

  lemma UnkeptWrite(r: Reply, p: seq<Byte>)
    requires |r.out| <= 4 && !r.continued
    ensures !WriteStep(r, p, false).reply.continued
  {
  }

  lemma UnkeptOffer(sv: ServerSide, n: nat, cut: Option<nat>)
    requires PromisesNothing(sv)
    ensures KeepsNothing(sv, ServerOffer(sv, n, cut))
  {
    if sv.s.Replying? && sv.s.view.InCall? && sv.s.offered + n <= 4 + |sv.s.body| && |sv.s.r.out| <= 4 {
      UnkeptWrite(sv.s.r, (Be32(|sv.s.body|) + sv.s.body)[sv.s.offered..sv.s.offered + n]);
    }
  }

  lemma UnkeptTake(sv: ServerSide, up: seq<Byte>, n: nat)
    requires PromisesNothing(sv)
    ensures KeepsNothing(sv, ServerTake(sv, up, n))
  {
  }

  lemma UnkeptElse(sv: ServerSide, up: seq<Byte>, e: ServerEvent)
    requires PromisesNothing(sv) && !e.Offer? && !e.Take?
    ensures KeepsNothing(sv, ServerStep(sv, up, e))
  {
  }

  /** Once a session is asked to retire, no answer but one whose header is out already
      says that it continues. */
  lemma {:induction false} RetiredKeepsNothing(sv: ServerSide, up: seq<Byte>, es: seq<ServerEvent>)
    requires PromisesNothing(sv)
    ensures ServerRun(sv, up, es).wired == sv.wired
    decreases |es|
  {
    if es != [] {
      if es[0].Offer? {
        UnkeptOffer(sv, es[0].n, es[0].cut);
      } else if es[0].Take? {
        UnkeptTake(sv, up, es[0].n);
      } else {
        UnkeptElse(sv, up, es[0]);
      }
      RetiredKeepsNothing(ServerStep(sv, up, es[0]), up, es[1..]);
    }
  }
}
