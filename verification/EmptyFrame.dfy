/** The one exception to at-most-once: a call with an empty frame. Its session
    header is the whole request, so the server may dispatch it before the client
    has read the answer; where a failed check of the server keeps the client from
    reading that answer (listen/server.go:139-147, listen/pool.go:216-218), the
    call is repeated as a plain exchange and dispatched again. */
module EmptyFrames {
  import opened Options
  import opened Wire
  import opened SessionCalls
  import opened Links
  import opened Worlds

  const ASKED := Request(0, [], false)
  const OPENING: seq<Byte> := [128, 0, 0, 0]
  const LENGTH: seq<Byte> := [0, 0, 0, 0]

  lemma Spelling()
    ensures Sent(false, ASKED) == OPENING && Sent(true, ASKED) == LENGTH
    ensures Word32(OPENING) == SESSION_FLAG && Word32(LENGTH) == 0
  {
    Digits(Header(ASKED));
    Digits(0);
    FourBytes(OPENING);
    FourBytes(LENGTH);
  }

  // The session request: asked, accepted, dispatched, and its answer lost.

  const CLIENT0 := ClientSide(false, [], 0, [ASKED], [], Opening(4), false)
  const CLIENT1 := CLIENT0.(up := OPENING, c := AwaitAnswer(0))
  const CLIENT2 := CLIENT1.(outcomes := [NoSession], c := Gone, lossy := true)
  const SERVER0 := ServerSide(0, [], First(0), None, [], Nothing, [], false, false)
  const SERVER1 := SERVER0.(upAt := 1, s := First(1))
  const SERVER2 := SERVER1.(upAt := 4, s := Deciding(SESSION_FLAG))
  const SERVER3 := SERVER2.(down := [] + Be32(ACCEPT), lead := Some(ACCEPT), s := Starting(SESSION_FLAG))
  const SERVER4 := SERVER3.(s := Admitting(0, InCall(false)), log := [Entry(None, None)])
  const SERVER5 := SERVER4.(s := Body(0, 0, InCall(false)))
  const SERVER6 := SERVER5.(s := Running(InCall(false)), log := [Entry(Some([]), None)])

  lemma AskingSteps()
    ensures ClientWrite(CLIENT0, 4) == CLIENT1 && ClientLoses(CLIENT1, SERVER6.down, false, false) == CLIENT2
  {
    Spelling();
    assert Piece(CLIENT0, 4, 4) == OPENING[0..4] == OPENING;
    assert [] + OPENING == OPENING && [] + [NoSession] == [NoSession];
  }

  lemma FirstByteStep()
    ensures ServerTake(SERVER0, OPENING, 1) == SERVER1
  {
    assert Gathered(OPENING, 1, 1) == [128];
  }

  lemma HeaderStep()
    ensures ServerTake(SERVER1, OPENING, 3) == SERVER2
  {
    Spelling();
    var l := SERVER1.(upAt := 4);
    assert Gathered(OPENING, 4, 4) == OPENING;
    assert TakeFirst(l, OPENING) == l.(s := Deciding(SESSION_FLAG));
  }

  lemma ServingSteps()
    ensures ServerAnswer(SERVER2, true, None) == SERVER3 && ServerDeliver(SERVER3) == SERVER4
    ensures ServerStep(SERVER4, OPENING, Admit(0)) == SERVER5 && ServerDispatch(SERVER5, OPENING) == SERVER6
  {
    assert [] + [Entry(None, None)] == [Entry(None, None)];
    assert Gathered(OPENING, 4, 0) == [];
    assert SERVER5.log[0 := Entry(Some([]), None)] == [Entry(Some([]), None)];
  }

  function OneLink(cl: ClientSide, sv: ServerSide, at: At): World {
    World([Link(cl, sv)], [Call([], false, 1, at)])
  }

  lemma OnFirst(cl: ClientSide, sv: ServerSide, e: LinkEvent, cl': ClientSide, sv': ServerSide)
    requires Reachable(OneLink(cl, sv, On(Place(0, 0)))) && !(e.FromClient? && e.ce.Reuse?)
    requires LinkStep(Link(cl, sv), e) == Link(cl', sv')
    ensures Reachable(OneLink(cl', sv', On(Place(0, 0))))
  {
    var w := OneLink(cl, sv, On(Place(0, 0)));
    ReachStep(w, Wire(0, e));
    assert WorldStep(w, Wire(0, e)) == OneLink(cl', sv', On(Place(0, 0)));
  }

  lemma Asking()
    ensures Reachable(OneLink(CLIENT1, SERVER2, On(Place(0, 0))))
  {
    Opened();
    AskingSteps();
    OnFirst(CLIENT0, SERVER0, FromClient(Write(4)), CLIENT1, SERVER0);
    FirstByteStep();
    OnFirst(CLIENT1, SERVER0, FromServer(Take(1)), CLIENT1, SERVER1);
    HeaderStep();
    OnFirst(CLIENT1, SERVER1, FromServer(Take(3)), CLIENT1, SERVER2);
  }

  lemma FirstAttempt()
    ensures Reachable(OneLink(CLIENT2, SERVER6, On(Place(0, 0))))
  {
    Asking();
    ServingSteps();
    OnFirst(CLIENT1, SERVER2, FromServer(AnswerAsk(true, None)), CLIENT1, SERVER3);
    OnFirst(CLIENT1, SERVER3, FromServer(Deliver), CLIENT1, SERVER4);
    OnFirst(CLIENT1, SERVER4, FromServer(Admit(0)), CLIENT1, SERVER5);
    OnFirst(CLIENT1, SERVER5, FromServer(Dispatch), CLIENT1, SERVER6);
    AskingSteps();
    OnFirst(CLIENT1, SERVER6, FromClient(LoseAnswer(false)), CLIENT2, SERVER6);
  }

  lemma Opened()
    ensures Reachable(OneLink(CLIENT0, SERVER0, On(Place(0, 0))))
  {
    assert WorldRun(EMPTY, []) == EMPTY;
    ReachStep(EMPTY, Arrive([], false, false));
    var w := World([], [Call([], false, 0, Ready(false))]);
    assert WorldStep(EMPTY, Arrive([], false, false)) == w;
    ReachStep(w, Open(0, true));
    assert WorldStep(w, Open(0, true)) == OneLink(CLIENT0, SERVER0, On(Place(0, 0)));
  }

  // The plain exchange that repeats it.

  const PLAIN0 := ClientSide(true, [], 0, [ASKED], [], Sending(4, true), false)
  const PLAIN1 := PLAIN0.(up := LENGTH, c := AwaitHeader(0, true))
  const ONCE0 := ServerSide(0, [], Reading(0, Direct([], 0)), None, [], Nothing, [Entry(None, None)], false, false)
  const ONCE1 := ONCE0.(upAt := 4, s := Reading(4, Direct([], 0)))
  const ONCE2 := ONCE1.(s := Admitting(0, Direct([], 0)))
  const ONCE3 := ONCE2.(s := Body(0, 0, Direct([], 0)))
  const ONCE4 := ONCE3.(s := Running(Direct([], 0)), log := [Entry(Some([]), None)])

  lemma PlainWrite()
    ensures ClientWrite(PLAIN0, 4) == PLAIN1
  {
    Spelling();
    assert Piece(PLAIN0, 4, 4) == LENGTH[0..4] == LENGTH;
    assert [] + LENGTH == LENGTH;
  }

  lemma PlainLength()
    ensures ServerLength(ONCE1, LENGTH, 1, None) == ONCE2
  {
    Spelling();
    assert FirstFour(LENGTH, [], 0) == LENGTH by {
      assert LENGTH[0..] == LENGTH && LENGTH[..4] == LENGTH;
    }
  }

  lemma PlainServe()
    ensures ServerTake(ONCE0, LENGTH, 4) == ONCE1
    ensures ServerStep(ONCE2, LENGTH, Admit(0)) == ONCE3 && ServerDispatch(ONCE3, LENGTH) == ONCE4
  {
    assert Gathered(LENGTH, 4, 0) == [];
    assert ONCE3.log[0 := Entry(Some([]), None)] == [Entry(Some([]), None)];
  }

  function TwoLinks(cl: ClientSide, sv: ServerSide): World {
    World([Link(CLIENT2, SERVER6), Link(cl, sv)], [Call([], false, 2, On(Place(1, 0)))])
  }

  lemma OnSecond(cl: ClientSide, sv: ServerSide, e: LinkEvent, cl': ClientSide, sv': ServerSide)
    requires Reachable(TwoLinks(cl, sv)) && !(e.FromClient? && e.ce.Reuse?)
    requires LinkStep(Link(cl, sv), e) == Link(cl', sv')
    ensures Reachable(TwoLinks(cl', sv'))
  {
    ReachStep(TwoLinks(cl, sv), Wire(1, e));
    assert WorldStep(TwoLinks(cl, sv), Wire(1, e)) == TwoLinks(cl', sv');
  }

  lemma Reopened()
    ensures Reachable(TwoLinks(PLAIN0, ONCE0))
  {
    FirstAttempt();
    var w := OneLink(CLIENT2, SERVER6, On(Place(0, 0)));
    ReachStep(w, Collect(0));
    var w' := OneLink(CLIENT2, SERVER6, Ready(true));
    assert WorldStep(w, Collect(0)) == w';
    ReachStep(w', Open(0, false));
    assert WorldStep(w', Open(0, false)) == TwoLinks(PLAIN0, ONCE0);
  }

  lemma Resent()
    ensures Reachable(TwoLinks(PLAIN1, ONCE1))
  {
    Reopened();
    PlainWrite();
    OnSecond(PLAIN0, ONCE0, FromClient(Write(4)), PLAIN1, ONCE0);
    PlainServe();
    OnSecond(PLAIN1, ONCE0, FromServer(Take(4)), PLAIN1, ONCE1);
  }

  lemma Measured()
    ensures Reachable(TwoLinks(PLAIN1, ONCE2))
  {
    Resent();
    PlainLength();
    OnSecond(PLAIN1, ONCE1, FromServer(Length(1, None)), PLAIN1, ONCE2);
  }

  lemma SecondAttempt()
    ensures Reachable(TwoLinks(PLAIN1, ONCE4))
  {
    Measured();
    PlainServe();
    OnSecond(PLAIN1, ONCE2, FromServer(Admit(0)), PLAIN1, ONCE3);
    OnSecond(PLAIN1, ONCE3, FromServer(Dispatch), PLAIN1, ONCE4);
  }

  /** Call c was given to a handler as request p and again as request q. */
  predicate Twice(w: World, c: nat, p: Place, q: Place, frame: Frame) {
    c < |w.calls| && w.calls[c].frame == frame && p != q && Dispatched(w, c, p) && Dispatched(w, c, q)
  }

  /** Some run gives a call with this frame to a handler twice exactly when the
      frame is empty. */
  lemma TwiceIffEmpty(frame: Frame)
    ensures (exists es, c, p, q :: Twice(WorldRun(EMPTY, es), c, p, q, frame)) <==> frame == []
  {
    if frame == [] {
      SecondAttempt();
      var es :| WorldRun(EMPTY, es) == TwoLinks(PLAIN1, ONCE4);
      assert Twice(WorldRun(EMPTY, es), 0, Place(0, 0), Place(1, 0), frame);
    } else {
      forall es, c, p, q | Twice(WorldRun(EMPTY, es), c, p, q, frame)
        ensures false
      {
        AtMostOnce(es, c, p, q);
      }
    }
  }
}
