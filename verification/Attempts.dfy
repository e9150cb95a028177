/** How many requests a call makes: up to three on sessions and one plain exchange,
    and none left exactly when three of them met a closing marker
    (listen/pool.go:175-283, listen/framed.go:243-304). */
module Attempts {
  import opened Options
  import opened Links
  import opened LinkInvariant
  import opened ClientSteps
  import opened LinkRuns
  import opened Worlds

  /** The requests made for a call, on any connection. */
  function Made(w: World, c: nat): set<Place> {
    set i, k | 0 <= i < |w.links| && 0 <= k < |w.links[i].cl.reqs| && w.links[i].cl.reqs[k].call == c :: Place(i, k)
  }

  /** What the client learned of a request. */
  function LearnedAt(w: World, p: Place): Option<Outcome> {
    if p.link < |w.links| && p.k < |w.links[p.link].cl.outcomes| then Some(w.links[p.link].cl.outcomes[p.k]) else None
  }

  predicate AllRetried(w: World, ps: set<Place>) {
    forall p :: p in ps ==> LearnedAt(w, p) == Some(Retry)
  }

  predicate Plainly(w: World, p: Place) {
    p.link < |w.links| && w.links[p.link].cl.plain
  }

  /** Some request of the call went unanswered. */
  predicate Unanswered(w: World, ps: set<Place>) {
    exists p :: p in ps && LearnedAt(w, p) == Some(NoSession)
  }

  /** A call's account: the requests it made, and what became of all but the one it
      waits for. */
  predicate Account(w: World, c: nat)
    requires c < |w.calls|
  {
    var made, call := Made(w, c), w.calls[c];
    && |made| == call.attempts
    && match call.at
       case Ready(plain) =>
         if plain then |made| <= 3 && (made == {} || Unanswered(w, made)) else |made| < 3 && AllRetried(w, made)
       case On(p) =>
         && p in made
         && if Plainly(w, p) then |made| <= 4 && (made == {p} || Unanswered(w, made - {p}))
            else |made| <= 3 && AllRetried(w, made - {p})
       case Finished(_, last) =>
         if last.None? then |made| == 3 && AllRetried(w, made)
         else last.value in made && |made| <= 4 && LearnedAt(w, last.value).Some? && LearnedAt(w, last.value) != Some(Retry)
  }

  /** The connections go on: requests and outcomes are only added. */
  predicate GoesOn(l: Link, l': Link) {
    && l'.cl.plain == l.cl.plain && |l.cl.reqs| <= |l'.cl.reqs| && l'.cl.reqs[..|l.cl.reqs|] == l.cl.reqs
    && |l.cl.outcomes| <= |l'.cl.outcomes| && l'.cl.outcomes[..|l.cl.outcomes|] == l.cl.outcomes
  }

  predicate AllGoOn(w: World, w': World) {
    |w.links| <= |w'.links| && forall i :: 0 <= i < |w.links| ==> GoesOn(w.links[i], w'.links[i])
  }

  lemma LearnedStays(w: World, w': World, p: Place)
    requires AllGoOn(w, w') && LearnedAt(w, p).Some?
    ensures LearnedAt(w', p) == LearnedAt(w, p)
  {
    var l, l' := w.links[p.link], w'.links[p.link];
    assert GoesOn(l, l');
    assert l'.cl.outcomes[p.k] == l'.cl.outcomes[..|l.cl.outcomes|][p.k];
  }

  lemma RetriedStay(w: World, w': World, ps: set<Place>)
    requires AllGoOn(w, w')
    ensures AllRetried(w, ps) ==> AllRetried(w', ps)
    ensures Unanswered(w, ps) ==> Unanswered(w', ps)
  {
    forall p | p in ps && LearnedAt(w, p).Some?
      ensures LearnedAt(w', p) == LearnedAt(w, p)
    {
      LearnedStays(w, w', p);
    }
  }

  lemma PlainlyStays(w: World, w': World, p: Place)
    requires AllGoOn(w, w') && p.link < |w.links|
    ensures Plainly(w', p) == Plainly(w, p)
  {
    assert GoesOn(w.links[p.link], w'.links[p.link]);
  }

  lemma MadeThere(w: World, c: nat, p: Place)
    requires p in Made(w, c)
    ensures p.link < |w.links| && p.k < |w.links[p.link].cl.reqs| && w.links[p.link].cl.reqs[p.k].call == c
  {
  }

  /** A call that is left as it is, with the requests it made. */
  lemma AccountStays(w: World, w': World, c: nat)
    requires AllGoOn(w, w') && c < |w.calls| && c < |w'.calls| && w'.calls[c] == w.calls[c]
    requires Account(w, c) && Made(w', c) == Made(w, c)
    ensures Account(w', c)
  {
    var made := Made(w, c);
    RetriedStay(w, w', made);
    match w.calls[c].at
    case On(p) =>
      RetriedStay(w, w', made - {p});
      MadeThere(w, c, p);
      PlainlyStays(w, w', p);
    case Finished(_, last) =>
      if last.Some? {
        LearnedStays(w, w', last.value);
      }
    case Ready(_) =>
  }

  /** The requests of connections that went on without a new one. */
  lemma SameMade(w: World, w': World, c: nat)
    requires |w'.links| == |w.links| && forall i :: 0 <= i < |w.links| ==> w'.links[i].cl.reqs == w.links[i].cl.reqs
    ensures Made(w', c) == Made(w, c)
  {
    forall p
      ensures p in Made(w', c) <==> p in Made(w, c)
    {
    }
  }

  /** One request more, at place p for call d. */
  predicate OneMade(w: World, w': World, p: Place, d: nat) {
    && AllGoOn(w, w') && p.link < |w'.links| && p.k < |w'.links[p.link].cl.reqs| && w'.links[p.link].cl.reqs[p.k].call == d
    && |w'.links| == (if p.link == |w.links| then |w.links| + 1 else |w.links|)
    && (forall i :: 0 <= i < |w.links| && i != p.link ==> w'.links[i].cl.reqs == w.links[i].cl.reqs)
    && |w'.links[p.link].cl.reqs| == p.k + 1 && (p.link < |w.links| ==> |w.links[p.link].cl.reqs| == p.k) && (p.link == |w.links| ==> p.k == 0)
  }

  lemma MoreMade(w: World, w': World, p: Place, d: nat, c: nat)
    requires OneMade(w, w', p, d)
    ensures p !in Made(w, c) && Made(w', c) == if c == d then Made(w, c) + {p} else Made(w, c)
  {
    forall q
      ensures q in Made(w', c) <==> q in Made(w, c) || (c == d && q == p)
    {
      if q.link < |w.links| {
        assert GoesOn(w.links[q.link], w'.links[q.link]);
        if q.k < |w.links[q.link].cl.reqs| {
          assert w'.links[q.link].cl.reqs[q.k] == w'.links[q.link].cl.reqs[..|w.links[q.link].cl.reqs|][q.k];
        }
      }
    }
  }

  /** The call that makes it. */
  lemma AccountPlaced(w: World, w': World, c: nat, p: Place)
    requires c < |w.calls| && Account(w, c) && MayTry(w, c) && OneMade(w, w', p, c) && w'.calls == Placed(w, c, p)
    requires Plainly(w', p) == w.calls[c].at.plain
    ensures Account(w', c)
  {
    MoreMade(w, w', p, c, c);
    assert Made(w', c) - {p} == Made(w, c);
    RetriedStay(w, w', Made(w, c));
  }

  lemma AccountCollected(w: World, c: nat)
    requires c < |w.calls| && Account(w, c) && w.calls[c].at.On? && LearnedAt(w, w.calls[c].at.place).Some?
    requires Plainly(w, w.calls[c].at.place) ==>
               LearnedAt(w, w.calls[c].at.place) != Some(Retry) && LearnedAt(w, w.calls[c].at.place) != Some(NoSession)
    ensures var o := LearnedAt(w, w.calls[c].at.place).value;
            Account(w.(calls := w.calls[c := w.calls[c].(at := After(w.calls[c], o, w.calls[c].at.place))]), c)
  {
    var p := w.calls[c].at.place;
    var o := LearnedAt(w, p).value;
    var w' := w.(calls := w.calls[c := w.calls[c].(at := After(w.calls[c], o, p))]);
    SameMade(w, w', c);
    RetriedStay(w, w', Made(w, c));
    RetriedStay(w, w', Made(w, c) - {p});
    assert LearnedAt(w', p) == Some(o);
    if o.Retry? {
      WithOne(w', Made(w, c), p);
    } else if o.NoSession? {
      assert Unanswered(w', Made(w, c));
    }
  }

  lemma WithOne(w: World, ps: set<Place>, p: Place)
    requires p in ps && AllRetried(w, ps - {p}) && LearnedAt(w, p) == Some(Retry)
    ensures AllRetried(w, ps)
  {
    assert ps == ps - {p} + {p};
  }

  // ---------------------------------------------------------------- over every run

  ghost predicate LinksRetry(links: seq<Link>) {
    forall i :: 0 <= i < |links| ==> RetriesOk(links[i])
  }

  lemma LinksRetryKeep(w: World, e: Event)
    requires LinksInv(w.links) && LinksRetry(w.links)
    ensures LinksRetry(WorldStep(w, e).links)
  {
    match e
    case Open(c, wrapped) => if MayTry(w, c) { RetryPush(w.links, Dial(Asked(w, c), w.calls[c].at.plain, wrapped)); }
    case Pick(c, i) => if i < |w.links| && MayTry(w, c) { RetryMoves(w.links, i, FromClient(Reuse(Asked(w, c)))); }
    case Wire(i, le) => if i < |w.links| { RetryMoves(w.links, i, le); }
    case _ =>
  }

  lemma RetryPush(links: seq<Link>, l: Link)
    requires LinksRetry(links) && l.cl.outcomes == []
    ensures LinksRetry(links + [l])
  {
  }

  lemma RetryMoves(links: seq<Link>, i: nat, e: LinkEvent)
    requires LinksInv(links) && LinksRetry(links) && i < |links|
    ensures LinksRetry(links[i := LinkStep(links[i], e)])
  {
    RetriesStep(links[i], e);
  }

  lemma WireGoesOn(w: World, i: nat, le: LinkEvent)
    requires i < |w.links| && !(le.FromClient? && le.ce.Reuse?)
    ensures var w' := WorldStep(w, Event.Wire(i, le));
            AllGoOn(w, w') && |w'.links| == |w.links| && forall j :: 0 <= j < |w.links| ==> w'.links[j].cl.reqs == w.links[j].cl.reqs
  {
    if le.FromClient? {
      ClientExtends(w.links[i].cl, w.links[i].sv.down, w.links[i].sv.s.Over?, le.ce);
      PlainStep(w.links[i], le);
    }
  }

  lemma OpenMakes(w: World, c: nat, wrapped: bool)
    requires MayTry(w, c)
    ensures OneMade(w, WorldStep(w, Open(c, wrapped)), Place(|w.links|, 0), c)
    ensures Plainly(WorldStep(w, Open(c, wrapped)), Place(|w.links|, 0)) == w.calls[c].at.plain
  {
  }

  lemma PooledIsSession(l: Link)
    requires Inv(l) && l.cl.c.Pooled?
    ensures !l.cl.plain
  {
  }

  lemma PickMakes(w: World, c: nat, i: nat)
    requires MayTry(w, c) && !w.calls[c].at.plain && i < |w.links| && w.links[i].cl.c.Pooled? && !w.links[i].cl.plain
    ensures OneMade(w, WorldStep(w, Pick(c, i)), Place(i, |w.links[i].cl.reqs|), c)
    ensures !Plainly(WorldStep(w, Pick(c, i)), Place(i, |w.links[i].cl.reqs|))
  {
  }

  /** A request is made for call d: call c keeps its account. */
  lemma AccountMade(w: World, w': World, p: Place, d: nat, c: nat)
    requires c < |w.calls| && Account(w, c) && MayTry(w, d) && OneMade(w, w', p, d) && w'.calls == Placed(w, d, p)
    requires Plainly(w', p) == w.calls[d].at.plain
    ensures Account(w', c)
  {
    if c == d {
      AccountPlaced(w, w', c, p);
    } else {
      MoreMade(w, w', p, d, c);
      AccountStays(w, w', c);
    }
  }

  lemma AccountArrives(w: World, w': World, c: nat)
    requires Ledger(w) && w'.links == w.links && c < |w'.calls| && |w'.calls| == |w.calls| + 1 && w'.calls[..|w.calls|] == w.calls
    requires w'.calls[|w.calls|].attempts == 0 && w'.calls[|w.calls|].at.Ready?
    requires c < |w.calls| ==> Account(w, c)
    ensures Account(w', c)
  {
    SameMade(w, w', c);
    if c < |w.calls| {
      assert w'.calls[c] == w'.calls[..|w.calls|][c];
      AccountStays(w, w', c);
    } else {
      NoneMade(w, c);
    }
  }

  lemma MadeForACall(w: World, c: nat, p: Place)
    requires Ledger(w) && p in Made(w, c)
    ensures c < |w.calls|
  {
    MadeThere(w, c, p);
    assert LinkOk(w.links[p.link], p.link, w.calls);
    assert RequestOk(w.links[p.link], p.link, p.k, w.calls);
  }

  lemma NoneMade(w: World, c: nat)
    requires Ledger(w)
    ensures Made(w, c) == {} || c < |w.calls|
  {
    if p :| p in Made(w, c) {
      MadeForACall(w, c, p);
    }
  }

  lemma AccountCollects(w: World, d: nat, c: nat)
    requires c < |w.calls| && Account(w, c) && LinksRetry(w.links)
    ensures Intact(w, Collect(d), c)
  {
    if c == d && w.calls[c].at.On? && LearnedAt(w, w.calls[c].at.place).Some? {
      var p := w.calls[c].at.place;
      assert RetriesOk(w.links[p.link]);
      AccountCollected(w, c);
      CollectIs(w, c);
    } else {
      AccountUncollected(w, d, c);
    }
  }

  lemma CollectIs(w: World, c: nat)
    requires c < |w.calls| && w.calls[c].at.On? && LearnedAt(w, w.calls[c].at.place).Some?
    ensures var o := LearnedAt(w, w.calls[c].at.place).value;
            WorldStep(w, Collect(c)) == w.(calls := w.calls[c := w.calls[c].(at := After(w.calls[c], o, w.calls[c].at.place))])
  {
  }

  lemma AccountUncollected(w: World, d: nat, c: nat)
    requires c < |w.calls| && Account(w, c) && !(c == d && w.calls[c].at.On? && LearnedAt(w, w.calls[c].at.place).Some?)
    ensures Intact(w, Collect(d), c)
  {
    var w' := WorldStep(w, Collect(d));
    SameMade(w, w', c);
    AccountStays(w, w', c);
  }

  lemma AccountKeeps(w: World, e: Event, c: nat)
    requires LinksInv(w.links) && LinksRetry(w.links) && Ledger(w) && e != GiveUp(c)
    requires c < |w.calls| ==> Account(w, c)
    ensures c < |WorldStep(w, e).calls| ==> Intact(w, e, c)
  {
    if e.Arrive? {
      AccountBegins(w, e, c);
    } else if c < |w.calls| {
      AccountServes(w, e, c);
    } else {
      NoNewCalls(w, e);
    }
  }

  lemma NoNewCalls(w: World, e: Event)
    requires !e.Arrive?
    ensures |WorldStep(w, e).calls| == |w.calls|
  {
  }

  lemma AccountBegins(w: World, e: Event, c: nat)
    requires Ledger(w) && e.Arrive? && (c < |w.calls| ==> Account(w, c))
    ensures c < |WorldStep(w, e).calls| ==> Intact(w, e, c)
  {
    if c <= |w.calls| {
      AccountArrives(w, WorldStep(w, e), c);
    }
  }

  lemma AccountServes(w: World, e: Event, c: nat)
    requires LinksInv(w.links) && LinksRetry(w.links) && e != GiveUp(c) && !e.Arrive? && c < |w.calls| && Account(w, c)
    ensures Intact(w, e, c)
  {
    if e.Open? {
      AccountOpens(w, e.c, e.wrapped, c);
    } else if e.Pick? {
      AccountPicks(w, e.c, e.i, c);
    } else if e.Collect? {
      AccountCollects(w, e.c, c);
    } else if e.GiveUp? {
      AccountLeaves(w, e.c, c);
    } else {
      AccountWires(w, e.i, e.e, c);
    }
  }

  /** Call c is there after this step, with its account. */
  predicate Intact(w: World, e: Event, c: nat) {
    var w' := WorldStep(w, e);
    c < |w'.calls| && Account(w', c)
  }

  lemma AccountOpens(w: World, d: nat, wrapped: bool, c: nat)
    requires c < |w.calls| && Account(w, c)
    ensures Intact(w, Open(d, wrapped), c)
  {
    if MayTry(w, d) {
      OpenMakes(w, d, wrapped);
      AccountMade(w, WorldStep(w, Open(d, wrapped)), Place(|w.links|, 0), d, c);
    }
  }

  lemma AccountPicks(w: World, d: nat, i: nat, c: nat)
    requires c < |w.calls| && Account(w, c) && LinksInv(w.links)
    ensures Intact(w, Pick(d, i), c)
  {
    if MayTry(w, d) && !w.calls[d].at.plain && i < |w.links| && w.links[i].cl.c.Pooled? {
      PooledIsSession(w.links[i]);
      PickMakes(w, d, i);
      AccountMade(w, WorldStep(w, Pick(d, i)), Place(i, |w.links[i].cl.reqs|), d, c);
    }
  }

  lemma AccountLeaves(w: World, d: nat, c: nat)
    requires c < |w.calls| && Account(w, c) && d != c
    ensures Intact(w, GiveUp(d), c)
  {
    var w' := WorldStep(w, GiveUp(d));
    SameMade(w, w', c);
    AccountStays(w, w', c);
  }

  lemma AccountWires(w: World, i: nat, le: LinkEvent, c: nat)
    requires c < |w.calls| && Account(w, c)
    ensures Intact(w, Event.Wire(i, le), c)
  {
    if i < |w.links| && !(le.FromClient? && le.ce.Reuse?) {
      var w' := WorldStep(w, Event.Wire(i, le));
      WireGoesOn(w, i, le);
      SameMade(w, w', c);
      AccountStays(w, w', c);
    }
  }

  lemma {:induction false} AccountRun(w: World, es: seq<Event>, c: nat)
    requires LinksInv(w.links) && LinksRetry(w.links) && Ledger(w) && GiveUp(c) !in es
    requires c < |w.calls| ==> Account(w, c)
    ensures var w' := WorldRun(w, es); Ledger(w') && (c < |w'.calls| ==> Account(w', c))
    decreases |es|
  {
    if es != [] {
      LinksKeep(w, es[0]);
      LinksRetryKeep(w, es[0]);
      LedgerKeeps(w, es[0]);
      AccountKeeps(w, es[0], c);
      AccountRun(WorldStep(w, es[0]), es[1..], c);
    }
  }

  /** In every run: a call that does not give up for want of a server, and waits for
      nothing, has ended without an answer exactly if it made three requests and each
      met a closing marker. */
  lemma EndsExactly(es: seq<Event>, c: nat)
    requires c < |WorldRun(EMPTY, es).calls| && GiveUp(c) !in es
    ensures var w := WorldRun(EMPTY, es);
            w.calls[c].at.Finished? && w.calls[c].at.last.None? <==>
              !w.calls[c].at.On? && |Made(w, c)| == 3 && AllRetried(w, Made(w, c))
  {
    var w := WorldRun(EMPTY, es);
    AccountRun(EMPTY, es, c);
    assert Account(w, c);
  }

  /** And it never makes more than four: three on sessions, and a plain exchange. */
  lemma AtMostFour(es: seq<Event>, c: nat)
    requires c < |WorldRun(EMPTY, es).calls| && GiveUp(c) !in es
    ensures |Made(WorldRun(EMPTY, es), c)| == WorldRun(EMPTY, es).calls[c].attempts <= 4
  {
    AccountRun(EMPTY, es, c);
    assert Account(WorldRun(EMPTY, es), c);
  }
}
