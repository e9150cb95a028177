/** The age of the evidence behind an admitted request, from the verdict cache
    through the binding to the session's deadline (identity_windows.go:182-189,
    bind.go:182, listen/session.go:433-439, 482-488, 648-653). */
module Evidence {
  import opened Verdicts

  const MAX_AGE := LIFETIME  // DefaultSessionMaxAge, also five minutes

  datatype Until = Never | At(t: nat)

  /** The option a listener is given is bounded by the default. */
  function BoundedAge(option: int): (age: nat)
    ensures 0 < age <= MAX_AGE
    ensures age == option <==> 0 < option <= MAX_AGE
    ensures age != option ==> age == MAX_AGE
  {
    if option <= 0 || MAX_AGE < option then MAX_AGE else option
  }

  /** sessionDeadline: the binding's age limit, or the evidence's if that is sooner. */
  function SessionDeadline(boundAt: nat, maxAge: nat, until: Until): (t: nat)
    ensures t <= boundAt + maxAge && (until.At? ==> t <= until.t)
    ensures t == boundAt + maxAge || until == At(t)
  {
    var deadline := boundAt + maxAge;
    if until.At? && until.t < deadline then until.t else deadline
  }

  /** What a binding records of a verdict: the end of the lifetime it began with. */
  function EvidenceUntil(r: Result): Until {
    match r
    case Ok(f) => At(f.at + LIFETIME)
    case Err => Never
  }

  /** A session, bound after the verification of caller i. */
  datatype Session = Session(i: nat, boundAt: nat, option: int, expires: nat)

  /** A frame that passed admission, on which session and when. */
  datatype Admission = Admission(session: nat, at: nat)

  datatype Host = Host(sys: System, sessions: seq<Session>, admitted: seq<Admission>)

  datatype HostEvent = InCache(e: Event) | Bind(i: nat, maxAge: int) | Admit(j: nat)

  function HostStep(h: Host, e: HostEvent): Host {
    match e
    case InCache(ce) => h.(sys := Step(h.sys, ce))
    case Bind(i, maxAge) =>
      if i < |h.sys.callers| && h.sys.callers[i].Done? then
        var now := h.sys.clock;
        h.(sessions := h.sessions + [Session(i, now, maxAge, SessionDeadline(now, BoundedAge(maxAge), EvidenceUntil(h.sys.callers[i].result)))])
      else h
    case Admit(j) =>
      if j < |h.sessions| && h.sys.clock < h.sessions[j].expires then h.(admitted := h.admitted + [Admission(j, h.sys.clock)]) else h
  }

  function HostRun(h: Host, es: seq<HostEvent>): Host
    decreases |es|
  {
    if es == [] then h else HostRun(HostStep(h, es[0]), es[1..])
  }

  /** A session rests on a result its verification handed out, and expires in time. */
  predicate SessionOk(sys: System, s: Session) {
    && s.i < |sys.callers| && sys.callers[s.i].Done? && s.boundAt <= sys.clock && s.expires <= s.boundAt + MAX_AGE
    && (0 < s.option ==> s.expires <= s.boundAt + s.option)
    && (sys.callers[s.i].result.Ok? ==> s.expires <= sys.callers[s.i].result.finding.at + LIFETIME)
    && Latest(s, sys.callers[s.i].result)
  }

  /** And no sooner than the option, the default or the evidence says. */
  predicate Latest(s: Session, r: Result) {
    || (s.expires == s.boundAt + s.option && 0 < s.option <= MAX_AGE)
    || (s.expires == s.boundAt + MAX_AGE && !(0 < s.option <= MAX_AGE))
    || (r.Ok? && s.expires == r.finding.at + LIFETIME)
  }

  predicate AdmissionOk(h: Host, a: Admission) {
    && a.session < |h.sessions| && h.sessions[a.session].boundAt <= a.at < h.sessions[a.session].expires && a.at <= h.sys.clock
    && (h.sessions[a.session].i < |h.sys.callers| && h.sys.callers[h.sessions[a.session].i].Done?
          && h.sys.callers[h.sessions[a.session].i].result.Ok? ==>
          h.sys.callers[h.sessions[a.session].i].result.finding.at <= a.at)
  }

  ghost predicate HostOk(h: Host) {
    && SystemOk(h.sys)
    && (forall j :: 0 <= j < |h.sessions| ==> SessionOk(h.sys, h.sessions[j]))
    && (forall n :: 0 <= n < |h.admitted| ==> AdmissionOk(h, h.admitted[n]))
  }

  /** Results handed out stay as they are, and the clock does not go back. */
  lemma DoneStays(s: System, e: Event, i: nat)
    requires i < |s.callers| && s.callers[i].Done?
    ensures var s' := Step(s, e); s.clock <= s'.clock && i < |s'.callers| && s'.callers[i] == s.callers[i]
  {
  }

  lemma HostKeeps(h: Host, e: HostEvent)
    requires HostOk(h)
    ensures HostOk(HostStep(h, e))
  {
    var h' := HostStep(h, e);
    if e.InCache? {
      StepKeeps(h.sys, e.e);
      forall j | 0 <= j < |h.sessions|
        ensures SessionOk(h'.sys, h.sessions[j])
      {
        assert SessionOk(h.sys, h.sessions[j]);
        DoneStays(h.sys, e.e, h.sessions[j].i);
      }
      forall n | 0 <= n < |h.admitted|
        ensures AdmissionOk(h', h.admitted[n])
      {
        assert AdmissionOk(h, h.admitted[n]);
        var j := h.admitted[n].session;
        assert SessionOk(h.sys, h.sessions[j]);
        DoneStays(h.sys, e.e, h.sessions[j].i);
      }
    } else {
      ServeKeeps(h, e);
    }
  }

  lemma ServeKeeps(h: Host, e: HostEvent)
    requires HostOk(h) && !e.InCache?
    ensures HostOk(HostStep(h, e))
  {
    var h' := HostStep(h, e);
    forall n | 0 <= n < |h'.admitted|
      ensures AdmissionOk(h', h'.admitted[n])
    {
      if n < |h.admitted| {
        assert AdmissionOk(h, h.admitted[n]);
      } else {
        var s := h.sessions[e.j];
        assert SessionOk(h.sys, s);
        assert CallerOk(h.sys, s.i);
      }
    }
  }

  lemma {:induction false} HostRunKeeps(h: Host, es: seq<HostEvent>)
    requires HostOk(h)
    ensures HostOk(HostRun(h, es))
    decreases |es|
  {
    if es != [] {
      HostKeeps(h, es[0]);
      HostRunKeeps(HostStep(h, es[0]), es[1..]);
    }
  }

  /** Every frame that passes admission on a session bound to code evidence does
      so less than five minutes after the verification that found it, and less
      than five minutes, or the time the listener was given, after the connection was
      bound, however many connections shared the cached verdict or waited for one in
      flight. */
  lemma AdmittedWithinLifetime(es: seq<HostEvent>, n: nat)
    requires n < |HostRun(Host(IDLE, [], []), es).admitted|
    ensures var h := HostRun(Host(IDLE, [], []), es);
            var a := h.admitted[n];
            && a.session < |h.sessions| && h.sessions[a.session].i < |h.sys.callers| && h.sys.callers[h.sessions[a.session].i].Done?
            && a.at < h.sessions[a.session].boundAt + MAX_AGE
            && (0 < h.sessions[a.session].option ==> a.at < h.sessions[a.session].boundAt + h.sessions[a.session].option)
            && var c := h.sys.callers[h.sessions[a.session].i];
               c.result.Ok? ==>
                 Fact(c.key, c.result.finding) in h.sys.facts && c.result.finding.at <= a.at < c.result.finding.at + LIFETIME
  {
    var h := HostRun(Host(IDLE, [], []), es);
    HostRunKeeps(Host(IDLE, [], []), es);
    assert AdmissionOk(h, h.admitted[n]);
    var s := h.sessions[h.admitted[n].session];
    assert SessionOk(h.sys, s);
    assert CallerOk(h.sys, s.i);
  }

  /** And a frame is let in exactly while none of these times is up: the one the listener
      was given, or five minutes, from the binding, and five from the verification. */
  lemma AdmitsExactly(es: seq<HostEvent>, j: nat)
    requires j < |HostRun(Host(IDLE, [], []), es).sessions|
    ensures var h := HostRun(Host(IDLE, [], []), es);
            var s, now := h.sessions[j], h.sys.clock;
            var age := if 0 < s.option <= MAX_AGE then s.option else MAX_AGE;
            && s.i < |h.sys.callers| && h.sys.callers[s.i].Done?
            && var r := h.sys.callers[s.i].result;
               |HostStep(h, Admit(j)).admitted| == |h.admitted| + 1 <==>
                 now < s.boundAt + age && (r.Ok? ==> now < r.finding.at + LIFETIME)
  {
    var h := HostRun(Host(IDLE, [], []), es);
    HostRunKeeps(Host(IDLE, [], []), es);
    assert SessionOk(h.sys, h.sessions[j]);
  }
}
