/** The proof ladder against what each platform can prove (proof.go, peer.go:283-403,
    identity_linux.go:94-329, identity_windows.go:20-193, identity_darwin.go:88-305).
    What the operating system answers about a connection is a parameter; each
    platform's reader fills in the peer step by step, as the source does. */
module Ceilings {
  import opened Options

  type Proof = p: int | 0 <= p < 256

  const NONE: Proof := 0
  const INVALID: Proof := 2
  const UNSIGNED: Proof := 3
  const UNMET: Proof := 4
  const PID: Proof := 5
  const BOUND: Proof := 6
  const KERNEL: Proof := 7
  const SIGNED: Proof := 8

  datatype Attribute = User | Process | Path | Package | Code

  const ORDER: seq<Attribute> := [User, Process, Path, Package, Code]

  /** A proof for each attribute: what a policy needs, what a peer has, or what a
      platform can give at best. */
  datatype Proofs = Proofs(user: Proof, process: Proof, path: Proof, package: Proof, code: Proof)

  function Of(p: Proofs, a: Attribute): Proof {
    match a
    case User => p.user
    case Process => p.process
    case Path => p.path
    case Package => p.package
    case Code => p.code
  }

  predicate AtMost(p: Proofs, q: Proofs) {
    p.user <= q.user && p.process <= q.process && p.path <= q.path && p.package <= q.package && p.code <= q.code
  }

  lemma AtMostEach(p: Proofs, q: Proofs)
    ensures AtMost(p, q) <==> forall a :: Of(p, a) <= Of(q, a)
  {
    if forall a :: Of(p, a) <= Of(q, a) {
      assert Of(p, User) <= Of(q, User) && Of(p, Process) <= Of(q, Process) && Of(p, Path) <= Of(q, Path);
      assert Of(p, Package) <= Of(q, Package) && Of(p, Code) <= Of(q, Code);
    }
  }

  /** A resolved peer: how well each attribute is proven, and whether the process
      behind the pid is known not to be the one that connected. */
  datatype Peer = Peer(proofs: Proofs, recycled: bool)

  const UNKNOWN := Peer(Proofs(NONE, NONE, NONE, NONE, NONE), false)

  /** Attr.AtLeast: a value proven at this rung or above, and proven at all. */
  predicate AtLeast(have: Proof, min: Proof) {
    min <= have && NONE < have
  }

  /** The attributes among some in which a proof falls short of a policy, in order. */
  function Short(have: Proofs, n: Proofs, among: seq<Attribute>): seq<Attribute> {
    if among == [] then []
    else (if Of(have, among[0]) < Of(n, among[0]) then [among[0]] else []) + Short(have, n, among[1..])
  }

  /** Peer.Check: the attributes that fall short of a policy, in order. */
  method Check(p: Peer, n: Proofs) returns (errs: seq<Attribute>)
    ensures errs == Short(p.proofs, n, ORDER)
    ensures forall a :: a in errs <==> Of(p.proofs, a) < Of(n, a)
    ensures errs == [] <==> AtMost(n, p.proofs)
  {
    errs := [];
    for i := 0 to |ORDER|
      invariant errs + Short(p.proofs, n, ORDER[i..]) == Short(p.proofs, n, ORDER)
    {
      var a := ORDER[i];
      ShortOfNext(errs, p.proofs, n, i);
      if NONE < Of(n, a) && !AtLeast(Of(p.proofs, a), Of(n, a)) {
        errs := errs + [a];
      }
    }
    assert errs + [] == errs;
    ShortIsShort(p.proofs, n);
  }

  lemma ShortOfNext(errs: seq<Attribute>, have: Proofs, n: Proofs, i: nat)
    requires i < |ORDER|
    ensures var a := ORDER[i];
            errs + Short(have, n, ORDER[i..]) == (if Of(have, a) < Of(n, a) then errs + [a] else errs) + Short(have, n, ORDER[i + 1..])
  {
    var a, rest := ORDER[i], Short(have, n, ORDER[i + 1..]);
    assert ORDER[i..][0] == a && ORDER[i..][1..] == ORDER[i + 1..];
    Moved(errs, if Of(have, a) < Of(n, a) then [a] else [], rest);
  }

  lemma Moved(errs: seq<Attribute>, one: seq<Attribute>, rest: seq<Attribute>)
    ensures errs + (one + rest) == errs + one + rest && errs + [] == errs
  {
  }

  lemma {:induction false} ShortAmong(have: Proofs, n: Proofs, among: seq<Attribute>)
    ensures forall a :: a in Short(have, n, among) <==> a in among && Of(have, a) < Of(n, a)
  {
    if among != [] {
      ShortAmong(have, n, among[1..]);
      assert among == [among[0]] + among[1..];
    }
  }

  /** Nothing falls short exactly when the proofs cover the policy. */
  lemma ShortIsShort(have: Proofs, n: Proofs)
    ensures forall a :: a in Short(have, n, ORDER) <==> Of(have, a) < Of(n, a)
    ensures Short(have, n, ORDER) == [] <==> AtMost(n, have)
  {
    var errs := Short(have, n, ORDER);
    AllNamed();
    ShortAmong(have, n, ORDER);
    AtMostEach(n, have);
    if errs != [] {
      assert errs[0] in errs;
    } else {
      forall a
        ensures Of(n, a) <= Of(have, a)
      {
        assert a !in errs;
      }
    }
  }

  lemma AllNamed()
    ensures forall a :: a in ORDER
  {
    forall a: Attribute
      ensures a in ORDER
    {
      match a
      case User => assert ORDER[0] == a;
      case Process => assert ORDER[1] == a;
      case Path => assert ORDER[2] == a;
      case Package => assert ORDER[3] == a;
      case Code => assert ORDER[4] == a;
    }
  }

  /** Limits.CanEver: the attributes no peer of this platform can meet the policy in. */
  method CanEver(best: Proofs, n: Proofs) returns (errs: seq<Attribute>)
    ensures errs == Short(best, n, ORDER)
    ensures forall a :: a in errs <==> Of(best, a) < Of(n, a)
    ensures errs == [] <==> AtMost(n, best)
  {
    errs := [];
    for i := 0 to |ORDER|
      invariant errs + Short(best, n, ORDER[i..]) == Short(best, n, ORDER)
    {
      ShortOfNext(errs, best, n, i);
      if Of(best, ORDER[i]) < Of(n, ORDER[i]) {
        errs := errs + [ORDER[i]];
      }
    }
    assert errs + [] == errs;
    ShortIsShort(best, n);
  }

  /** Some policy is refused at the ceiling and met by the peer. */
  ghost predicate Exceeds(have: Proofs, best: Proofs) {
    exists n :: Short(best, n, ORDER) != [] && Short(have, n, ORDER) == []
  }

  /** A peer meets a policy that CanEver refuses exactly when it is above the ceiling. */
  lemma ExceedsExactly(have: Proofs, best: Proofs)
    ensures Exceeds(have, best) <==> !AtMost(have, best)
  {
    if Exceeds(have, best) {
      var n :| Short(best, n, ORDER) != [] && Short(have, n, ORDER) == [];
      ShortIsShort(best, n);
      ShortIsShort(have, n);
    } else {
      ShortIsShort(best, have);
      ShortIsShort(have, have);
    }
  }

  /** What a peer within the ceiling meets is accepted at the ceiling. */
  lemma MetWithin(best: Proofs, have: Proofs, n: Proofs)
    requires AtMost(have, best) && Short(have, n, ORDER) == []
    ensures Short(best, n, ORDER) == []
  {
    ShortIsShort(best, n);
    ShortIsShort(have, n);
  }

  // ------------------------------------------------------------------ Linux

  /** SO_PEERPIDFD for this connection, and whether the pidfd names a live process. */
  datatype Pidfd = NoPidfd | Unchecked | Exited | Live

  datatype Exe = NoExe | Deleted | Exe

  datatype Linux = Linux(accepted: bool, cred: bool, pidfd: Pidfd, startRead: bool, startedLate: bool, exe: Exe, sandboxed: bool)

  /** The ceiling, from the probe made once at startup. */
  function LinuxCeiling(probe: bool): Proofs {
    var derived := if probe then BOUND else PID;
    Proofs(KERNEL, KERNEL, derived, derived, NONE)
  }

  /** What the kernel's answers amount to. */
  function LinuxPeer(os: Linux): (r: Option<Peer>)
    ensures r.Some? <==> os.accepted && os.cred
    ensures r.Some? && r.value.recycled ==> Blank(r.value)
    ensures r.Some? ==> (r.value.recycled <==> os.pidfd != Live && os.startRead && os.startedLate)
  {
    var recycled := os.pidfd != Live && os.startRead && os.startedLate;
    var readable := !recycled && (os.pidfd == NoPidfd || os.pidfd == Live);
    var derived := if os.pidfd == Live then BOUND else PID;
    var path := if !readable || os.exe == NoExe then NONE else if os.exe == Deleted then PID else derived;
    var package := if readable && os.sandboxed then derived else NONE;
    if os.accepted && os.cred then Some(Peer(Proofs(KERNEL, KERNEL, path, package, NONE), recycled)) else None
  }

  /** A kernel whose probe failed and that gives no connection a live pidfd. */
  predicate AsProbed(probe: bool, os: Linux) {
    probe || os.pidfd != Live
  }

  /** On Linux a peer meets a policy that CanEver refused exactly when the probe failed
      and this connection has a live pidfd and something was read under it. */
  lemma LinuxExceeds(os: Linux, probe: bool)
    requires LinuxPeer(os).Some?
    ensures Exceeds(LinuxPeer(os).value.proofs, LinuxCeiling(probe)) <==>
              !probe && os.pidfd == Live && (os.exe == Exe || os.sandboxed)
  {
    ExceedsExactly(LinuxPeer(os).value.proofs, LinuxCeiling(probe));
  }

  /** Such a connection: CanEver says no peer's path can be bound, and this one's is. */
  lemma AboveTheProbe(os: Linux, n: Proofs)
    requires os == Linux(true, true, Live, true, false, Exe, false) && n == Proofs(NONE, NONE, BOUND, NONE, NONE)
    ensures Path in Short(LinuxCeiling(false), n, ORDER) && Short(LinuxPeer(os).value.proofs, n, ORDER) == []
  {
    ShortIsShort(LinuxCeiling(false), n);
    ShortIsShort(LinuxPeer(os).value.proofs, n);
  }

  /** On a kernel that is as the probe found it, CanEver accepts exactly the policies
      that some peer meets. */
  lemma LinuxMeets(probe: bool, n: Proofs)
    ensures Short(LinuxCeiling(probe), n, ORDER) == [] <==>
              exists os :: AsProbed(probe, os) && LinuxPeer(os).Some? && Short(LinuxPeer(os).value.proofs, n, ORDER) == []
  {
    var best := Linux(true, true, if probe then Live else NoPidfd, true, false, Exe, true);
    assert AsProbed(probe, best) && LinuxPeer(best).value.proofs == LinuxCeiling(probe);
    if os :| AsProbed(probe, os) && LinuxPeer(os).Some? && Short(LinuxPeer(os).value.proofs, n, ORDER) == [] {
      MetWithin(LinuxCeiling(probe), LinuxPeer(os).value.proofs, n);
    }
  }

  /** Exactly when Check lets a Linux peer pass: path and package are read only under a
      live pidfd, or without any where the process did not start after the connection; an
      exited or unchecked one leaves them unknown, and a deleted executable's path is
      proven by the pid alone. */
  lemma LinuxDecides(os: Linux, n: Proofs)
    requires LinuxPeer(os).Some?
    ensures Short(LinuxPeer(os).value.proofs, n, ORDER) == [] <==>
              && n.user <= KERNEL && n.process <= KERNEL && n.code == NONE
              && (NONE < n.path ==>
                    match os.pidfd
                    case Live => (os.exe == Exe && n.path <= BOUND) || (os.exe == Deleted && n.path <= PID)
                    case NoPidfd => !(os.startRead && os.startedLate) && os.exe != NoExe && n.path <= PID
                    case Exited => false
                    case Unchecked => false)
              && (NONE < n.package ==>
                    match os.pidfd
                    case Live => os.sandboxed && n.package <= BOUND
                    case NoPidfd => !(os.startRead && os.startedLate) && os.sandboxed && n.package <= PID
                    case Exited => false
                    case Unchecked => false)
  {
    ShortIsShort(LinuxPeer(os).value.proofs, n);
  }

  method OfLinux(os: Linux) returns (r: Option<Peer>)
    ensures r == LinuxPeer(os)
  {
    var p := UNKNOWN;
    if !os.accepted || !os.cred {
      return None;
    }
    p := p.(proofs := p.proofs.(user := KERNEL));
    var bound, readable := false, true;
    match os.pidfd {
      case NoPidfd =>
      case Unchecked => readable := false;
      case Exited => readable := false;
      case Live => bound := true;
    }
    p := p.(proofs := p.proofs.(process := KERNEL));
    if os.startRead && !bound && os.startedLate {
      return Some(p.(recycled := true));
    }
    if !readable {
      return Some(p);
    }
    var derived := if bound then BOUND else PID;
    match os.exe {
      case NoExe =>
      case Deleted => p := p.(proofs := p.proofs.(path := PID));
      case Exe => p := p.(proofs := p.proofs.(path := derived));
    }
    if os.sandboxed {
      p := p.(proofs := p.proofs.(package := derived));
    }
    r := Some(p);
  }

  /** Nothing is known but who connected and as which pid. */
  predicate Blank(p: Peer) {
    p.proofs.path == NONE && p.proofs.package == NONE && p.proofs.code == NONE
  }

  // ---------------------------------------------------------------- Windows

  datatype WindowsUser = TokenUser | Anonymous | UserFailed
  datatype Verdict = Refused | NoSignature | Requirement | Trusted | Unverified

  datatype Windows = Windows(serverEnd: bool, local: bool, user: WindowsUser, pid: bool, pinned: bool, startRead: bool, startedLate: bool,
                             image: bool, packaged: bool, skipCode: bool, verdict: Verdict)

  const WINDOWS_CEILING := Proofs(KERNEL, KERNEL, BOUND, SIGNED, BOUND)

  /** The rung of a verdict, with accepted code at the rung of its binding. */
  function Rung(v: Verdict): Proof {
    match v
    case Refused => INVALID
    case NoSignature => UNSIGNED
    case Requirement => UNMET
    case Trusted => BOUND
    case Unverified => NONE
  }

  function WindowsPeer(os: Windows): (r: Option<Peer>)
    ensures r.Some? <==> os.serverEnd && os.local && os.user != UserFailed
    ensures r.Some? && r.value.recycled ==> Blank(r.value)
    ensures r.Some? ==> (r.value.recycled <==> os.pid && os.pinned && os.startRead && os.startedLate)
    ensures r.Some? && NONE < r.value.proofs.path ==> os.pinned && os.startRead && !os.startedLate
    ensures r.Some? && NONE < r.value.proofs.code ==> NONE < r.value.proofs.path
  {
    var held := os.pid && os.pinned && os.startRead;
    var proofs := Proofs(
      if os.user == TokenUser then KERNEL else NONE,
      if os.pid then KERNEL else NONE,
      if held && !os.startedLate && os.image then BOUND else NONE,
      if held && !os.startedLate && os.packaged then SIGNED else NONE,
      if held && !os.startedLate && os.image && !os.skipCode then Rung(os.verdict) else NONE);
    if os.serverEnd && os.local && os.user != UserFailed then Some(Peer(proofs, held && os.startedLate)) else None
  }

  /** On Windows no peer meets a policy that CanEver refused. */
  lemma WindowsExceeds(os: Windows)
    requires WindowsPeer(os).Some?
    ensures !Exceeds(WindowsPeer(os).value.proofs, WINDOWS_CEILING)
  {
    ExceedsExactly(WindowsPeer(os).value.proofs, WINDOWS_CEILING);
  }

  /** And CanEver accepts exactly the policies that some peer meets. */
  lemma WindowsMeets(n: Proofs)
    ensures Short(WINDOWS_CEILING, n, ORDER) == [] <==>
              exists os :: WindowsPeer(os).Some? && Short(WindowsPeer(os).value.proofs, n, ORDER) == []
  {
    var best := Windows(true, true, TokenUser, true, true, true, false, true, true, false, Trusted);
    assert WindowsPeer(best).value.proofs == WINDOWS_CEILING;
    if os :| WindowsPeer(os).Some? && Short(WindowsPeer(os).value.proofs, n, ORDER) == [] {
      MetWithin(WINDOWS_CEILING, WindowsPeer(os).value.proofs, n);
    }
  }

  /** A process that was pinned before anything was read out of it. */
  predicate Held(os: Windows) {
    os.pid && os.pinned && os.startRead && !os.startedLate
  }

  /** Exactly when Check lets a Windows peer pass. Code counts as verified only where
      the verdict is that it is trusted; every other verdict stays below the rungs that
      imply verification, each at its own. */
  lemma WindowsDecides(os: Windows, n: Proofs)
    requires WindowsPeer(os).Some?
    ensures Short(WindowsPeer(os).value.proofs, n, ORDER) == [] <==>
              && (NONE < n.user ==> os.user == TokenUser && n.user <= KERNEL)
              && (NONE < n.process ==> os.pid && n.process <= KERNEL)
              && (NONE < n.path ==> Held(os) && os.image && n.path <= BOUND)
              && (NONE < n.package ==> Held(os) && os.packaged && n.package <= SIGNED)
              && (NONE < n.code ==>
                    && Held(os) && os.image && !os.skipCode
                    && match os.verdict
                       case Trusted => n.code <= BOUND
                       case Requirement => n.code <= UNMET
                       case NoSignature => n.code <= UNSIGNED
                       case Refused => n.code <= INVALID
                       case Unverified => false)
  {
    ShortIsShort(WindowsPeer(os).value.proofs, n);
  }

  method OfWindows(os: Windows) returns (r: Option<Peer>)
    ensures r == WindowsPeer(os)
  {
    var p := UNKNOWN;
    if !os.serverEnd || !os.local {
      return None;
    }
    match os.user {
      case TokenUser => p := p.(proofs := p.proofs.(user := KERNEL));
      case Anonymous =>
      case UserFailed => return None;
    }
    if !os.pid {
      return Some(p);
    }
    p := p.(proofs := p.proofs.(process := KERNEL));
    if !os.pinned || !os.startRead {
      return Some(p);
    }
    if os.startedLate {
      return Some(p.(recycled := true));
    }
    if os.image {
      p := p.(proofs := p.proofs.(path := BOUND));
    }
    if os.packaged {
      p := p.(proofs := p.proofs.(package := SIGNED));
    }
    if !os.skipCode && NONE < p.proofs.path {
      p := p.(proofs := p.proofs.(code := Rung(os.verdict)));
    }
    r := Some(p);
  }

  // ------------------------------------------------------------------ macOS

  datatype Start = NoStart | Late | Before

  datatype Darwin = Darwin(accepted: bool, cred: bool, token: bool, sameUser: bool, samePid: bool, start: Start, skipCode: bool,
                           verdict: Verdict, identified: bool, signedPath: bool, execPath: bool, stillSame: bool)

  /** What codeCeiling says, capped at the socket's binding. */
  function DarwinCeiling(cgo: bool): Proofs {
    var best := if cgo then BOUND else NONE;
    var code := if PID < best then PID else best;
    Proofs(KERNEL, PID, PID, code, code)
  }

  /** Without cgo nothing judges a signature. */
  predicate Built(cgo: bool, os: Darwin) {
    cgo || os.verdict == Unverified
  }

  function DarwinPeer(os: Darwin): (r: Option<Peer>)
    ensures r.Some? <==> os.accepted && os.cred
    ensures r.Some? && r.value.recycled ==> Blank(r.value)
    ensures r.Some? ==> (r.value.recycled <==> os.token && os.sameUser && os.samePid && os.start == Late)
    ensures r.Some? && !os.stillSame ==> Blank(r.value)
    ensures r.Some? && NONE < r.value.proofs.package ==> r.value.proofs.code == PID
  {
    var known := os.token && os.sameUser && os.samePid;
    var readable := known && os.start == Before && os.stillSame;
    var judged := !os.skipCode && os.verdict != Unverified;
    var accepted := judged && os.verdict == Trusted;
    var proofs := Proofs(
      KERNEL,
      if known && (os.start == Before ==> os.stillSame) then PID else NONE,
      if readable && ((accepted && os.signedPath) || os.execPath) then PID else NONE,
      if readable && accepted && os.identified then PID else NONE,
      if !readable || !judged then NONE else if accepted then PID else Rung(os.verdict));
    if os.accepted && os.cred then Some(Peer(proofs, known && os.start == Late)) else None
  }

  /** On macOS no peer meets a policy that CanEver refused. */
  lemma DarwinExceeds(os: Darwin, cgo: bool)
    requires DarwinPeer(os).Some? && Built(cgo, os)
    ensures !Exceeds(DarwinPeer(os).value.proofs, DarwinCeiling(cgo))
  {
    ExceedsExactly(DarwinPeer(os).value.proofs, DarwinCeiling(cgo));
  }

  /** And CanEver accepts exactly the policies that some peer meets. */
  lemma DarwinMeets(cgo: bool, n: Proofs)
    ensures Short(DarwinCeiling(cgo), n, ORDER) == [] <==>
              exists os :: Built(cgo, os) && DarwinPeer(os).Some? && Short(DarwinPeer(os).value.proofs, n, ORDER) == []
  {
    var best := Darwin(true, true, true, true, true, Before, false, if cgo then Trusted else Unverified, true, true, true, true);
    assert Built(cgo, best) && DarwinPeer(best).value.proofs == DarwinCeiling(cgo);
    if os :| Built(cgo, os) && DarwinPeer(os).Some? && Short(DarwinPeer(os).value.proofs, n, ORDER) == [] {
      MetWithin(DarwinCeiling(cgo), DarwinPeer(os).value.proofs, n);
    }
  }

  /** A process known by its token that started before the connection and is the same
      at the end. */
  predicate Steady(os: Darwin) {
    os.token && os.sameUser && os.samePid && os.start == Before && os.stillSame
  }

  /** Exactly when Check lets a macOS peer pass: nothing but the user counts for more than
      the pid, and code counts as verified only where it is trusted. */
  lemma DarwinDecides(os: Darwin, n: Proofs)
    requires DarwinPeer(os).Some?
    ensures Short(DarwinPeer(os).value.proofs, n, ORDER) == [] <==>
              && n.user <= KERNEL
              && (NONE < n.process ==>
                    n.process <= PID && os.token && os.sameUser && os.samePid && (os.start == Before ==> os.stillSame))
              && (NONE < n.path ==>
                    n.path <= PID && Steady(os) && (os.execPath || (!os.skipCode && os.verdict == Trusted && os.signedPath)))
              && (NONE < n.package ==> n.package <= PID && Steady(os) && !os.skipCode && os.verdict == Trusted && os.identified)
              && (NONE < n.code ==>
                    && Steady(os) && !os.skipCode
                    && match os.verdict
                       case Trusted => n.code <= PID
                       case Requirement => n.code <= UNMET
                       case NoSignature => n.code <= UNSIGNED
                       case Refused => n.code <= INVALID
                       case Unverified => false)
  {
    ShortIsShort(DarwinPeer(os).value.proofs, n);
  }

  method OfDarwin(os: Darwin) returns (r: Option<Peer>)
    ensures r == DarwinPeer(os)
  {
    var p := UNKNOWN;
    if !os.accepted || !os.cred {
      return None;
    }
    p := p.(proofs := p.proofs.(user := KERNEL));
    if !os.token || !os.sameUser || !os.samePid {
      return Some(p);
    }
    p := p.(proofs := p.proofs.(process := PID));
    if os.start == NoStart {
      return Some(p);
    }
    if os.start == Late {
      return Some(p.(recycled := true));
    }
    var signed := false;
    if !os.skipCode && os.verdict != Unverified {
      var verdict := if PID < Rung(os.verdict) then PID else Rung(os.verdict);
      p := p.(proofs := p.proofs.(code := verdict));
      if PID <= verdict {
        signed := os.signedPath;
        if os.identified {
          p := p.(proofs := p.proofs.(package := PID));
        }
      }
    }
    if signed || os.execPath {
      p := p.(proofs := p.proofs.(path := PID));
    }
    if !os.stillSame {
      p := p.(proofs := p.proofs.(process := NONE, path := NONE, package := NONE, code := NONE));
    }
    r := Some(p);
  }
}
