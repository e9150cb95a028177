/** protectModels (go/privatedir/models_unix.go:28-118): every entry below a folder
    is held open and judged before the first mode is written. The tree is what the
    file system shows during the scan; an operation that fails is an answer given
    from outside. */
module ModelTree {
  type Ino = nat
  type Fd = nat
  type Mode = bv12

  datatype Kind = IsFolder | IsFile(names: nat) | IsLink | IsOther

  /** An entry as it is judged, and what is below it. */
  datatype Entry = Entry(ino: Ino, kind: Kind, owned: bool, below: seq<Entry>)

  /** What the kernel refuses: opening an entry, reading its state once opened, an
      entry that is another one by then, listing a folder, and writing a mode. */
  datatype Answers = Answers(unopened: set<Ino>, unstated: set<Ino>, moved: set<Ino>, unread: set<Ino>, unwritten: set<Ino>)

  datatype Outcome = Done | Refused | Unwritten

  /** mode &^ 0o022: no write bit for the group or for others. */
  function Cleared(m: Mode): Mode {
    m & 0xFED
  }

  lemma ClearedBits(m: Mode)
    ensures Cleared(m) & 0x012 == 0 && Cleared(m) & 0xFED == m & 0xFED && Cleared(Cleared(m)) == Cleared(m)
  {
  }

  /** What judge lets pass. */
  predicate Fine(e: Entry) {
    e.owned && (e.kind.IsFolder? || (e.kind.IsFile? && e.kind.names <= 1))
  }

  predicate Opens(e: Entry, a: Answers) {
    Fine(e) && e.ino !in a.unopened && e.ino !in a.unstated && e.ino !in a.moved
  }

  predicate Accepted(e: Entry, a: Answers) {
    Opens(e, a) && (e.kind.IsFolder? ==> e.ino !in a.unread)
  }

  /** What is below an entry counts only where it is a folder. */
  function Below(e: Entry): seq<Entry> {
    if e.kind.IsFolder? then e.below else []
  }

  /** Every entry of a tree, once for each place it has there. */
  function Inos(e: Entry): multiset<Ino>
    decreases e, 1
  {
    multiset{e.ino} + if e.kind.IsFolder? then InosOf(e.below) else multiset{}
  }

  function InosOf(es: seq<Entry>): multiset<Ino>
    decreases es, 0
  {
    if es == [] then multiset{} else Inos(es[0]) + InosOf(es[1..])
  }

  predicate AllAccepted(e: Entry, a: Answers)
    decreases e
  {
    Accepted(e, a) && (e.kind.IsFolder? ==> forall i :: 0 <= i < |e.below| ==> AllAccepted(e.below[i], a))
  }

  /** The entries of a list by themselves. */
  function Own(es: seq<Entry>): (m: multiset<Ino>)
    ensures |m| == |es|
  {
    if es == [] then multiset{} else Own(es[..|es| - 1]) + multiset{es[|es| - 1].ino}
  }

  lemma Assoc(a: multiset<Ino>, b: multiset<Ino>, c: multiset<Ino>)
    ensures a + (b + c) == a + b + c
  {
  }

  lemma InosCons(e: Entry, rest: seq<Entry>)
    ensures InosOf([e] + rest) == Inos(e) + InosOf(rest)
  {
    var es := [e] + rest;
    assert es[0] == e && es[1..] == rest;
  }

  lemma InosOne(e: Entry)
    ensures InosOf([e]) == Inos(e)
  {
    assert [e][1..] == [];
  }

  lemma ConsConcat<T>(a: seq<T>, b: seq<T>)
    requires a != []
    ensures a == [a[0]] + a[1..] && a + b == [a[0]] + (a[1..] + b)
  {
  }

  lemma {:induction false} InosConcat(a: seq<Entry>, b: seq<Entry>)
    ensures InosOf(a + b) == InosOf(a) + InosOf(b)
    decreases |a|
  {
    if a == [] {
      assert a + b == b;
      assert InosOf(a) == multiset{};
    } else {
      var e, rest := a[0], a[1..];
      InosConcat(rest, b);
      ConsConcat(a, b);
      InosCons(e, rest);
      InosCons(e, rest + b);
      Assoc(Inos(e), InosOf(rest), InosOf(b));
    }
  }

  lemma OwnConcat(a: seq<Entry>, e: Entry)
    ensures Own(a + [e]) == Own(a) + multiset{e.ino}
  {
    var es := a + [e];
    assert es[..|es| - 1] == a && es[|es| - 1] == e;
  }

  lemma Shuffle(own: multiset<Ino>, one: multiset<Ino>, below: multiset<Ino>, rest: multiset<Ino>)
    ensures own + (one + below + rest) + multiset{} == own + one + rest + below
  {
  }

  /** The scan's account: what it has gone through, and the trees of what it still holds ahead. */
  predicate Account(all: seq<Entry>, i: nat, ahead: seq<Entry>, top: Entry)
    requires i <= |all|
  {
    Own(all[..i]) + InosOf(all[i..]) + InosOf(ahead) == Inos(top)
  }

  /** An entry moves from the folder being listed to the end of the work list. */
  lemma AccountHold(all: seq<Entry>, i: nat, e: Entry, ahead: seq<Entry>, top: Entry)
    requires i <= |all| && Account(all, i, [e] + ahead, top)
    ensures Account(all + [e], i, ahead, top)
  {
    assert (all + [e])[..i] == all[..i] && (all + [e])[i..] == all[i..] + [e];
    var own, held, mine, rest := Own(all[..i]), InosOf(all[i..]), InosOf([e]), InosOf(ahead);
    InosConcat(all[i..], [e]);
    InosConcat([e], ahead);
    Assoc(own + held, mine, rest);
    Assoc(own, held, mine);
  }

  lemma OneMore<T>(s: seq<T>, i: nat)
    requires i < |s|
    ensures s[..i + 1] == s[..i] + [s[i]] && s[i..] == [s[i]] + s[i + 1..]
  {
  }

  /** The scan goes on to the next entry, with what is below it ahead. */
  lemma AccountNext(all: seq<Entry>, i: nat, top: Entry)
    requires i < |all| && Account(all, i, [], top)
    ensures Account(all, i + 1, Below(all[i]), top)
  {
    OneMore(all, i);
    var e, own, rest := all[i], Own(all[..i]), InosOf(all[i + 1..]);
    OwnConcat(all[..i], e);
    InosConcat([e], all[i + 1..]);
    InosOne(e);
    Shuffle(own, multiset{e.ino}, InosOf(Below(e)), rest);
  }

  class Kernel {
    var modes: map<Ino, Mode>
    var open: map<Fd, Ino>
    var next: Fd

    ghost predicate Valid()
      reads this
    {
      forall fd :: fd in open ==> fd < next
    }

    method Open(ino: Ino) returns (fd: Fd)
      requires Valid()
      modifies this`open, this`next
      ensures Valid() && fd == old(next) && fd !in old(open) && open == old(open)[fd := ino] && next == old(next) + 1
    {
      fd := next;
      open, next := open[fd := ino], next + 1;
    }

    /** A descriptor is closed while it is open, and so once. */
    method Close(fd: Fd)
      requires Valid() && fd in open
      modifies this`open
      ensures Valid() && open == old(open) - {fd}
    {
      open := open - {fd};
    }

    method Fchmod(fd: Fd, mode: Mode)
      requires fd in open
      modifies this`modes
      ensures modes == old(modes)[open[fd] := mode]
    {
      modes := modes[open[fd] := mode];
    }
  }

  /** What the work list holds of an entry: its descriptor and its mode. */
  datatype Held = Held(fd: Fd, mode: Mode)

  /** The work list holds a new descriptor for each of its entries. */
  ghost predicate Opened(all: seq<Entry>, held: seq<Held>, open: map<Fd, Ino>, was: map<Fd, Ino>, first: Fd) {
    && |held| == |all| && (forall i :: 0 <= i < |all| ==> held[i].fd == first + i)
    && (forall fd :: fd in open <==> fd in was || first <= fd < first + |all|)
    && (forall fd :: fd in was ==> fd < first && open[fd] == was[fd])
    && (forall i :: 0 <= i < |all| ==> open[first + i] == all[i].ino)
  }

  /** And the mode each of them has. */
  ghost predicate Holding(all: seq<Entry>, held: seq<Held>, open: map<Fd, Ino>, modes: map<Ino, Mode>, was: map<Fd, Ino>, first: Fd) {
    Opened(all, held, open, was, first) && forall i :: 0 <= i < |all| ==> all[i].ino in modes && held[i].mode == modes[all[i].ino]
  }

  /** open: judge an entry unopened, open it, and judge it again. What was opened
      and read joins the work list, whatever the judgement. */
  method OpenEntry(k: Kernel, e: Entry, a: Answers, all: seq<Entry>, held: seq<Held>, ghost was: map<Fd, Ino>, ghost first: Fd)
    returns (all': seq<Entry>, held': seq<Held>, ok: bool)
    requires k.Valid() && e.ino in k.modes && Holding(all, held, k.open, k.modes, was, first) && k.next == first + |all|
    modifies k`open, k`next
    ensures k.Valid() && Holding(all', held', k.open, k.modes, was, first)
    ensures ok <==> Opens(e, a)
    ensures ok ==> k.next == first + |all'| && all' == all + [e]
  {
    if !Fine(e) || e.ino in a.unopened {
      return all, held, false;
    }
    var fd := k.Open(e.ino);
    if e.ino in a.unstated {
      k.Close(fd);
      return all, held, false;
    }
    all', held' := all + [e], held + [Held(fd, k.modes[e.ino])];
    ok := e.ino !in a.moved;
  }

  /** What remains to be accepted for the whole tree to be: what was gone through by
      itself, and what is still held or listed with all that is below it. */
  predicate Rest(all: seq<Entry>, i: nat, ahead: seq<Entry>, a: Answers) {
    && (forall j :: 0 <= j < |all| && j < i ==> Accepted(all[j], a))
    && (forall j :: i <= j < |all| ==> AllAccepted(all[j], a))
    && (forall j :: 0 <= j < |ahead| ==> AllAccepted(ahead[j], a))
  }

  lemma RestHold(all: seq<Entry>, i: nat, e: Entry, ahead: seq<Entry>, a: Answers)
    requires i <= |all|
    ensures Rest(all + [e], i, ahead, a) <==> Rest(all, i, [e] + ahead, a)
  {
    var all', ahead' := all + [e], [e] + ahead;
    assert all'[|all|] == e && ahead'[0] == e;
    assert forall j :: 0 <= j < |all| ==> all'[j] == all[j];
    assert forall j :: 0 <= j < |ahead| ==> ahead'[j + 1] == ahead[j];
    assert forall j :: 0 < j < |ahead'| ==> ahead'[j] == ahead[j - 1];
  }

  lemma RestNext(all: seq<Entry>, i: nat, a: Answers)
    requires i < |all|
    ensures Rest(all, i, [], a) <==> Rest(all, i + 1, Below(all[i]), a)
  {
  }

  /** The scan stands before entry i of its work list, with `ahead` still to be
      opened in the folder before it. */
  ghost predicate Scanned(all: seq<Entry>, i: nat, ahead: seq<Entry>, top: Entry, a: Answers) {
    && i <= |all| && Account(all, i, ahead, top)
    && (AllAccepted(top, a) <==> Rest(all, i, ahead, a))
  }

  predicate AllOpen(all: seq<Entry>, a: Answers) {
    forall j :: 0 <= j < |all| ==> Opens(all[j], a)
  }

  lemma OpenPush(es: seq<Entry>, e: Entry, m: nat, a: Answers)
    requires AllOpen(es, a) && Opens(e, a) && m <= |es|
    ensures AllOpen(es + [e], a) && (es + [e])[..m] == es[..m]
  {
  }

  /** The next entry of a folder: opened it joins the work list, and refused it
      refuses the tree. */
  lemma HoldStep(es: seq<Entry>, i: nat, e: Entry, ahead: seq<Entry>, top: Entry, a: Answers, m: nat)
    requires Scanned(es, i, [e] + ahead, top, a) && AllOpen(es, a) && m <= |es|
    ensures if Opens(e, a) then Scanned(es + [e], i, ahead, top, a) && AllOpen(es + [e], a) && (es + [e])[..m] == es[..m]
            else !AllAccepted(top, a)
  {
    AccountHold(es, i, e, ahead, top);
    RestHold(es, i, e, ahead, a);
    if Opens(e, a) {
      OpenPush(es, e, m, a);
    } else {
      assert ([e] + ahead)[0] == e;
    }
  }

  /** Nothing is left to go through. */
  lemma ScanDone(es: seq<Entry>, top: Entry, a: Answers)
    requires Scanned(es, |es|, [], top, a) && FirstAccepted(es, |es|, a)
    ensures AllAccepted(top, a) && Own(es) == Inos(top)
  {
    assert es[..|es|] == es && es[|es|..] == [];
  }

  predicate FirstAccepted(all: seq<Entry>, i: nat, a: Answers) {
    i <= |all| && forall j :: 0 <= j < i ==> Accepted(all[j], a)
  }

  /** One folder's entries are opened from its own descriptor. */
  method OpenBelow(k: Kernel, es: seq<Entry>, a: Answers, all: seq<Entry>, held: seq<Held>, ghost i: nat, ghost top: Entry,
                   ghost was: map<Fd, Ino>, ghost first: Fd)
    returns (all': seq<Entry>, held': seq<Held>, ok: bool)
    requires k.Valid() && Holding(all, held, k.open, k.modes, was, first) && k.next == first + |all|
    requires Scanned(all, i, es, top, a) && AllOpen(all, a) && forall e :: e in es ==> e.ino in k.modes
    modifies k`open, k`next
    ensures k.Valid() && Holding(all', held', k.open, k.modes, was, first)
    ensures if ok then k.next == first + |all'| && |all| <= |all'| && all'[..|all|] == all && Scanned(all', i, [], top, a) && AllOpen(all', a)
            else !AllAccepted(top, a)
  {
    all', held', ok := all, held, true;
    var n := 0;
    while n < |es|
      invariant n <= |es| && k.Valid() && Holding(all', held', k.open, k.modes, was, first) && k.next == first + |all'|
      invariant ok && |all| <= |all'| && Scanned(all', i, es[n..], top, a) && AllOpen(all', a) && all'[..|all|] == all
    {
      assert es[n..] == [es[n]] + es[n + 1..];
      HoldStep(all', i, es[n], es[n + 1..], top, a, |all|);
      all', held', ok := OpenEntry(k, es[n], a, all', held', was, first);
      if !ok {
        return;
      }
      n := n + 1;
    }
    assert es[n..] == [];
  }

  lemma {:induction false} MemberInos(es: seq<Entry>, e: Entry)
    requires e in es
    ensures e.ino in InosOf(es)
    decreases |es|
  {
    if es[0] != e {
      assert e in es[1..];
      MemberInos(es[1..], e);
    }
  }

  /** What is ahead belongs to the tree. */
  lemma AheadKnown(all: seq<Entry>, i: nat, ahead: seq<Entry>, top: Entry, e: Entry)
    requires i <= |all| && Account(all, i, ahead, top) && e in ahead
    ensures e.ino in Inos(top)
  {
    MemberInos(ahead, e);
  }

  lemma StartScan(top: Entry, a: Answers)
    ensures Scanned([], 0, [top], top, a)
  {
    InosOne(top);
  }

  /** How far the scan can still go. */
  lemma ScanBound(all: seq<Entry>, i: nat, ahead: seq<Entry>, top: Entry)
    requires i <= |all| && Account(all, i, ahead, top)
    ensures i + |all[i..]| <= i + |InosOf(all[i..])| && i <= |Inos(top)|
  {
    assert |Own(all[..i])| == i;
    ManyInos(all[i..]);
  }

  lemma {:induction false} ManyInos(es: seq<Entry>)
    ensures |es| <= |InosOf(es)|
    decreases |es|
  {
    if es != [] {
      ManyInos(es[1..]);
    }
  }

  /** The loop over the work list, which grows as folders are listed. */
  method ScanRest(k: Kernel, a: Answers, start: seq<Entry>, hold: seq<Held>, ghost top: Entry, ghost was: map<Fd, Ino>, ghost first: Fd)
    returns (all: seq<Entry>, held: seq<Held>, ok: bool)
    requires k.Valid() && Holding(start, hold, k.open, k.modes, was, first) && k.next == first + |start|
    requires Scanned(start, 0, [], top, a) && AllOpen(start, a) && forall x :: x in Inos(top) ==> x in k.modes
    modifies k`open, k`next
    ensures k.Valid() && Holding(all, held, k.open, k.modes, was, first)
    ensures ok <==> AllAccepted(top, a)
    ensures ok ==> Own(all) == Inos(top)
  {
    all, held, ok := start, hold, true;
    var i := 0;
    while i < |all|
      invariant k.Valid() && Holding(all, held, k.open, k.modes, was, first) && k.next == first + |all|
      invariant ok && Scanned(all, i, [], top, a) && AllOpen(all, a) && FirstAccepted(all, i, a)
      decreases |Inos(top)| - i
    {
      ScanNext(all, i, top, a);
      if all[i].kind.IsFolder? && all[i].ino in a.unread {
        return all, held, false;
      }
      ghost var es := all;
      all, held, ok := OpenBelow(k, Below(all[i]), a, all, held, i + 1, top, was, first);
      if !ok {
        return;
      }
      AcceptedStay(es, all, i + 1, a);
      i := i + 1;
    }
    ScanDone(all, top, a);
  }

  /** The scan: on success the work list holds every entry of the tree exactly once. */
  method Scan(k: Kernel, top: Entry, a: Answers) returns (all: seq<Entry>, held: seq<Held>, ok: bool)
    requires k.Valid() && forall x :: x in Inos(top) ==> x in k.modes
    modifies k`open, k`next
    ensures k.Valid() && Holding(all, held, k.open, k.modes, old(k.open), old(k.next))
    ensures ok <==> top.kind.IsFolder? && AllAccepted(top, a)
    ensures ok ==> Own(all) == Inos(top)
  {
    ghost var was, first := k.open, k.next;
    StartScan(top, a);
    all, held, ok := OpenBelow(k, [top], a, [], [], 0, top, was, first);
    if !ok || !top.kind.IsFolder? {
      return all, held, false;
    }
    all, held, ok := ScanRest(k, a, all, held, top, was, first);
  }

  lemma AcceptedStay(es: seq<Entry>, all: seq<Entry>, i: nat, a: Answers)
    requires |es| <= |all| && all[..|es|] == es && FirstAccepted(es, i, a)
    ensures FirstAccepted(all, i, a)
  {
    assert forall j :: 0 <= j < |es| ==> all[j] == all[..|es|][j];
  }

  /** The scan goes on to the next entry of its work list. */
  lemma ScanNext(es: seq<Entry>, i: nat, top: Entry, a: Answers)
    requires i < |es| && Scanned(es, i, [], top, a)
    ensures Scanned(es, i + 1, Below(es[i]), top, a) && i < |Inos(top)|
    ensures forall e :: e in Below(es[i]) ==> e.ino in Inos(top)
    ensures !Accepted(es[i], a) ==> !AllAccepted(top, a)
  {
    AccountNext(es, i, top);
    RestNext(es, i, a);
    ScanBound(es, i + 1, Below(es[i]), top);
    forall e | e in Below(es[i])
      ensures e.ino in Inos(top)
    {
      AheadKnown(es, i + 1, Below(es[i]), top, e);
    }
  }

  /** What the modes are once the first n entries held were written. */
  ghost predicate Written(modes: map<Ino, Mode>, was: map<Ino, Mode>, done: multiset<Ino>) {
    modes.Keys == was.Keys && forall x :: x in was ==> modes[x] == if x in done then Cleared(was[x]) else was[x]
  }

  /** Some of these entries' modes were written. */
  ghost predicate Partly(modes: map<Ino, Mode>, was: map<Ino, Mode>, some: multiset<Ino>) {
    modes.Keys == was.Keys && forall x :: x in was ==> modes[x] == was[x] || (x in some && modes[x] == Cleared(was[x]))
  }

  lemma WrittenOne(modes: map<Ino, Mode>, was: map<Ino, Mode>, done: multiset<Ino>, x: Ino)
    requires x in was && Written(modes, was, done)
    ensures Written(modes[x := Cleared(was[x])], was, done + multiset{x})
  {
  }

  lemma WrittenStep(modes: map<Ino, Mode>, was: map<Ino, Mode>, es: seq<Entry>, n: nat)
    requires n < |es| && es[n].ino in was && Written(modes, was, Own(es[..n]))
    ensures Written(modes[es[n].ino := Cleared(was[es[n].ino])], was, Own(es[..n + 1]))
  {
    assert es[..n + 1] == es[..n] + [es[n]];
    OwnConcat(es[..n], es[n]);
    WrittenOne(modes, was, Own(es[..n]), es[n].ino);
  }

  lemma Shorter<T>(s: seq<T>, m: nat, n: nat)
    requires n <= m <= |s|
    ensures s[..m][..n] == s[..n]
  {
  }

  lemma {:induction false} OwnPrefix(es: seq<Entry>, n: nat, x: Ino)
    requires n <= |es| && x in Own(es[..n])
    ensures x in Own(es)
    decreases |es|
  {
    if n == |es| {
      assert es[..n] == es;
    } else {
      var m := |es| - 1;
      Shorter(es, m, n);
      OwnPrefix(es[..m], n, x);
    }
  }

  lemma WrittenPartly(modes: map<Ino, Mode>, was: map<Ino, Mode>, es: seq<Entry>, n: nat)
    requires n <= |es| && Written(modes, was, Own(es[..n]))
    ensures Partly(modes, was, Own(es))
  {
    forall x | x in Own(es[..n])
      ensures x in Own(es)
    {
      OwnPrefix(es, n, x);
    }
  }

  lemma HeldAt(all: seq<Entry>, held: seq<Held>, open: map<Fd, Ino>, modes: map<Ino, Mode>, was: map<Fd, Ino>, first: Fd, n: nat)
    requires Holding(all, held, open, modes, was, first) && n < |all|
    ensures |held| == |all| && held[n].fd in open && open[held[n].fd] == all[n].ino
    ensures all[n].ino in modes && held[n].mode == modes[all[n].ino]
  {
  }

  method WriteOne(k: Kernel, all: seq<Entry>, h: Held, n: nat, ghost was: map<Ino, Mode>)
    requires n < |all| && h.fd in k.open && k.open[h.fd] == all[n].ino && all[n].ino in was && h.mode == was[all[n].ino]
    requires Written(k.modes, was, Own(all[..n]))
    modifies k`modes
    ensures Written(k.modes, was, Own(all[..n + 1]))
  {
    WrittenStep(k.modes, was, all, n);
    k.Fchmod(h.fd, Cleared(h.mode));
  }

  /** The kernel lets every one of these modes be written. */
  predicate Writable(es: seq<Entry>, a: Answers) {
    forall i :: 0 <= i < |es| ==> es[i].ino !in a.unwritten
  }

  lemma WritableOn(es: seq<Entry>, n: nat, a: Answers)
    requires n < |es| && Writable(es[..n], a) && es[n].ino !in a.unwritten
    ensures Writable(es[..n + 1], a)
  {
    assert es[..n + 1] == es[..n] + [es[n]];
  }

  lemma Ends(es: seq<Entry>)
    ensures es[..0] == [] && es[..|es|] == es
  {
  }

  /** The write loop: each mode is the one the scan found, without those bits. */
  method WriteModes(k: Kernel, all: seq<Entry>, held: seq<Held>, a: Answers, ghost was: map<Fd, Ino>, ghost first: Fd) returns (ok: bool)
    requires Holding(all, held, k.open, k.modes, was, first)
    modifies k`modes
    ensures ok ==> Written(k.modes, old(k.modes), Own(all))
    ensures Partly(k.modes, old(k.modes), Own(all))
    ensures ok <==> Writable(all, a)
  {
    ghost var modes := k.modes;
    Ends(all);
    for n := 0 to |all|
      invariant k.open == old(k.open) && Written(k.modes, modes, Own(all[..n]))
      invariant Writable(all[..n], a)
    {
      if all[n].ino in a.unwritten {
        WrittenPartly(k.modes, modes, all, n);
        assert !Writable(all, a);
        return false;
      }
      HeldAt(all, held, k.open, modes, was, first, n);
      WriteOne(k, all, held[n], n, modes);
      WritableOn(all, n, a);
    }
    WrittenPartly(k.modes, modes, all, |all|);
    ok := true;
  }

  /** Every descriptor held is closed, once. */
  method CloseAll(k: Kernel, all: seq<Entry>, held: seq<Held>, ghost was: map<Fd, Ino>, ghost first: Fd)
    requires k.Valid() && Opened(all, held, k.open, was, first)
    modifies k`open
    ensures k.Valid() && k.open == was
  {
    for n := 0 to |held|
      invariant k.Valid() && (forall fd :: fd in k.open <==> fd in was || first + n <= fd < first + |all|)
      invariant forall fd :: fd in was ==> k.open[fd] == was[fd]
    {
      k.Close(held[n].fd);
    }
  }

  lemma {:induction false} OwnHas(es: seq<Entry>)
    ensures forall x :: x in Own(es) <==> exists i :: 0 <= i < |es| && es[i].ino == x
    decreases |es|
  {
    if es != [] {
      var n := |es| - 1;
      OwnHas(es[..n]);
      forall x
        ensures x in Own(es) <==> exists i :: 0 <= i < |es| && es[i].ino == x
      {
        assert x in Own(es) <==> x == es[n].ino || x in Own(es[..n]);
        if x in Own(es[..n]) {
          var i :| 0 <= i < n && es[..n][i].ino == x;
          assert es[i].ino == x;
        } else if i :| 0 <= i < |es| && es[i].ino == x && i != n {
          assert es[..n][i].ino == x;
        }
      }
    }
  }

  /** Every entry of a tree is the caller's own, a folder or a file of one name, and the
      kernel let it be opened, stated as the same entry, and listed. */
  predicate Sound(e: Entry, a: Answers)
    decreases e
  {
    && e.owned && (e.kind.IsFolder? || e.kind == IsFile(0) || e.kind == IsFile(1))
    && e.ino !in a.unopened && e.ino !in a.unstated && e.ino !in a.moved
    && (e.kind.IsFolder? ==> e.ino !in a.unread && forall i :: 0 <= i < |e.below| ==> Sound(e.below[i], a))
  }

  lemma {:induction false} AcceptedIsSound(e: Entry, a: Answers)
    ensures AllAccepted(e, a) <==> Sound(e, a)
    decreases e
  {
    forall i | 0 <= i < |e.below|
      ensures AllAccepted(e.below[i], a) <==> Sound(e.below[i], a)
    {
      AcceptedIsSound(e.below[i], a);
    }
  }

  /** Any refusal during the scan leaves every mode as it was; on success every
      entry of the tree has lost its group and other write bits and nothing else,
      and nothing outside the tree changed; every descriptor is closed. */
  method ProtectModels(k: Kernel, top: Entry, a: Answers) returns (r: Outcome)
    requires k.Valid() && forall x :: x in Inos(top) ==> x in k.modes
    modifies k
    ensures k.Valid() && k.open == old(k.open)
    ensures r.Refused? <==> !(top.kind.IsFolder? && Sound(top, a))
    ensures r.Refused? ==> k.modes == old(k.modes)
    ensures r.Done? ==> Written(k.modes, old(k.modes), Inos(top))
    ensures r.Unwritten? ==> Partly(k.modes, old(k.modes), Inos(top))
    ensures !r.Refused? ==> (r.Unwritten? <==> exists x :: x in Inos(top) && x in a.unwritten)
  {
    var all, held, ok := Scan(k, top, a);
    AcceptedIsSound(top, a);
    r := Refused;
    ghost var was, first := old(k.open), old(k.next);
    if ok {
      var written := WriteModes(k, all, held, a, was, first);
      r := if written then Done else Unwritten;
      OwnHas(all);
    }
    CloseAll(k, all, held, was, first);
  }
}
