/** The per-mount limiter of volume probes (localpath_statfs.go:77-158). Each
    method is one region under the lock, so every interleaving of callers is some
    sequence of calls; channels are numbers, closed once. */
module Probes {
  import opened Options

  const MAX_STUCK := 8  // maxStuckVolumeProbes

  class Probe {
    var stuck: bool
    var done: bool

    constructor ()
      ensures !stuck && !done
    {
      stuck, done := false, false;
    }
  }

  /** One mount's counters, and the channel its waiting callers share. */
  datatype Counts = Counts(outstanding: int, stuck: int, freed: Option<nat>)

  datatype Attempt = Started(p: Probe) | Refused | WaitFor(freed: nat)

  /** A channel that is not closed is the one its mount's next end will close. */
  predicate ChannelsOk(mounts: map<string, Counts>, next: nat, closed: set<nat>, made: map<nat, string>) {
    && (forall c :: c in made ==> c < next)
    && (forall c :: c in made && c !in closed ==> made[c] in mounts && mounts[made[c]].freed == Some(c))
    && (forall m :: m in mounts && mounts[m].freed.Some? ==>
          mounts[m].freed.value in made && made[mounts[m].freed.value] == m && mounts[m].freed.value !in closed)
    && (forall c :: c in closed ==> c < next)
  }

  /** Counting changes no channel. */
  lemma CountKeeps(mounts: map<string, Counts>, next: nat, closed: set<nat>, made: map<nat, string>, mount: string, m: Counts)
    requires ChannelsOk(mounts, next, closed, made) && m.freed == if mount in mounts then mounts[mount].freed else None
    ensures ChannelsOk(mounts[mount := m], next, closed, made)
  {
  }

  lemma MakeKeeps(mounts: map<string, Counts>, next: nat, closed: set<nat>, made: map<nat, string>, mount: string)
    requires ChannelsOk(mounts, next, closed, made) && mount in mounts && mounts[mount].freed.None?
    ensures ChannelsOk(mounts[mount := mounts[mount].(freed := Some(next))], next + 1, closed, made[next := mount])
  {
  }

  /** What ending a probe leaves of the mounts. */
  function Ended(mounts: map<string, Counts>, mount: string, m: Counts): map<string, Counts> {
    if m.outstanding == 0 then mounts - {mount} else mounts[mount := m]
  }

  lemma EndKeeps(mounts: map<string, Counts>, next: nat, closed: set<nat>, made: map<nat, string>, mount: string, m: Counts)
    requires ChannelsOk(mounts, next, closed, made) && mount in mounts && m.freed.None?
    ensures var closed' := if mounts[mount].freed.Some? then closed + {mounts[mount].freed.value} else closed;
            && ChannelsOk(Ended(mounts, mount, m), next, closed', made)
            && closed' == closed + set c | c in made && made[c] == mount && c !in closed
  {
    var woken := set c | c in made && made[c] == mount && c !in closed;
    if mounts[mount].freed.Some? {
      assert woken == {mounts[mount].freed.value};
    } else {
      assert woken == {};
    }
  }

  /** The probes outstanding on a mount, and those of them that are stuck. */
  function On(live: map<Probe, string>, mount: string): set<Probe> {
    set p | p in live && live[p] == mount
  }

  function StuckOn(live: map<Probe, string>, stuck: set<Probe>, mount: string): set<Probe> {
    On(live, mount) * stuck
  }

  /** An entry exists exactly while probes are outstanding on its mount, and
      counts them and those that are stuck. */
  predicate Counted(mounts: map<string, Counts>, live: map<Probe, string>, stuck: set<Probe>, mount: string) {
    if mount in mounts then
      && mounts[mount].outstanding == |On(live, mount)| && 0 < |On(live, mount)| <= MAX_STUCK
      && mounts[mount].stuck == |StuckOn(live, stuck, mount)|
    else On(live, mount) == {}
  }

  ghost predicate AllCounted(mounts: map<string, Counts>, live: map<Probe, string>, stuck: set<Probe>) {
    forall m :: Counted(mounts, live, stuck, m)
  }

  lemma JoinedOn(live: map<Probe, string>, stuck: set<Probe>, mount: string, p: Probe)
    requires p !in live && p !in stuck
    ensures |On(live[p := mount], mount)| == |On(live, mount)| + 1
    ensures StuckOn(live[p := mount], stuck, mount) == StuckOn(live, stuck, mount)
  {
    assert On(live[p := mount], mount) == On(live, mount) + {p};
  }

  lemma StartCounts(mounts: map<string, Counts>, live: map<Probe, string>, stuck: set<Probe>, mount: string, p: Probe, m: Counts)
    requires AllCounted(mounts, live, stuck) && p !in live && p !in stuck
    requires m.outstanding == |On(live, mount)| + 1 <= MAX_STUCK && m.stuck == |StuckOn(live, stuck, mount)|
    ensures AllCounted(mounts[mount := m], live[p := mount], stuck)
  {
    var mounts', live' := mounts[mount := m], live[p := mount];
    JoinedOn(live, stuck, mount, p);
    forall k
      ensures Counted(mounts', live', stuck, k)
    {
      if k != mount {
        assert Counted(mounts, live, stuck, k);
        assert On(live', k) == On(live, k);
      }
    }
  }

  lemma EndCounts(mounts: map<string, Counts>, live: map<Probe, string>, stuck: set<Probe>, mount: string, p: Probe, m: Counts)
    requires AllCounted(mounts, live, stuck) && p in live && live[p] == mount
    requires m.outstanding == |On(live, mount)| - 1 && m.stuck == |StuckOn(live, stuck, mount)| - if p in stuck then 1 else 0
    ensures AllCounted(Ended(mounts, mount, m), live - {p}, stuck)
  {
    var mounts', live' := Ended(mounts, mount, m), live - {p};
    assert Counted(mounts, live, stuck, mount);
    assert On(live', mount) == On(live, mount) - {p} && p in On(live, mount);
    assert StuckOn(live', stuck, mount) == StuckOn(live, stuck, mount) - {p};
    forall k
      ensures Counted(mounts', live', stuck, k)
    {
      if k != mount {
        assert Counted(mounts, live, stuck, k);
        assert On(live', k) == On(live, k);
      }
    }
  }

  lemma StuckCounts(mounts: map<string, Counts>, live: map<Probe, string>, stuck: set<Probe>, mount: string, p: Probe)
    requires AllCounted(mounts, live, stuck) && p in live && live[p] == mount && p !in stuck
    ensures mount in mounts
    ensures AllCounted(mounts[mount := mounts[mount].(stuck := mounts[mount].stuck + 1)], live, stuck + {p})
  {
    assert Counted(mounts, live, stuck, mount) && p in On(live, mount);
    var mounts' := mounts[mount := mounts[mount].(stuck := mounts[mount].stuck + 1)];
    forall k
      ensures Counted(mounts', live, stuck + {p}, k)
    {
      assert Counted(mounts, live, stuck, k);
      if k == mount {
        assert StuckOn(live, stuck + {p}, k) == StuckOn(live, stuck, k) + {p};
      } else {
        assert StuckOn(live, stuck + {p}, k) == StuckOn(live, stuck, k);
      }
    }
  }

  class Limiter {
    var mounts: map<string, Counts>
    var next: nat                          // the next channel
    var closed: set<nat>                   // channels closed so far
    ghost var live: map<Probe, string>     // probes started and not ended, with their mount
    ghost var stuck: set<Probe>            // probes that outlived their caller
    ghost var made: map<nat, string>       // channels made, with their mount

    ghost predicate Valid()
      reads this, live.Keys
    {
      && AllCounted(mounts, live, stuck)
      && ChannelsOk(mounts, next, closed, made)
      && (forall p :: p in live ==> !p.done && (p.stuck <==> p in stuck))
    }

    constructor ()
      ensures Valid() && live == map[] && stuck == {} && made == map[]
    {
      mounts, next, closed, live, stuck, made := map[], 0, {}, map[], {}, map[];
    }

    /** The counts of a mount, zero for one not seen. */
    function CountsOf(mount: string): Counts
      reads this`mounts
    {
      if mount in mounts then mounts[mount] else Counts(0, 0, None)
    }

    /** There is room: a new probe is counted. */
    method Count(mount: string) returns (p: Probe)
      requires Valid() && CountsOf(mount).outstanding < MAX_STUCK
      modifies this`mounts, this`live
      ensures Valid() && fresh(p) && live == old(live)[p := mount]
    {
      assert Counted(mounts, live, stuck, mount);
      p := new Probe();
      var m := CountsOf(mount);
      m := m.(outstanding := m.outstanding + 1);
      CountKeeps(mounts, next, closed, made, mount, m);
      StartCounts(mounts, live, stuck, mount, p, m);
      mounts := mounts[mount := m];
      live := live[p := mount];
    }

    /** There is none: the caller waits on the mount's channel, made if there is none. */
    method Await(mount: string) returns (c: nat)
      requires Valid() && mount in mounts
      modifies this`mounts, this`next, this`made
      ensures Valid() && c !in closed && made == old(made)[c := mount]
    {
      var m := mounts[mount];
      if m.freed.Some? {
        return m.freed.value;
      }
      MakeKeeps(mounts, next, closed, made, mount);
      FreedCounts(mounts, live, stuck, mount, Some(next));
      made := made[next := mount];
      mounts := mounts[mount := m.(freed := Some(next))];
      c, next := next, next + 1;
    }

    /** One turn of startProbe: count a new probe while there is room, refuse if
        one on this mount is stuck, and otherwise wait for one to end. */
    method StartProbe(mount: string) returns (r: Attempt)
      requires Valid()
      modifies this
      ensures Valid() && stuck == old(stuck) && closed == old(closed)
      ensures var outstanding := |On(old(live), mount)|;
              match r
              case Started(p) => outstanding < MAX_STUCK && fresh(p) && live == old(live)[p := mount] && made == old(made)
              case Refused =>
                outstanding == MAX_STUCK && StuckOn(live, stuck, mount) != {} && live == old(live) && made == old(made)
              case WaitFor(c) =>
                && outstanding == MAX_STUCK && StuckOn(live, stuck, mount) == {} && live == old(live)
                && c !in closed && made == old(made)[c := mount]
    {
      assert Counted(mounts, live, stuck, mount);
      var m := CountsOf(mount);
      if m.outstanding < MAX_STUCK {
        var p := Count(mount);
        r := Started(p);
      } else if 0 < m.stuck {
        r := Refused;
      } else {
        var c := Await(mount);
        r := WaitFor(c);
      }
    }

    /** A probe returned: it is no longer counted, the mount's waiters are woken,
        and the mount is forgotten with its last probe. */
    method EndProbe(mount: string, p: Probe)
      requires Valid() && p in live && live[p] == mount
      modifies this, p`done
      ensures Valid() && p.done
      ensures live == old(live) - {p} && stuck == old(stuck) && made == old(made)
      ensures closed == old(closed) + set c | c in made && made[c] == mount && c !in old(closed)
    {
      assert Counted(mounts, live, stuck, mount) && p in On(live, mount);
      var m := mounts[mount];
      var left := Counts(m.outstanding - 1, if p.stuck then m.stuck - 1 else m.stuck, None);
      EndKeeps(mounts, next, closed, made, mount, left);
      EndCounts(mounts, live, stuck, mount, p, left);
      p.done := true;
      if m.freed.Some? {
        closed := closed + {m.freed.value};
      }
      if left.outstanding == 0 {
        mounts := mounts - {mount};
      } else {
        mounts := mounts[mount := left];
      }
      live := live - {p};
    }

    /** A probe outlived its caller's deadline, unless it has returned meanwhile. */
    method MarkStuck(mount: string, p: Probe)
      requires Valid() && if p in live then live[p] == mount else p.done
      modifies this`mounts, this`stuck, p`stuck
      ensures Valid() && p.stuck == (old(p.stuck) || !p.done)
      ensures stuck == if p.done then old(stuck) else old(stuck) + {p}
    {
      if !p.done && !p.stuck {
        StuckCounts(mounts, live, stuck, mount, p);
        CountKeeps(mounts, next, closed, made, mount, mounts[mount].(stuck := mounts[mount].stuck + 1));
        p.stuck := true;
        stuck := stuck + {p};
        mounts := mounts[mount := mounts[mount].(stuck := mounts[mount].stuck + 1)];
      }
    }
  }

  lemma FreedCounts(mounts: map<string, Counts>, live: map<Probe, string>, stuck: set<Probe>, mount: string, freed: Option<nat>)
    requires AllCounted(mounts, live, stuck) && mount in mounts
    ensures AllCounted(mounts[mount := mounts[mount].(freed := freed)], live, stuck)
  {
    var mounts' := mounts[mount := mounts[mount].(freed := freed)];
    forall k
      ensures Counted(mounts', live, stuck, k)
    {
      assert Counted(mounts, live, stuck, k);
    }
  }
}
