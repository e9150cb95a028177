/** Ownership of pipe handles in the Windows listener (listen/listen_windows.go:
    167-300). acceptMu and mu are the fields `accepts` and `locked`: a method that
    takes a lock is called only while it is free, so every interleaving of Accept
    and Close is some sequence of calls. The kernel's answers are parameters. */
module Pipes {
  type Handle = nat  // 0 is no handle

  datatype Place = Waiting | Armed | Handed | Closed

  /** ConnectNamedPipe's answer. */
  datatype Connect = Immediate | Pending | Fails

  /** armedAccept: one initiated connect. */
  datatype ArmedAccept = ArmedAccept(h: Handle, port: Handle, failed: bool, pending: bool)

  datatype Result<T> = Ok(value: T) | ErrClosed | ErrFailed

  class PipeListener {
    var waiting: Handle
    var accepting: bool
    var closed: bool
    var accepts: bool                     // acceptMu is held
    var locked: bool                      // mu is held from Arm to Connected
    ghost var places: map<Handle, Place>  // every pipe handle made, and where it is
    ghost var ports: set<Handle>          // completion ports open
    ghost var armed: set<ArmedAccept>     // the accept between Arm and Connected

    /** Each handle is where exactly one owner has it: the listener's field, the
        accept under way, the connection it was handed to, or nobody once closed. */
    ghost predicate Owned()
      reads this
    {
      && (forall h :: h in places ==> h != 0)
      && (forall h :: h in places && places[h].Waiting? ==> waiting == h)
      && (forall h :: h in places && places[h].Armed? ==> exists a :: a in armed && a.h == h)
      && (forall a :: a in armed ==> a.h in places && places[a.h].Armed? && (waiting == 0 || waiting == a.h))
      && (waiting != 0 ==> waiting in places && (places[waiting].Waiting? || places[waiting].Armed?))
    }

    ghost predicate Valid()
      reads this
    {
      && Owned()
      && (closed <==> waiting == 0)
      && (accepts <==> armed != {})
      && (forall a, b :: a in armed && b in armed ==> a == b)
      && ports == (set a | a in armed :: a.port)
      && (forall a :: a in armed ==> accepting == a.pending && locked == !a.pending && (locked ==> !closed))
      && (armed == {} ==> !accepting && !locked)
    }

    /** The first instance claims the name. */
    constructor (h: Handle)
      requires h != 0
      ensures Valid() && !closed && places == map[h := Waiting] && armed == {}
    {
      waiting, accepting, closed, accepts, locked := h, false, false, false, false;
      places, ports, armed := map[h := Waiting], {}, {};
    }

    /** Closing a handle that is open and that no connection owns. */
    method CloseHandle(h: Handle)
      requires h in places && (places[h].Waiting? || places[h].Armed?)
      modifies this`places
      ensures places == old(places)[h := Closed]
    {
      places := places[h := Closed];
    }

    method Arm(port: Handle, portOk: bool, answer: Connect) returns (r: Result<ArmedAccept>)
      requires Valid() && !accepts && !locked
      modifies this
      ensures Valid() && closed == old(closed)
      ensures r.ErrClosed? <==> old(closed)
      ensures r.Ok? <==> !old(closed) && portOk
      ensures r.Ok? ==> armed == {r.value} && r.value == ArmedAccept(old(waiting), port, answer.Fails?, answer.Pending?)
      ensures r.Ok? ==> places == old(places)[r.value.h := Armed] && waiting == old(waiting)
      ensures !r.Ok? ==> places == old(places) && armed == {}
    {
      if closed {
        return ErrClosed;
      }
      if !portOk {
        return ErrFailed;
      }
      assert places[waiting].Waiting?;  // the handle joined to the port and connected is open
      var a := ArmedAccept(waiting, port, answer.Fails?, answer.Pending?);
      accepts, locked := true, true;
      if answer.Pending? {
        accepting, locked := true, false;
      }
      armed, places, ports := {a}, places[a.h := Armed], {port};
      r := Ok(a);
    }

    /** The second half of Accept. `next` is the handle CreateNamedPipe makes, if
        it makes one; `cancelled` says a pending connect did not complete, and
        `left` that the connected handle could leave its accept port. */
    method Connected(a: ArmedAccept, cancelled: bool, next: Handle, made: bool, left: bool) returns (r: Result<Handle>)
      requires Valid() && a in armed && next != 0 && next !in places
      modifies this
      ensures Valid() && armed == {} && !accepts
      ensures old(closed) ==> r.ErrClosed? && closed && places == old(places)[a.h := Closed]
      ensures !old(closed) && !made ==> r.ErrFailed? && closed && places == old(places)[a.h := Closed]
      ensures !old(closed) && made ==>
                && !closed && waiting == next
                && (r.Ok? <==> left && !(if a.pending then cancelled else a.failed))
                && places == old(places)[next := Waiting][a.h := if r.Ok? then Handed else Closed]
                && (r.Ok? ==> r.value == a.h) && !r.ErrClosed?
    {
      var failed := if a.pending then cancelled else a.failed;
      accepting, accepts, locked := false, false, false;
      ports, armed := ports - {a.port}, {};
      if closed {
        CloseHandle(a.h);
        return ErrClosed;
      }
      if !made {
        closed, waiting := true, 0;
        CloseHandle(a.h);
        return ErrFailed;
      }
      waiting := next;
      assert places[a.h].Armed?;  // the handle taken off its port is open
      places := places[next := Waiting];
      if failed || !left {
        CloseHandle(a.h);
        return ErrFailed;
      }
      places := places[a.h := Handed];
      r := Ok(a.h);
    }

    /** Close leaves a handle whose connect is pending to the accept that waits for it. */
    method Close() returns (r: Result<()>)
      requires Valid() && !locked
      modifies this
      ensures Valid() && closed && armed == old(armed)
      ensures r.ErrClosed? <==> old(closed)
      ensures places == if old(closed) || old(accepting) then old(places) else old(places)[old(waiting) := Closed]
    {
      if closed {
        return ErrClosed;
      }
      closed := true;
      var h := waiting;
      waiting := 0;
      if accepting {
        assert places[h].Armed?;  // the handle whose connect is cancelled is open
      } else {
        CloseHandle(h);
      }
      r := Ok(());
    }

    /** Once the listener is closed and no accept is under way, every handle it
        made was handed to a connection or closed. */
    lemma NothingLeaks()
      requires Valid() && closed && !accepts
      ensures forall h :: h in places ==> places[h].Handed? || places[h].Closed?
      ensures ports == {}
    {
    }
  }
}
