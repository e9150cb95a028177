/** The write of a headed frame (listen/framed.go:41-79): one write when the frame
    is small, two otherwise, each repeated until all of it is accepted. */
module Framing {
  import opened Options
  import opened Wire
  import opened SessionCalls

  const JOINED := 65536  // 64<<10

  /** What one Write reports: the bytes it accepted, and whether it failed. */
  datatype Taken = Taken(n: int, failed: bool)

  datatype Count = Count(written: nat, ok: bool)

  /** Which turn comes after `left` bytes were accepted, write after write: each
      must take some of what is left and must not fail. */
  function Accepted(left: nat, answers: seq<Taken>, turn: nat): (next: Option<nat>)
    ensures next.Some? ==> turn <= next.value
    decreases left
  {
    if left == 0 then Some(turn)
    else
      var a := if turn < |answers| then answers[turn] else Taken(left, false);
      if 0 < a.n <= left && !a.failed then Accepted(left - a.n, answers, turn + 1) else None
  }

  /** The inner loop: one part, in as many writes as it takes. `answers` are the
      connection's, from `turn` on; past their end a write accepts everything. */
  method WritePart(conn: Stream, part: seq<Byte>, answers: seq<Taken>, turn: nat) returns (c: Count, next: nat)
    modifies conn`written
    ensures c.written <= |part| && conn.written == old(conn.written) + part[..c.written]
    ensures c.ok ==> c.written == |part|
    ensures c.ok <==> Accepted(|part|, answers, turn).Some?
    ensures c.ok ==> next == Accepted(|part|, answers, turn).value
  {
    var done := 0;
    next := turn;
    while done < |part|
      invariant done <= |part| && turn <= next && conn.written == old(conn.written) + part[..done]
      invariant Accepted(|part|, answers, turn) == Accepted(|part| - done, answers, next)
      decreases |part| - done, |answers| - next
    {
      var a := if next < |answers| then answers[next] else Taken(|part| - done, false);
      next := next + 1;
      if a.n < 0 || |part| - done < a.n {
        return Count(done, false), next;
      }
      conn.PutSome(part[done..], a.n);
      assert part[..done] + part[done..][..a.n] == part[..done + a.n];
      done := done + a.n;
      if a.failed || a.n == 0 {
        return Count(done, false), next;
      }
    }
    c := Count(done, true);
  }

  /** Whatever the connection accepts, what it carries is a beginning of the header
      and the frame, as long as the count says; success means all of it, and comes
      exactly when every write of a part took some of it without failing. */
  method WriteHeadedCount(conn: Stream, header: Word, frame: seq<Byte>, answers: seq<Taken>) returns (c: Count)
    modifies conn`written
    ensures c.written <= 4 + |frame| && conn.written == old(conn.written) + (Be32(header) + frame)[..c.written]
    ensures c.ok ==> c.written == 4 + |frame|
    ensures c.ok <==>
              if |frame| <= JOINED then Accepted(4 + |frame|, answers, 0).Some?
              else Accepted(4, answers, 0).Some? && Accepted(|frame|, answers, Accepted(4, answers, 0).value).Some?
  {
    var h := Be32(header);
    if |frame| <= JOINED {
      var next: nat;
      c, next := WritePart(conn, h + frame, answers, 0);
      return;
    }
    var first, next := WritePart(conn, h, answers, 0);
    assert (h + frame)[..first.written] == h[..first.written];
    if !first.ok {
      return first;
    }
    assert h[..first.written] == h;
    var second, _ := WritePart(conn, frame, answers, next);
    assert (h + frame)[..4 + second.written] == h + frame[..second.written];
    c := Count(4 + second.written, second.ok);
  }
}
