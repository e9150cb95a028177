/** The server half of a session as the objects listen/session.go updates in
    place: the connection, the session's flags, and one exchange served as a
    connection of its own. Every locked region of the source is one method; the
    network's and the clock's answers are parameters. */
module SessionCalls {
  import opened Options
  import opened Wire

  datatype Err =
    | Nil
    | ErrClosed
    | ErrExpired
    | ErrTooLarge
    | ErrUnexpectedResponse
    | ErrProtocol
    | Eof
    | Timeout
    | Broken

  /** One direction pair of a connection, seen from the server: everything that
      has arrived, how much of it was read, and everything written. */
  class Stream {
    var incoming: seq<Byte>
    var readAt: nat
    var written: seq<Byte>

    ghost predicate Valid()
      reads this
    {
      readAt <= |incoming|
    }

    constructor ()
      ensures Valid() && incoming == [] && readAt == 0 && written == []
    {
      incoming, readAt, written := [], 0, [];
    }

    /** The peer's bytes arrive in order behind those already there. */
    method Arrive(bytes: seq<Byte>)
      requires Valid()
      modifies this`incoming
      ensures Valid() && incoming == old(incoming) + bytes
    {
      incoming := incoming + bytes;
    }

    /** A read hands over any prefix, of at most `size` bytes, of what is there. */
    method Take(size: nat, n: nat) returns (data: seq<Byte>)
      requires Valid() && n <= size && readAt + n <= |incoming|
      modifies this`readAt
      ensures Valid() && readAt == old(readAt) + n
      ensures data == incoming[old(readAt)..readAt]
    {
      data := incoming[readAt..readAt + n];
      readAt := readAt + n;
    }

    /** A write puts all of its bytes on the connection, or fails after some. */
    method PutAll(bytes: seq<Byte>)
      modifies this`written
      ensures written == old(written) + bytes
    {
      written := written + bytes;
    }

    method PutSome(bytes: seq<Byte>, n: nat)
      requires n <= |bytes|
      modifies this`written
      ensures written == old(written) + bytes[..n]
    {
      written := written + bytes[..n];
    }
  }

  /** How the session moves on once its idle read has ended. */
  datatype IdleExit = Serve | FinishHeader | SendMarker | End

  /** nextHeader's decision after the idle read stopped with n of 4 bytes. */
  function LeaveIdle(n: nat, timeout: bool, retiring: bool): IdleExit
    requires n <= 4
  {
    if retiring then
      if n == 0 then SendMarker else End
    else if n == 0 then
      if timeout then SendMarker else End
    else if n == 4 then Serve
    else if timeout then FinishHeader
    else End
  }

  /** run's decision once a call is done. */
  datatype CallExit = GoIdle | Retire | Stop

  function LeaveCall(broken: bool, continued: bool, retiring: bool): CallExit {
    if broken || !continued then Stop
    else if retiring then Retire
    else GoIdle
  }

  class Session {
    const pc: Stream
    var idle: bool
    var retiring: bool
    var expires: nat

    constructor (pc: Stream, expires: nat)
      ensures this.pc == pc && this.expires == expires && !idle && !retiring
    {
      this.pc, this.expires, idle, retiring := pc, expires, false, false;
    }

    /** Zero is no deadline. */
    predicate Expired(now: nat)
      reads this
    {
      expires != 0 && expires <= now
    }

    /** Asks the session to end; says whether it was waiting for a request. */
    method RetireSession() returns (wasIdle: bool)
      modifies this`retiring
      ensures retiring && wasIdle == idle
    {
      retiring := true;
      wasIdle := idle;
    }

    method IsRetiring(now: nat) returns (r: bool)
      modifies this`retiring
      ensures retiring == (old(retiring) || Expired(now)) && r == retiring
    {
      if Expired(now) {
        retiring := true;
      }
      r := retiring;
    }

    /** The region of `run` after a call: end, retire with the marker, or wait. */
    method FinishCall(broken: bool, continued: bool, now: nat) returns (exit: CallExit)
      modifies this`idle, this`retiring
      ensures exit == LeaveCall(broken, continued, old(retiring) || Expired(now))
      ensures exit == GoIdle <==> !broken && continued && !old(retiring) && !Expired(now)
      ensures exit == Retire <==> !broken && continued && (old(retiring) || Expired(now))
      ensures exit == GoIdle ==> idle && !retiring
      ensures exit != GoIdle ==> idle == old(idle)
    {
      if broken || !continued {
        return Stop;
      }
      if Expired(now) {
        retiring := true;
      }
      if retiring {
        return Retire;
      }
      idle := true;
      exit := GoIdle;
    }

    /** The region of `nextHeader` after its read: idle ends under the lock
        retire uses, so exactly one of the two wins. */
    method NextHeader(n: nat, timeout: bool, now: nat) returns (exit: IdleExit)
      requires n <= 4
      modifies this`idle
      ensures !idle && retiring == old(retiring)
      ensures exit == LeaveIdle(n, timeout, retiring || Expired(now))
      ensures exit == Serve <==> n == 4 && !retiring && !Expired(now)
      ensures exit == FinishHeader <==> 0 < n < 4 && timeout && !retiring && !Expired(now)
      ensures exit == SendMarker <==> n == 0 && (timeout || retiring || Expired(now))
      ensures exit == End <==> if n == 0 then !timeout && !retiring && !Expired(now) else retiring || Expired(now) || (n < 4 && !timeout)
    {
      idle := false;
      var stop := retiring || Expired(now);
      if stop {
        exit := if n == 0 then SendMarker else End;
      } else if n == 0 {
        exit := if timeout then SendMarker else End;
      } else if n < 4 {
        exit := if timeout then FinishHeader else End;
      } else {
        exit := Serve;
      }
    }
  }

  /** The length a reply announces, once four bytes of it were offered. */
  function Announced(offered: seq<Byte>): Word
    requires 4 <= |offered|
  {
    Word32(offered[..4])
  }

  /** The session's wire form of a plain reply stream: nothing until the length
      is complete, then the session header and as much body as was announced. */
  function Translate(offered: seq<Byte>, keep: bool): (wire: seq<Byte>) {
    if |offered| < 4 || LENGTH_MASK < Announced(offered) then []
    else
      var length := Announced(offered);
      Be32(ReplyHeader(length, keep)) + offered[4..Min(|offered|, 4 + length)]
  }

  /** Everything the reply announced has been offered. */
  predicate Whole(offered: seq<Byte>) {
    4 <= |offered| && Announced(offered) <= LENGTH_MASK && 4 + Announced(offered) <= |offered|
  }

  /** Body bytes announced and not yet offered. */
  function Owed(offered: seq<Byte>): nat {
    if |offered| < 4 || LENGTH_MASK < Announced(offered) || 4 + Announced(offered) <= |offered| then 0
    else 4 + Announced(offered) - |offered|
  }

  /** The first `end` elements of two sequences joined, from `from` on. */
  lemma JoinedUpTo(a: seq<Byte>, b: seq<Byte>, from: nat, end: nat)
    requires from <= |a| && from <= end
    ensures var k := if end <= |a| then 0 else Min(|b|, end - |a|);
            (a + b)[from..Min(|a + b|, end)] == a[from..Min(|a|, end)] + b[..k]
  {
  }

  /** What a further chunk adds to the wire once the length is known. */
  lemma TranslateMore(offered: seq<Byte>, chunk: seq<Byte>, keep: bool)
    requires 4 <= |offered| && Announced(offered) <= LENGTH_MASK
    ensures Translate(offered + chunk, keep) == Translate(offered, keep) + chunk[..Min(|chunk|, Owed(offered))]
    ensures Owed(offered + chunk) == Owed(offered) - Min(|chunk|, Owed(offered))
    ensures Whole(offered + chunk) <==> Owed(offered) <= |chunk|
  {
    var all := offered + chunk;
    assert all[..4] == offered[..4];
    var end := 4 + Announced(offered);
    JoinedUpTo(offered, chunk, 4, end);
    Associative(Be32(ReplyHeader(end - 4, keep)), offered[4..Min(|offered|, end)], chunk[..Min(|chunk|, Owed(offered))]);
  }

  /** Nothing was offered beyond what the reply announced. */
  predicate Fine(offered: seq<Byte>) {
    4 <= |offered| ==> Announced(offered) <= LENGTH_MASK && |offered| <= 4 + Announced(offered)
  }

  /** A reply in progress: the gathered length, the body still owed, the answer's
      flags, and everything on the connection. */
  datatype Reply = Reply(out: seq<Byte>, left: nat, replied: bool, continued: bool, wire: seq<Byte>)

  /** One write's effect, the bytes it took, and its error. */
  datatype Written = Written(reply: Reply, n: nat, err: Err)

  /** The write that gathers the length and, once it is complete, puts the
      session header and the body at hand on the connection. */
  function HeaderStep(r: Reply, p: seq<Byte>, keep: bool): (w: Written)
    requires |r.out| <= 4
  {
    var k := Min(|p|, 4 - |r.out|);
    var out := r.out + p[..k];
    if |out| < 4 then Written(r.(out := out), k, Nil)
    else if LENGTH_MASK < Word32(out) then Written(r.(out := out), k, ErrTooLarge)
    else
      var length := Word32(out);
      var m := k + Min(|p| - k, length);
      Written(r.(out := out, left := length - (m - k), continued := keep,
                 wire := r.wire + (Be32(ReplyHeader(length, keep)) + p[k..m])), m, Nil)
  }

  /** The write of body bytes, as far as the reply announced them. */
  function BodyStep(r: Reply, p: seq<Byte>): (w: Written) {
    var m := Min(|p|, r.left);
    Written(r.(left := r.left - m, replied := r.replied || r.left == m, wire := if 0 < m then r.wire + p[..m] else r.wire), m,
            if m < |p| then ErrProtocol else Nil)
  }

  function WriteStep(r: Reply, p: seq<Byte>, keep: bool): (w: Written)
    requires |r.out| <= 4
    ensures |w.reply.out| <= 4
  {
    if |r.out| == 4 then BodyStep(r, p)
    else
      var h := HeaderStep(r, p, keep);
      if h.err != Nil || |h.reply.out| < 4 then h
      else
        var w := BodyStep(h.reply, p[h.n..]);
        w.(n := h.n + w.n)
  }

  /** The wire carries the translation of everything offered, however it was
      split, and the flags agree with it. */
  ghost predicate Agrees(r: Reply, base: seq<Byte>, offered: seq<Byte>, keep: bool) {
    && r.out == offered[..Min(4, |offered|)]
    && r.left == Owed(offered)
    && r.wire == base + Translate(offered, keep)
    && (Fine(offered) ==>
          && (r.replied <==> Whole(offered))
          && (r.continued <==> keep && 4 <= |offered|))
  }

  lemma BodyAgrees(r: Reply, base: seq<Byte>, offered: seq<Byte>, keep: bool, p: seq<Byte>)
    requires |r.out| == 4 && Agrees(r.(replied := r.replied || r.left == 0), base, offered, keep)
    ensures var w := BodyStep(r, p);
            && Agrees(w.reply, base, offered + p, keep)
            && w.err == (if Owed(offered) < |p| then ErrProtocol else Nil)
            && w.n == Min(|p|, Owed(offered))
            && (w.err != Nil ==> !Fine(offered + p))
  {
    assert (offered + p)[..4] == offered[..4];
    if Announced(offered) <= LENGTH_MASK {
      var m := Min(|p|, r.left);
      TranslateMore(offered, p, keep);
      Associative(base, Translate(offered, keep), p[..m]);
      assert 0 < m || p[..m] == [];
    }
  }

  lemma TranslateFine(offered: seq<Byte>, keep: bool)
    requires 4 <= |offered| && Fine(offered)
    ensures Translate(offered, keep) == Be32(ReplyHeader(Announced(offered), keep)) + offered[4..]
  {
  }

  /** What was offered once the length is complete and part of the body came along. */
  lemma HeaderAgrees(r: Reply, base: seq<Byte>, offered: seq<Byte>, was: bool, p: seq<Byte>, keep: bool)
    requires Agrees(r, base, offered, was) && |offered| < 4 <= |offered + p|
    requires Announced(offered + p) <= LENGTH_MASK
    ensures var h := HeaderStep(r, p, keep);
            && h.err == Nil && h.n <= |p| && |h.reply.out| == 4
            && Agrees(h.reply.(replied := h.reply.replied || h.reply.left == 0), base, offered + p[..h.n], keep)
  {
    var k := 4 - |offered|;
    var out := offered + p[..k];
    assert (offered + p)[..4] == out;
    var length := Word32(out);
    var m := k + Min(|p| - k, length);
    var mid := offered + p[..m];
    assert mid[..4] == out && mid[4..] == p[k..m];
    assert Announced(mid) == length && Fine(mid);
    TranslateFine(mid, keep);
    assert r.out == offered && r.wire == base;
    assert HeaderStep(r, p, keep)
        == Written(Reply(out, length - (m - k), r.replied, keep, r.wire + (Be32(ReplyHeader(length, keep)) + p[k..m])), m, Nil);
  }

  /** The write that completes the length, header and body together. */
  lemma CompletingAgrees(r: Reply, base: seq<Byte>, offered: seq<Byte>, was: bool, p: seq<Byte>, keep: bool)
    requires Agrees(r, base, offered, was) && |offered| < 4 <= |offered + p|
    ensures var w := WriteStep(r, p, keep);
            && Agrees(w.reply, base, offered + p, keep)
            && (w.err == Nil <==> Fine(offered + p))
            && (w.err == Nil ==> w.n == |p|)
  {
    var k := 4 - |offered|;
    assert (offered + p)[..4] == offered + p[..k];
    if Announced(offered + p) <= LENGTH_MASK {
      HeaderAgrees(r, base, offered, was, p, keep);
      var h := HeaderStep(r, p, keep);
      BodyAgrees(h.reply, base, offered + p[..h.n], keep, p[h.n..]);
      Rejoined(p, h.n);
      Associative(offered, p[..h.n], p[h.n..]);
    }
  }

  /** One write on a healthy connection keeps the agreement, whatever its size;
      the answer's bit is settled by the write that completes the length. */
  lemma WriteAgrees(r: Reply, base: seq<Byte>, offered: seq<Byte>, was: bool, p: seq<Byte>, keep: bool)
    requires Agrees(r, base, offered, was)
    ensures var w := WriteStep(r, p, keep);
            && Agrees(w.reply, base, offered + p, if |offered| < 4 then keep else was)
            && (w.err == Nil <==> Fine(offered + p) || (!Fine(offered) && p == []))
            && (w.err == Nil ==> w.n == |p|)
  {
    if 4 <= |offered| {
      assert (offered + p)[..4] == offered[..4];
      BodyAgrees(r, base, offered, was, p);
    } else if 4 <= |offered + p| {
      CompletingAgrees(r, base, offered, was, p, keep);
    }
  }

  /** The header's write on a connection that may fail under it: then the first
      `cut` of its bytes are on the wire, and the whole length is still owed. */
  function HeaderOn(r: Reply, p: seq<Byte>, keep: bool, cut: Option<nat>): (w: Written)
    requires |r.out| <= 4
    ensures |w.reply.out| <= 4
  {
    var h := HeaderStep(r, p, keep);
    if cut.None? || h.err != Nil || |h.reply.out| < 4 then h
    else
      var j := Min(|r.wire| + cut.value, |h.reply.wire|);
      Written(r.(out := h.reply.out, left := Word32(h.reply.out), wire := h.reply.wire[..j]), 4 - |r.out|, Broken)
  }

  /** The body's write on such a connection: the bytes it took are no longer owed,
      and the reply is not marked. */
  function BodyOn(r: Reply, p: seq<Byte>, cut: Option<nat>): (w: Written) {
    var m := Min(|p|, r.left);
    if cut.None? || m == 0 then BodyStep(r, p)
    else
      var j := Min(cut.value, m);
      Written(r.(left := r.left - j, wire := r.wire + p[..j]), j, Broken)
  }

  function WriteOn(r: Reply, p: seq<Byte>, keep: bool, cut: Option<nat>): (w: Written)
    requires |r.out| <= 4
    ensures |w.reply.out| <= 4
  {
    if |r.out| == 4 then BodyOn(r, p, cut)
    else
      var h := HeaderOn(r, p, keep, cut);
      if h.err != Nil || |h.reply.out| < 4 then h
      else
        var w := BodyStep(h.reply, p[h.n..]);
        w.(n := h.n + w.n)
  }

  /** One write as the handler makes it; `keep` is false once the session retires. */
  datatype Chunk = Chunk(bytes: seq<Byte>, keep: bool, cut: Option<nat>)

  function WriteOne(r: Reply, c: Chunk): (w: Written)
    requires |r.out| <= 4
    ensures |w.reply.out| <= 4
  {
    WriteOn(r, c.bytes, c.keep, c.cut)
  }

  function Offered(chunks: seq<Chunk>): seq<Byte> {
    if chunks == [] then [] else chunks[0].bytes + Offered(chunks[1..])
  }

  /** The writes of a handler, one after another, whatever became of them. */
  function WriteChunks(r: Reply, chunks: seq<Chunk>): (w: Reply)
    requires |r.out| <= 4
    ensures |w.out| <= 4
    decreases |chunks|
  {
    if chunks == [] then r else WriteChunks(WriteOne(r, chunks[0]).reply, chunks[1..])
  }

  /** No write failed on the connection. */
  predicate Unfailed(r: Reply, chunks: seq<Chunk>)
    requires |r.out| <= 4
    decreases |chunks|
  {
    chunks == [] || (WriteOne(r, chunks[0]).err != Broken && Unfailed(WriteOne(r, chunks[0]).reply, chunks[1..]))
  }

  /** No write was answered with an error. */
  predicate Clean(r: Reply, chunks: seq<Chunk>)
    requires |r.out| <= 4
    decreases |chunks|
  {
    chunks == [] || (WriteOne(r, chunks[0]).err == Nil && Clean(WriteOne(r, chunks[0]).reply, chunks[1..]))
  }

  /** The bit of the write that completes the length. */
  function Settled(have: nat, was: bool, chunks: seq<Chunk>): bool
    decreases |chunks|
  {
    if chunks == [] || 4 <= have then was
    else Settled(have + |chunks[0].bytes|, chunks[0].keep, chunks[1..])
  }

  /** A write that does not fail on the connection is the one every connection sees. */
  lemma UnfailedStep(r: Reply, c: Chunk)
    requires |r.out| <= 4 && WriteOne(r, c).err != Broken
    ensures WriteOne(r, c) == WriteStep(r, c.bytes, c.keep)
  {
  }

  /** Every write that does not fail on the connection keeps the agreement. */
  lemma WriteOnAgrees(r: Reply, base: seq<Byte>, offered: seq<Byte>, was: bool, c: Chunk)
    requires Agrees(r, base, offered, was) && WriteOne(r, c).err != Broken
    ensures var w := WriteOne(r, c);
            && Agrees(w.reply, base, offered + c.bytes, if |offered| < 4 then c.keep else was)
            && (w.err == Nil <==> Fine(offered + c.bytes) || (!Fine(offered) && c.bytes == []))
            && (w.err == Nil ==> w.n == |c.bytes|)
  {
    UnfailedStep(r, c);
    WriteAgrees(r, base, offered, was, c.bytes, c.keep);
  }

  /** However a reply is split into writes, the wire is the translation of the
      bytes offered, with one header whose bit was settled once, unless the
      connection fails. */
  lemma {:induction false} ChunksAgree(r: Reply, base: seq<Byte>, offered: seq<Byte>, was: bool, chunks: seq<Chunk>)
    requires Agrees(r, base, offered, was) && Unfailed(r, chunks)
    ensures Agrees(WriteChunks(r, chunks), base, offered + Offered(chunks), Settled(|offered|, was, chunks))
    decreases |chunks|
  {
    if chunks == [] {
      assert offered + Offered(chunks) == offered;
    } else {
      var c, rest := chunks[0], Offered(chunks[1..]);
      WriteOnAgrees(r, base, offered, was, c);
      ChunksAgree(WriteOne(r, c).reply, base, offered + c.bytes, if |offered| < 4 then c.keep else was, chunks[1..]);
      Associative(offered, c.bytes, rest);
      assert offered + Offered(chunks) == offered + c.bytes + rest;
    }
  }

  /** Writes of any bytes and sizes on any connection: if none is answered with an
      error, then nothing was offered beyond what was announced and the wire is its
      translation; and none is, exactly when nothing more was offered and none
      failed on the connection. */
  lemma {:induction false} CleanChunks(r: Reply, base: seq<Byte>, offered: seq<Byte>, was: bool, chunks: seq<Chunk>)
    requires Agrees(r, base, offered, was) && Fine(offered)
    ensures Clean(r, chunks) <==> Unfailed(r, chunks) && Fine(offered + Offered(chunks))
    ensures Clean(r, chunks) ==> Agrees(WriteChunks(r, chunks), base, offered + Offered(chunks), Settled(|offered|, was, chunks))
    decreases |chunks|
  {
    if chunks == [] {
      assert offered + Offered(chunks) == offered;
    } else {
      var c := chunks[0];
      Associative(offered, c.bytes, Offered(chunks[1..]));
      if WriteOne(r, c).err != Broken {
        WriteOnAgrees(r, base, offered, was, c);
        if Fine(offered + c.bytes) {
          CleanChunks(WriteOne(r, c).reply, base, offered + c.bytes, if |offered| < 4 then c.keep else was, chunks[1..]);
        } else {
          NotFineStays(offered + c.bytes, Offered(chunks[1..]));
        }
      }
      if Clean(r, chunks) {
        ChunksAgree(r, base, offered, was, chunks);
      }
    }
  }

  lemma NotFineStays(offered: seq<Byte>, more: seq<Byte>)
    requires !Fine(offered)
    ensures !Fine(offered + more)
  {
    assert (offered + more)[..4] == offered[..4];
  }

  const FRESH := Reply([], 0, false, false, [])

  /** Part of a frame announces its length and owes the rest; on the wire it is
      the same part of the answer. */
  lemma PartOfFrame(body: seq<Byte>, m: nat, keep: bool)
    requires |body| <= LENGTH_MASK && m <= 4 + |body|
    ensures var part := (Be32(|body|) + body)[..m];
            && Fine(part) && (Whole(part) <==> m == 4 + |body|)
            && Translate(part, keep) == if m < 4 then [] else Answer(body, keep)[..m]
  {
    var whole := Be32(|body|) + body;
    var part := whole[..m];
    if 4 <= m {
      assert part[..4] == Be32(|body|);
      WordRoundTrip(|body|);
      assert part[4..] == body[..m - 4];
      assert Answer(body, keep)[..m] == Be32(ReplyHeader(|body|, keep)) + body[..m - 4];
    }
  }

  /** A handler's whole frame is on the wire as one answer carrying exactly its
      body, whatever the writes were; less than the frame is not a reply. */
  lemma ReplyIsChunkIndependent(chunks: seq<Chunk>, body: seq<Byte>)
    requires |body| <= LENGTH_MASK && Offered(chunks) <= Be32(|body|) + body && Unfailed(FRESH, chunks)
    ensures var r := WriteChunks(FRESH, chunks);
            var keep := Settled(0, false, chunks);
            && r.wire <= Answer(body, keep)
            && (r.replied <==> Offered(chunks) == Be32(|body|) + body)
            && (r.replied ==> r.wire == Answer(body, keep) && r.continued == keep)
  {
    var keep := Settled(0, false, chunks);
    assert [] + Offered(chunks) == Offered(chunks);
    ChunksAgree(FRESH, [], [], false, chunks);
    var whole := Be32(|body|) + body;
    assert Offered(chunks) == whole[..|Offered(chunks)|];
    PartOfFrame(body, |Offered(chunks)|, keep);
  }

  /** The last of some writes. */
  lemma {:induction false} WriteLast(r: Reply, chunks: seq<Chunk>, c: Chunk)
    requires |r.out| <= 4
    ensures WriteChunks(r, chunks + [c]) == WriteOne(WriteChunks(r, chunks), c).reply
    ensures Unfailed(r, chunks + [c]) <==> Unfailed(r, chunks) && WriteOne(WriteChunks(r, chunks), c).err != Broken
    decreases |chunks|
  {
    var all := chunks + [c];
    if chunks == [] {
      assert all == [c] && all[1..] == [];
    } else {
      assert all[0] == chunks[0] && all[1..] == chunks[1..] + [c];
      WriteLast(WriteOne(r, chunks[0]).reply, chunks[1..], c);
    }
  }

  /** Where the last write fails makes no difference to what was offered. */
  lemma {:induction false} SameOffer(chunks: seq<Chunk>, c: Chunk, have: nat, was: bool)
    ensures Offered(chunks + [c]) == Offered(chunks + [c.(cut := None)])
    ensures Settled(have, was, chunks + [c]) == Settled(have, was, chunks + [c.(cut := None)])
    decreases |chunks|
  {
    var d := c.(cut := None);
    if chunks == [] {
      assert chunks + [c] == [c] && chunks + [d] == [d] && [c][1..] == [] && [d][1..] == [];
    } else {
      assert (chunks + [c])[1..] == chunks[1..] + [c] && (chunks + [d])[1..] == chunks[1..] + [d];
      SameOffer(chunks[1..], c, have + |chunks[0].bytes|, chunks[0].keep);
    }
  }

  /** A failed write puts a beginning of what it was given on the wire. */
  lemma CutShort(r: Reply, c: Chunk)
    requires |r.out| <= 4
    ensures WriteOne(r, c).reply.wire <= WriteOne(r, c.(cut := None)).reply.wire
    ensures WriteOne(r, c.(cut := None)).err != Broken
  {
    if |r.out| < 4 {
      HeaderCutShort(r, c.bytes, c.keep, c.cut);
      var h := HeaderStep(r, c.bytes, c.keep);
      if h.err == Nil && |h.reply.out| == 4 {
        assert h.reply.wire <= BodyStep(h.reply, c.bytes[h.n..]).reply.wire;
      }
    }
  }

  lemma HeaderCutShort(r: Reply, p: seq<Byte>, keep: bool, cut: Option<nat>)
    requires |r.out| <= 4
    ensures HeaderOn(r, p, keep, cut).reply.wire <= HeaderStep(r, p, keep).reply.wire
  {
  }

  /** Up to and including the first write that fails on the connection, the wire
      carries a beginning of the handler's answer. */
  lemma BrokenReplyIsBeginning(chunks: seq<Chunk>, c: Chunk, body: seq<Byte>)
    requires |body| <= LENGTH_MASK && Offered(chunks + [c]) <= Be32(|body|) + body && Unfailed(FRESH, chunks)
    ensures WriteChunks(FRESH, chunks + [c]).wire <= Answer(body, Settled(0, false, chunks + [c]))
  {
    var d := c.(cut := None);
    SameOffer(chunks, c, 0, false);
    WriteLast(FRESH, chunks, c);
    WriteLast(FRESH, chunks, d);
    CutShort(WriteChunks(FRESH, chunks), c);
    ReplyIsChunkIndependent(chunks + [d], body);
  }

  /** The whole of an answer of the announced length is on the wire, and nothing
      else. */
  ghost predicate AnswerOut(wire: seq<Byte>, base: seq<Byte>, out: seq<Byte>) {
    |out| == 4 && exists body, keep ::
      |body| == Word32(out) <= LENGTH_MASK && wire == base + Answer(body, keep)
  }

  /** What some writes came to, told from their sizes and their failures. The length
      is being gathered; or it is one no frame may have, and `late` says a write came
      after it; or the header's write was made. Then `owed` body bytes are not counted
      as written yet, `lead` bytes of the header's write are on the wire that are not
      counted as body (four, if it did not fail, and all it carried, if it did), and
      `failed` says the last write failed. */
  datatype Course =
    | Gathering(have: seq<Byte>)
    | TooLarge(late: bool)
    | Going(lead: nat, owed: nat, failed: bool)

  function After(h: Course, c: Chunk): (g: Course) {
    match h
    case Gathering(have) =>
      var all := have + c.bytes;
      if |all| < 4 then Gathering(all)
      else
        var length := Word32(all[..4]);
        var body := Min(|all| - 4, length);
        if LENGTH_MASK < length then TooLarge(false)
        else if c.cut.Some? then Going(Min(c.cut.value, 4 + body), length, true)
        else Going(4, length - body, false)
    case TooLarge(_) => TooLarge(true)
    case Going(lead, owed, _) =>
      var body := Min(|c.bytes|, owed);
      if body == 0 || c.cut.None? then Going(lead, owed - body, false)
      else Going(lead, owed - Min(c.cut.value, body), true)
  }

  function CourseOf(h: Course, chunks: seq<Chunk>): Course
    decreases |chunks|
  {
    if chunks == [] then h else CourseOf(After(h, chunks[0]), chunks[1..])
  }

  /** Where `replied` tells whether the answer is on the wire: no write followed a
      length no frame may have; where nothing is owed, the last write failed exactly
      if `lead` is not the header alone; where something is owed, `lead` is not the
      header and just as many bytes. */
  predicate Truthful(h: Course) {
    match h
    case Gathering(_) => true
    case TooLarge(late) => !late
    case Going(lead, owed, failed) => if owed == 0 then failed <==> lead != 4 else lead != 4 + owed
  }

  ghost predicate Follows(r: Reply, base: seq<Byte>, h: Course) {
    match h
    case Gathering(have) => r == Reply(have, 0, false, false, base) && |have| < 4
    case TooLarge(late) =>
      |r.out| == 4 && LENGTH_MASK < Word32(r.out) && r.left == 0 && r.wire == base && r.replied == late
    case Going(lead, owed, failed) =>
      && |r.out| == 4 && r.left == owed <= Word32(r.out) <= LENGTH_MASK
      && r.replied == (owed == 0 && !failed)
      && base <= r.wire && |r.wire| == |base| + lead + Word32(r.out) - owed
      && (4 <= lead ==> exists keep :: base + Be32(ReplyHeader(Word32(r.out), keep)) <= r.wire)
  }

  lemma FollowsBody(r: Reply, base: seq<Byte>, h: Course, c: Chunk)
    requires Follows(r, base, h) && h.Going?
    ensures Follows(WriteOne(r, c).reply, base, After(h, c))
  {
    if 4 <= h.lead {
      var keep :| base + Be32(ReplyHeader(Word32(r.out), keep)) <= r.wire;
      StillBegins(base + Be32(ReplyHeader(Word32(r.out), keep)), r, c);
    }
    StillBegins(base, r, c);
  }

  lemma StillBegins(start: seq<Byte>, r: Reply, c: Chunk)
    requires |r.out| == 4 && start <= r.wire
    ensures start <= WriteOne(r, c).reply.wire
  {
  }

  /** The write that completes a length a frame may have. */
  lemma CompletingWrite(have: seq<Byte>, base: seq<Byte>, p: seq<Byte>, keep: bool)
    requires |have| < 4 <= |have + p| && Word32((have + p)[..4]) <= LENGTH_MASK
    ensures var all := have + p;
            var length := Word32(all[..4]);
            var body := Min(|all| - 4, length);
            WriteStep(Reply(have, 0, false, false, base), p, keep).reply ==
              Reply(all[..4], length - body, body == length, keep, base + (Be32(ReplyHeader(length, keep)) + all[4..4 + body]))
  {
    var all := have + p;
    var k := 4 - |have|;
    var length := Word32(all[..4]);
    var body := Min(|all| - 4, length);
    assert all[..4] == have + p[..k];
    assert all[4..4 + body] == p[k..k + body];
  }

  lemma FollowsHeader(r: Reply, base: seq<Byte>, h: Course, c: Chunk)
    requires Follows(r, base, h) && h.Gathering?
    ensures Follows(WriteOne(r, c).reply, base, After(h, c))
  {
    var all := h.have + c.bytes;
    if |all| < 4 || LENGTH_MASK < Word32(all[..4]) {
      FollowsShort(r, base, h, c);
    } else if c.cut.None? {
      CompletingWrite(h.have, base, c.bytes, c.keep);
      FollowsSent(r, base, h, c);
    } else {
      FollowsTorn(r, base, h, c);
    }
  }

  /** Too few bytes for a length, or one no frame may have. */
  lemma FollowsShort(r: Reply, base: seq<Byte>, h: Course, c: Chunk)
    requires Follows(r, base, h) && h.Gathering?
    requires var all := h.have + c.bytes; |all| < 4 || LENGTH_MASK < Word32(all[..4])
    ensures Follows(WriteOne(r, c).reply, base, After(h, c))
  {
    var all := h.have + c.bytes;
    var k := Min(|c.bytes|, 4 - |h.have|);
    assert all[..Min(4, |all|)] == h.have + c.bytes[..k];
    HeaderStops(r, c.bytes, c.keep, c.cut, k, h.have + c.bytes[..k]);
  }

  /** The header's write, all of it. */
  lemma FollowsSent(r: Reply, base: seq<Byte>, h: Course, c: Chunk)
    requires Follows(r, base, h) && h.Gathering? && 4 <= |h.have + c.bytes| && c.cut.None?
    requires var all := h.have + c.bytes;
             var length := Word32(all[..4]);
             var body := Min(|all| - 4, length);
             && length <= LENGTH_MASK
             && WriteStep(r, c.bytes, c.keep).reply ==
                  Reply(all[..4], length - body, body == length, c.keep, base + (Be32(ReplyHeader(length, c.keep)) + all[4..4 + body]))
    ensures Follows(WriteOne(r, c).reply, base, After(h, c))
  {
    var r' := WriteOne(r, c).reply;
    assert base + Be32(ReplyHeader(Word32(r'.out), c.keep)) <= r'.wire;
  }

  /** The header's write, cut short. */
  lemma FollowsTorn(r: Reply, base: seq<Byte>, h: Course, c: Chunk)
    requires Follows(r, base, h) && h.Gathering? && 4 <= |h.have + c.bytes| && c.cut.Some?
    requires Word32((h.have + c.bytes)[..4]) <= LENGTH_MASK
    ensures Follows(WriteOne(r, c).reply, base, After(h, c))
  {
    var k := 4 - |h.have|;
    var head := h.have + c.bytes[..k];
    assert (h.have + c.bytes)[..4] == head;
    var body := Min(|c.bytes| - k, Word32(head));
    var lead := Be32(ReplyHeader(Word32(head), c.keep));
    HeaderPut(r, c.bytes, c.keep, c.cut, k, head, body, lead + c.bytes[k..k + body]);
    TornBegins(base, lead, c.bytes[k..k + body], Min(c.cut.value, 4 + body));
  }

  lemma TornBegins(base: seq<Byte>, lead: seq<Byte>, body: seq<Byte>, j: nat)
    requires |lead| == 4 && j <= 4 + |body|
    ensures var wire := base + (lead + body)[..j]; base <= wire && (4 <= j ==> base + lead <= wire)
  {
  }

  lemma {:induction false} ChunksFollow(r: Reply, base: seq<Byte>, h: Course, chunks: seq<Chunk>)
    requires Follows(r, base, h)
    ensures Follows(WriteChunks(r, chunks), base, CourseOf(h, chunks))
    decreases |chunks|
  {
    if chunks != [] {
      match h {
        case Gathering(_) => FollowsHeader(r, base, h, chunks[0]);
        case TooLarge(_) =>
        case Going(_, _, _) => FollowsBody(r, base, h, chunks[0]);
      }
      ChunksFollow(WriteOne(r, chunks[0]).reply, base, After(h, chunks[0]), chunks[1..]);
    }
  }

  /** The answer is on the wire exactly when the header's write carried all that is
      still owed. */
  lemma OutExactly(r: Reply, base: seq<Byte>, h: Course)
    requires Follows(r, base, h)
    ensures AnswerOut(r.wire, base, r.out) <==> h.Going? && h.lead == 4 + h.owed
  {
    if h.Going? && h.lead == 4 + h.owed {
      var keep :| base + Be32(ReplyHeader(Word32(r.out), keep)) <= r.wire;
      var body := r.wire[|base| + 4..];
      assert r.wire == base + Answer(body, keep);
    }
  }

  /** `replied` tells whether the whole announced answer is on the wire, over every
      sequence of writes on every connection, exactly in the truthful courses. */
  lemma RepliedExactly(chunks: seq<Chunk>, base: seq<Byte>)
    ensures var r := WriteChunks(FRESH.(wire := base), chunks);
            (r.replied <==> AnswerOut(r.wire, base, r.out)) <==> Truthful(CourseOf(Gathering([]), chunks))
  {
    ChunksFollow(FRESH.(wire := base), base, Gathering([]), chunks);
    OutExactly(WriteChunks(FRESH.(wire := base), chunks), base, CourseOf(Gathering([]), chunks));
  }

  /** Writes that fail on no connection are truthful unless one follows a length no
      frame may have. */
  lemma {:induction false} UnfailedTruthful(r: Reply, base: seq<Byte>, h: Course, chunks: seq<Chunk>)
    requires Follows(r, base, h) && Unfailed(r, chunks) && (h.Going? ==> h.lead == 4 && !h.failed)
    ensures var g := CourseOf(h, chunks);
            Truthful(g) <==> g != TooLarge(true)
    decreases |chunks|
  {
    if chunks != [] {
      var c := chunks[0];
      match h {
        case Gathering(_) => FollowsHeader(r, base, h, c);
        case TooLarge(_) =>
        case Going(_, _, _) => FollowsBody(r, base, h, c);
      }
      UnfailedTruthful(WriteOne(r, c).reply, base, After(h, c), chunks[1..]);
    }
  }

  // -------------------------------------------------- a handler that stops at an error

  /** Where writes answered without an error lead. */
  predicate Steady(h: Course) {
    h.Gathering? || (h.Going? && h.lead == 4 && !h.failed)
  }

  lemma SteadyStep(r: Reply, base: seq<Byte>, h: Course, c: Chunk)
    requires Follows(r, base, h) && Steady(h) && WriteOne(r, c).err == Nil
    ensures Follows(WriteOne(r, c).reply, base, After(h, c)) && Steady(After(h, c))
  {
    if h.Gathering? {
      FollowsHeader(r, base, h, c);
      SteadyHeader(r, base, h, c);
    } else {
      FollowsBody(r, base, h, c);
    }
  }

  lemma SteadyHeader(r: Reply, base: seq<Byte>, h: Course, c: Chunk)
    requires Follows(r, base, h) && h.Gathering? && WriteOne(r, c).err == Nil
    ensures Steady(After(h, c))
  {
    var all := h.have + c.bytes;
    if 4 <= |all| {
      assert all[..4] == h.have + c.bytes[..4 - |h.have|];
    }
  }

  lemma {:induction false} CleanSteady(r: Reply, base: seq<Byte>, h: Course, chunks: seq<Chunk>)
    requires Follows(r, base, h) && Steady(h) && Clean(r, chunks)
    ensures var g := CourseOf(h, chunks); Follows(WriteChunks(r, chunks), base, g) && Steady(g)
    decreases |chunks|
  {
    if chunks != [] {
      SteadyStep(r, base, h, chunks[0]);
      CleanSteady(WriteOne(r, chunks[0]).reply, base, After(h, chunks[0]), chunks[1..]);
    }
  }

  /** What a handler knows after its last write, where all before it succeeded: a reply
      marked is out, and one is out unmarked exactly if that write would have completed
      it and failed although the connection took all its bytes. */
  ghost predicate TellsLast(r: Reply, base: seq<Byte>, c: Chunk)
    requires |r.out| <= 4
  {
    var last, whole := WriteOne(r, c), WriteOne(r, c.(cut := None)).reply;
    var outNow := AnswerOut(last.reply.wire, base, last.reply.out);
    && (last.reply.replied ==> outNow)
    && (outNow && !last.reply.replied <==> last.err == Broken && whole.replied && last.reply.wire == whole.wire)
  }

  /** It follows from where the write led, and where it would have led. */
  lemma TellsFrom(r: Reply, base: seq<Byte>, c: Chunk, g: Course, g0: Course)
    requires |r.out| <= 4 && Follows(WriteOne(r, c).reply, base, g) && Follows(WriteOne(r, c.(cut := None)).reply, base, g0)
    requires WriteOne(r, c.(cut := None)).reply.out == WriteOne(r, c).reply.out
    requires WriteOne(r, c).err == Broken <==> g.Going? && g.failed
    requires Steady(g) || g == TooLarge(false) || (g.Going? && g.failed && g0.Going? && Steady(g0))
    ensures TellsLast(r, base, c)
  {
    OutExactly(WriteOne(r, c).reply, base, g);
    CutLength(r, c);
  }

  /** A failed write carried everything exactly when it carried as many bytes. */
  lemma CutLength(r: Reply, c: Chunk)
    requires |r.out| <= 4
    ensures var last, whole := WriteOne(r, c).reply.wire, WriteOne(r, c.(cut := None)).reply.wire;
            |last| <= |whole| && (last == whole <==> |last| == |whole|)
  {
    CutShort(r, c);
  }

  lemma LastBody(r: Reply, base: seq<Byte>, h: Course, c: Chunk)
    requires Follows(r, base, h) && h.Going? && Steady(h)
    ensures TellsLast(r, base, c)
  {
    FollowsBody(r, base, h, c);
    FollowsBody(r, base, h, c.(cut := None));
    TellsFrom(r, base, c, After(h, c), After(h, c.(cut := None)));
  }

  lemma LastHeader(r: Reply, base: seq<Byte>, h: Course, c: Chunk)
    requires Follows(r, base, h) && h.Gathering?
    ensures TellsLast(r, base, c)
  {
    FollowsHeader(r, base, h, c);
    FollowsHeader(r, base, h, c.(cut := None));
    HeaderErr(r, base, h, c);
    TellsFrom(r, base, c, After(h, c), After(h, c.(cut := None)));
  }

  /** The header's write fails on the connection exactly if it was cut. */
  lemma HeaderErr(r: Reply, base: seq<Byte>, h: Course, c: Chunk)
    requires Follows(r, base, h) && h.Gathering?
    ensures WriteOne(r, c).err == Broken <==> After(h, c).Going? && After(h, c).failed
    ensures WriteOne(r, c.(cut := None)).reply.out == WriteOne(r, c).reply.out
  {
    var all := h.have + c.bytes;
    if 4 <= |all| {
      assert all[..4] == h.have + c.bytes[..4 - |h.have|];
    }
  }

  /** The same, for every sequence of writes that goes on only after success. */
  lemma StopsAtError(chunks: seq<Chunk>, c: Chunk, base: seq<Byte>)
    requires Clean(FRESH.(wire := base), chunks)
    ensures TellsLast(WriteChunks(FRESH.(wire := base), chunks), base, c)
  {
    var r := FRESH.(wire := base);
    CleanSteady(r, base, Gathering([]), chunks);
    var h := CourseOf(Gathering([]), chunks);
    if h.Gathering? {
      LastHeader(WriteChunks(r, chunks), base, h, c);
    } else {
      LastBody(WriteChunks(r, chunks), base, h, c);
    }
  }

  /** A length no frame may have breaks the call, and one more empty write then
      marks it replied with nothing on the wire. */
  lemma RepliedWithoutReply()
    ensures var big := Be32(LENGTH_MASK + 1);
            var first := WriteStep(FRESH, big, true);
            var second := WriteStep(first.reply, [], true);
            first.err == ErrTooLarge && second.reply.replied && second.reply.wire == []
  {
    WordRoundTrip(LENGTH_MASK + 1);
    var big := Be32(LENGTH_MASK + 1);
    assert [] + big[..4] == big;
  }

  /** A header whose write fails before its first byte breaks the call too, and an
      empty write then marks an empty answer replied with nothing on the wire. */
  lemma RepliedAfterFailure()
    ensures var first := WriteOn(FRESH, Be32(0), true, Some(0));
            var second := WriteOn(first.reply, [], true, None);
            first.err == Broken && second.err == Nil && second.reply.replied && second.reply.wire == []
  {
    WordRoundTrip(0);
    var zero := Be32(0);
    assert [] + zero[..4] == zero;
  }

  /** A write can also fail after its last byte: the answer is out and not marked. */
  lemma OutWithoutReplied()
    ensures var w := WriteOn(FRESH, Be32(0), true, Some(4));
            w.err == Broken && !w.reply.replied && w.reply.wire == Answer([], true)
  {
    WordRoundTrip(0);
    var zero := Be32(0);
    assert [] + zero[..4] == zero;
  }

  /** Too few bytes for a length, or one no frame may have: nothing is written. */
  lemma HeaderStops(r: Reply, p: seq<Byte>, keep: bool, cut: Option<nat>, k: nat, head: seq<Byte>)
    requires |r.out| < 4 && k == Min(|p|, 4 - |r.out|) && head == r.out + p[..k]
    requires |head| < 4 || LENGTH_MASK < Word32(head)
    ensures HeaderOn(r, p, keep, cut) == Written(r.(out := head), k, if |head| < 4 then Nil else ErrTooLarge)
  {
  }

  /** The header's write once the length is complete: all of it, or its first bytes. */
  lemma HeaderPut(r: Reply, p: seq<Byte>, keep: bool, cut: Option<nat>, k: nat, head: seq<Byte>, body: nat, buf: seq<Byte>)
    requires |r.out| < 4 && k == 4 - |r.out| <= |p| && head == r.out + p[..k]
    requires Word32(head) <= LENGTH_MASK && body == Min(|p| - k, Word32(head))
    requires buf == Be32(ReplyHeader(Word32(head), keep)) + p[k..k + body]
    ensures cut.None? ==>
              HeaderOn(r, p, keep, cut) == Written(Reply(head, Word32(head) - body, r.replied, keep, r.wire + buf), k + body, Nil)
    ensures cut.Some? ==>
              HeaderOn(r, p, keep, cut) ==
                Written(Reply(head, Word32(head), r.replied, r.continued, r.wire + buf[..Min(cut.value, |buf|)]), k, Broken)
  {
    if cut.Some? {
      var j := Min(|r.wire| + cut.value, |r.wire + buf|);
      assert (r.wire + buf)[..j] == r.wire + buf[..Min(cut.value, |buf|)];
    }
  }

  /** The wire carries all that was offered, and that is no more than announced. */
  ghost predicate InStep(r: Reply, base: seq<Byte>, offered: seq<Byte>, keep: bool) {
    Fine(offered) && Agrees(r, base, offered, keep)
  }

  /** A write answered without an error keeps it so. */
  lemma WriteInStep(r: Reply, base: seq<Byte>, offered: seq<Byte>, was: bool, c: Chunk)
    requires InStep(r, base, offered, was) && WriteOne(r, c).err == Nil
    ensures InStep(WriteOne(r, c).reply, base, offered + c.bytes, if |offered| < 4 then c.keep else was)
  {
    WriteOnAgrees(r, base, offered, was, c);
  }

  /** A call in step that has replied has put exactly one answer on the wire. */
  lemma RepliedInStep(r: Reply, base: seq<Byte>, offered: seq<Byte>, keep: bool)
    requires InStep(r, base, offered, keep) && r.replied
    ensures 4 <= |offered| && Announced(offered) == |offered[4..]| <= LENGTH_MASK
    ensures r.wire == base + Answer(offered[4..], r.continued)
  {
    TranslateFine(offered, keep);
  }

  class SessionCall {
    const s: Session
    const header: seq<Byte>
    const oneWay: bool
    var headerAt: nat
    var remaining: nat
    /** The filled part of the four-byte length buffer. */
    var out: seq<Byte>
    var outLeft: nat
    var replied: bool
    var continued: bool
    var closed: bool
    var broken: bool
    var reading: nat

    /** The request's length, and where its body begins on the connection. */
    ghost const length: nat
    ghost const start: nat
    /** What the reader was handed, and whether bytes were lost to it or read
        beyond the request. */
    ghost var delivered: seq<Byte>
    ghost var misread: bool
    /** What was on the connection before the call, what the handler has offered
        since, and the bit its answer was given. */
    ghost const base: seq<Byte>
    ghost var offered: seq<Byte>
    ghost var settled: bool

    /** The reader was handed a prefix of the length followed by the body, and
        the connection's cursor stands right behind it. */
    ghost predicate ReadValid()
      reads this`headerAt, this`remaining, this`delivered, this`misread, this`broken, s.pc`incoming, s.pc`readAt
    {
      (misread ==> broken) && Handed()
    }

    ghost predicate Handed()
      reads this`headerAt, this`remaining, this`delivered, this`misread, s.pc`incoming, s.pc`readAt
    {
      && |header| == 4 && headerAt <= 4 && remaining <= length
      && (headerAt < 4 ==> remaining == length)
      && (!misread ==>
            && s.pc.readAt == start + (length - remaining) <= |s.pc.incoming|
            && delivered == header[..headerAt] + s.pc.incoming[start..s.pc.readAt])
    }

    /** While the call is unbroken, the handler has offered no more than it
        announced, and the connection carries the translation of that. */
    ghost predicate WriteValid()
      reads this`out, this`outLeft, this`replied, this`continued, this`broken, this`offered, this`settled, s.pc`written
    {
      |out| <= 4 && (oneWay ==> offered == []) && (!broken ==> Carried())
    }

    ghost predicate Carried()
      reads this`out, this`outLeft, this`replied, this`continued, this`offered, this`settled, s.pc`written
    {
      InStep(ReplyState(), base, offered, settled)
    }

    ghost function ReplyState(): Reply
      reads this`out, this`outLeft, this`replied, this`continued, s.pc`written
    {
      Reply(out, outLeft, replied, continued, s.pc.written)
    }

    constructor (s: Session, w: Word)
      requires s.pc.Valid()
      ensures ReadValid() && WriteValid()
      ensures this.s == s && length == LengthOf(w) && header == Be32(length) && oneWay == HasOneWay(w)
      ensures start == s.pc.readAt && ReplyState() == Reply([], 0, false, false, s.pc.written)
      ensures delivered == [] && !misread && base == s.pc.written && offered == [] && !closed && !broken && reading == 0
    {
      this.s := s;
      header, oneWay := Be32(LengthOf(w)), HasOneWay(w);
      headerAt, remaining := 0, LengthOf(w);
      out, outLeft, replied, continued, closed, broken, reading := [], 0, false, false, false, false, 0;
      length, start := LengthOf(w), s.pc.readAt;
      delivered, misread := [], false;
      base, offered, settled := s.pc.written, [], false;
    }

    /** Read's first locked region: answer from the header or the flags, or say
        how many bytes to read from the connection. */
    method ReadStart(size: nat, now: nat) returns (data: seq<Byte>, err: Err, want: Option<nat>)
      requires ReadValid() && reading == 0
      modifies this`headerAt, this`broken, this`reading, this`delivered
      ensures ReadValid()
      ensures reading == if want.Some? then 1 else 0
      ensures want.Some? ==> !closed && headerAt == 4 && err == Nil && data == []
      ensures want.Some? ==> want == Some(Min(size, if 0 < remaining then remaining else 1))
      ensures delivered == old(delivered) + data && headerAt == old(headerAt) + |data|
      ensures want.None? && err == Nil ==> |data| == Min(size, 4 - old(headerAt))
      ensures err == Eof ==> replied && remaining == 0
      ensures err == ErrClosed <==> closed
      ensures broken == (old(broken) || err == ErrExpired)
      ensures err == ErrExpired ==> s.Expired(now)
    {
      data, err, want := [], Nil, None;
      if closed {
        err := ErrClosed;
      } else if headerAt < 4 {
        if s.Expired(now) {
          broken, err := true, ErrExpired;
        } else {
          var n := Min(size, 4 - headerAt);
          data := header[headerAt..headerAt + n];
          headerAt := headerAt + n;
          delivered := delivered + data;
        }
      } else if 0 < remaining {
        if s.Expired(now) {
          broken, err := true, ErrExpired;
        } else {
          want, reading := Some(Min(size, remaining)), 1;
        }
      } else if replied {
        err := Eof;
      } else {
        // No reply yet: the read waits for the client to hang up.
        want, reading := Some(Min(size, 1)), 1;
      }
    }

    /** Read's second locked region, after the connection answered with n bytes. */
    method ReadFinish(size: nat, n: nat, neterr: Err, request: bool, now: nat) returns (data: seq<Byte>, err: Err)
      requires ReadValid() && reading == 1 && headerAt == 4
      requires request == (0 < remaining)
      requires n <= size && (request ==> size <= remaining) && s.pc.readAt + n <= |s.pc.incoming|
      modifies this`reading, this`broken, this`remaining, this`delivered, this`misread, s.pc`readAt
      ensures ReadValid() && reading == 0
      ensures s.pc.readAt == old(s.pc.readAt) + n
      ensures data == if request && s.Expired(now) then [] else s.pc.incoming[old(s.pc.readAt)..s.pc.readAt]
      ensures delivered == old(delivered) + data
      ensures remaining == if request && !s.Expired(now) then old(remaining) - n else old(remaining)
      // A byte beyond the request, one read after expiry, or a failed connection ends the session.
      ensures broken == (old(broken) || (request && s.Expired(now)) || (!request && 0 < n) || (neterr != Nil && neterr != Timeout))
    {
      data := s.pc.incoming[s.pc.readAt..s.pc.readAt + n];
      s.pc.readAt := s.pc.readAt + n;
      reading := 0;
      if request && s.Expired(now) {
        broken, misread := true, true;
        return [], ErrExpired;
      }
      err := neterr;
      delivered := delivered + data;
      if request {
        remaining := remaining - n;
        if !misread {
          SliceGrows(s.pc.incoming, start, old(s.pc.readAt), s.pc.readAt);
          Associative(header[..headerAt], s.pc.incoming[start..old(s.pc.readAt)], data);
        }
      } else if 0 < n {
        broken, misread := true, true;
        return data, Nil;
      }
      if neterr != Nil && neterr != Timeout {
        broken := true;
      }
    }

    /** Write: gather the length, then put the session header and the body on the
        connection. A connection that fails after `cut` bytes breaks the call. */
    method Write(p: seq<Byte>, now: nat, cut: Option<nat>) returns (n: nat, err: Err)
      requires WriteValid()
      modifies this`out, this`outLeft, this`replied, this`continued, this`broken, this`offered, this`settled
      modifies s`retiring, s.pc`written
      ensures WriteValid()
      ensures closed ==> err == ErrClosed && ReplyState() == old(ReplyState()) && broken == old(broken)
      ensures !closed && oneWay ==> err == ErrUnexpectedResponse && broken && ReplyState() == old(ReplyState())
      ensures offered == if closed || oneWay then old(offered) else old(offered) + p
      ensures !closed && !oneWay ==>
                var w := WriteOn(old(ReplyState()), p, !(old(s.retiring) || s.Expired(now)), cut);
                ReplyState() == w.reply && n == w.n && err == w.err && broken == (old(broken) || err != Nil)
    {
      if closed {
        return 0, ErrClosed;
      }
      if oneWay {
        broken := true;
        return 0, ErrUnexpectedResponse;
      }
      n, err := Offer(p, now, cut);
    }

    /** A write on an open call that is to be answered. */
    method Offer(p: seq<Byte>, now: nat, cut: Option<nat>) returns (n: nat, err: Err)
      requires WriteValid() && !oneWay
      modifies this`out, this`outLeft, this`replied, this`continued, this`broken, this`offered, this`settled
      modifies s`retiring, s.pc`written
      ensures WriteValid() && offered == old(offered) + p
      ensures var w := WriteOn(old(ReplyState()), p, !(old(s.retiring) || s.Expired(now)), cut);
              ReplyState() == w.reply && n == w.n && err == w.err && broken == (old(broken) || err != Nil)
    {
      ghost var r, c := ReplyState(), Chunk(p, !(s.retiring || s.Expired(now)), cut);
      n, err := Put(p, now, cut);
      if !broken {
        WriteInStep(r, base, offered, settled, c);
      }
      settled := if |offered| < 4 then c.keep else settled;
      offered := offered + p;
    }

    method Put(p: seq<Byte>, now: nat, cut: Option<nat>) returns (n: nat, err: Err)
      requires |out| <= 4
      modifies this`out, this`outLeft, this`replied, this`continued, this`broken, s`retiring, s.pc`written
      ensures |out| <= 4
      ensures var w := WriteOn(old(ReplyState()), p, !(old(s.retiring) || s.Expired(now)), cut);
              ReplyState() == w.reply && n == w.n && err == w.err && broken == (old(broken) || err != Nil)
    {
      if |out| == 4 {
        n, err := PutBody(p, cut);
      } else {
        n, err := PutHeader(p, now, cut);
        if err == Nil && |out| == 4 {
          var m;
          m, err := PutBody(p[n..], None);
          n := n + m;
        }
      }
    }

    method PutHeader(p: seq<Byte>, now: nat, cut: Option<nat>) returns (n: nat, err: Err)
      requires |out| < 4
      modifies this`out, this`outLeft, this`continued, this`broken, s`retiring, s.pc`written
      ensures |out| <= 4 && n <= |p|
      ensures var w := HeaderOn(old(ReplyState()), p, !(old(s.retiring) || s.Expired(now)), cut);
              ReplyState() == w.reply && n == w.n && err == w.err && broken == (old(broken) || err != Nil)
    {
      n, err := Min(|p|, 4 - |out|), Nil;
      ghost var r, keep := ReplyState(), !(s.retiring || s.Expired(now));
      ghost var w := HeaderOn(r, p, keep, cut);
      var head := out + p[..n];
      out := head;
      if |head| < 4 || LENGTH_MASK < Word32(head) {
        HeaderStops(r, p, keep, cut, n, head);
        assert ReplyState() == w.reply;
      }
      if |head| < 4 {
        return;
      }
      var length := Word32(head);
      if LENGTH_MASK < length {
        broken := true;
        return n, ErrTooLarge;
      }
      n, err := SendHeader(p, n, now, cut, r);
    }

    /** The length is complete: its header goes out with the body at hand. */
    method SendHeader(p: seq<Byte>, k: nat, now: nat, cut: Option<nat>, ghost r: Reply) returns (n: nat, err: Err)
      requires |r.out| < 4 && k == 4 - |r.out| <= |p| && out == r.out + p[..k] && Word32(out) <= LENGTH_MASK
      requires ReplyState() == r.(out := out)
      modifies this`outLeft, this`continued, this`broken, s`retiring, s.pc`written
      ensures n <= |p|
      ensures var w := HeaderOn(r, p, !(old(s.retiring) || s.Expired(now)), cut);
              ReplyState() == w.reply && n == w.n && err == w.err && broken == (old(broken) || err != Nil)
    {
      var length := Word32(out);
      outLeft := length;
      var retiring := s.IsRetiring(now);
      var next := ReplyHeader(length, !retiring);
      // One write carries the header and whatever body arrived with it.
      var body := Min(|p| - k, length);
      var buf := Be32(next) + p[k..k + body];
      HeaderPut(r, p, !retiring, cut, k, out, body, buf);
      if cut.Some? {
        s.pc.PutSome(buf, Min(cut.value, |buf|));
        broken := true;
        return k, Broken;
      }
      s.pc.PutAll(buf);
      continued := HasSession(next);
      outLeft := length - body;
      n, err := k + body, Nil;
    }

    method PutBody(p: seq<Byte>, cut: Option<nat>) returns (n: nat, err: Err)
      modifies this`outLeft, this`replied, this`broken, s.pc`written
      ensures n <= |p|
      ensures var w := BodyOn(old(ReplyState()), p, cut);
              ReplyState() == w.reply && n == w.n && err == w.err && broken == (old(broken) || err != Nil)
    {
      n, err := 0, Nil;
      if 0 < |p| && 0 < outLeft {
        n := Min(|p|, outLeft);
        if cut.Some? {
          n := Min(cut.value, n);
        }
        s.pc.PutSome(p, n);
        outLeft := outLeft - n;
        if cut.Some? {
          broken := true;
          return n, Broken;
        }
      }
      if outLeft == 0 {
        replied := true;
      }
      if n < |p| {
        broken := true;
        err := ErrProtocol;
      }
    }

    /** The refusal of a proof ends the session with its own six bytes. */
    method RefuseProof(word: seq<Byte>, n: nat) returns (err: Err)
      requires n <= |word|
      modifies this`broken, s.pc`written
      ensures closed ==> err == ErrClosed && broken == old(broken) && s.pc.written == old(s.pc.written)
      ensures !closed ==> broken && s.pc.written == old(s.pc.written) + word[..n]
    {
      if closed {
        return ErrClosed;
      }
      broken := true;
      s.pc.PutSome(word, n);
      err := if n < |word| then Broken else Nil;
    }

    /** Close's first region: later operations see a closed call. */
    method BeginClose() returns (first: bool)
      modifies this`closed
      ensures closed && first == !old(closed)
    {
      first := !closed;
      closed := true;
    }

    /** Close once no read is in progress. The call stays unbroken only if its
        request was read to the last byte and answered; then the connection's
        cursor stands at the next request, and the call has put one answer on the
        connection, the handler's whole body behind its header, and nothing more. */
    method FinishClose(now: nat, cut: Option<nat>)
      requires ReadValid() && WriteValid() && closed && reading == 0
      modifies this`broken, this`continued, s`retiring, s.pc`written
      ensures ReadValid()
      ensures broken == (old(broken) || headerAt < 4 || 0 < remaining || (if oneWay then cut.Some? else !replied))
      ensures !broken ==> delivered == header + s.pc.incoming[start..start + length] && s.pc.readAt == start + length
      ensures !broken && oneWay ==>
                var keep := !(old(s.retiring) || s.Expired(now));
                continued == keep && s.pc.written == base + Answer([], keep)
      ensures !broken && !oneWay ==>
                && 4 <= |offered| && Announced(offered) == |offered[4..]| <= LENGTH_MASK
                && s.pc.written == base + Answer(offered[4..], continued)
      ensures !oneWay ==> continued == old(continued) && s.pc.written == old(s.pc.written)
    {
      if broken {
      } else if headerAt < 4 || 0 < remaining {
        broken := true;
      } else if oneWay {
        CompleteOneWay(now, cut);
      } else if !replied {
        broken := true;
      } else {
        RepliedInStep(ReplyState(), base, offered, settled);
      }
    }

    /** A one-way call is completed with an empty answer. */
    method CompleteOneWay(now: nat, cut: Option<nat>)
      requires WriteValid() && oneWay && !broken
      modifies this`broken, this`continued, s`retiring, s.pc`written
      ensures broken == cut.Some?
      ensures !broken ==>
                var keep := !(old(s.retiring) || s.Expired(now));
                continued == keep && s.pc.written == base + Answer([], keep)
    {
      var retiring := s.IsRetiring(now);
      var word := Be32(ReplyHeader(0, !retiring));
      assert word == Answer([], !retiring) && s.pc.written == base;
      if cut.Some? {
        s.pc.PutSome(word, Min(cut.value, 4));
        broken := true;
      } else {
        s.pc.PutAll(word);
      }
      continued := !retiring;
    }
  }

  /** A connection served once: bytes the listener read before are handed out
      again before reading on. */
  class ReplayConn {
    const pc: Stream
    var prefix: seq<Byte>

    constructor (pc: Stream, prefix: seq<Byte>)
      ensures this.pc == pc && this.prefix == prefix
    {
      this.pc, this.prefix := pc, prefix;
    }

    /** Everything a reader of this connection has yet to see. */
    ghost function Ahead(): seq<Byte>
      requires pc.Valid()
      reads this, pc
    {
      prefix + pc.incoming[pc.readAt..]
    }

    /** Reads of any sizes hand out exactly the bytes ahead, in order. */
    method Read(size: nat, n: nat) returns (data: seq<Byte>)
      requires pc.Valid() && n <= size && pc.readAt + n <= |pc.incoming|
      modifies this`prefix, pc`readAt
      ensures pc.Valid() && |data| <= size
      ensures data + Ahead() == old(Ahead())
      ensures data == [] ==> size == 0 || (old(prefix) == [] && n == 0)
    {
      if prefix != [] {
        var k := Min(size, |prefix|);
        data := prefix[..k];
        prefix := prefix[k..];
      } else {
        data := pc.Take(size, n);
        assert data + pc.incoming[pc.readAt..] == pc.incoming[old(pc.readAt)..];
      }
    }
  }
}
