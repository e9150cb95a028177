/** The terminal proof refusal (listen/proof_refusal.go), and how the Go client
    (listen/pool.go:131-151) and the C++ client (cpp/src/client.cpp:319-351)
    recognize one after a failed write. What can be read stands for everything
    the connection delivers before it or a check of the server fails. */
module Refusals {
  import opened Options
  import opened Wire
  import opened SessionCalls

  /** The policy vocabulary of a refusal: an attribute and the proof required. */
  datatype Tokens = Tokens(attribute: Byte, required: Byte)

  const ATTRIBUTES: seq<string> := ["", "user", "process", "path", "package", "code"]
  const PROOF_NONE := 0
  const PROOF_SIGNED := 8

  predicate ValidTokens(attribute: Byte, required: Byte) {
    attribute < 6 && required <= PROOF_SIGNED && (attribute == 0 <==> required == 0)
  }

  /** The error a requirement failed with: an attribute by name, and the proof wanted. */
  datatype ProofError = ProofError(attribute: string, want: Byte)

  /** The tokens that may be disclosed for an error. */
  ghost predicate TokensFor(err: Option<ProofError>, t: Tokens) {
    && t.attribute < 6
    && (if err.Some? && err.value.attribute in ATTRIBUTES[1..] && PROOF_NONE < err.value.want <= PROOF_SIGNED
        then ATTRIBUTES[t.attribute] == err.value.attribute && t.required == err.value.want
        else t == Tokens(0, 0))
  }

  /** proofRefusalBytes: the six bytes a server sends. */
  method ProofRefusalBytes(err: Option<ProofError>) returns (bytes: seq<Byte>)
    ensures |bytes| == 6 && bytes[..4] == Be32(REFUSAL)
    ensures TokensFor(err, Tokens(bytes[4], bytes[5]))
  {
    var attribute: Byte, required: Byte := 0, 0;
    if err.Some? {
      var i := 0;
      while i < |ATTRIBUTES|
        invariant 0 <= i <= |ATTRIBUTES| && attribute == 0 && required == 0
        invariant PROOF_NONE < err.value.want <= PROOF_SIGNED ==>
                    forall j :: 1 <= j < i ==> ATTRIBUTES[j] != err.value.attribute
      {
        if err.value.attribute == ATTRIBUTES[i] && i != 0 && PROOF_NONE < err.value.want <= PROOF_SIGNED {
          attribute, required := i, err.value.want;
          break;
        }
        i := i + 1;
      }
    }
    bytes := Be32(REFUSAL) + [attribute, required];
  }

  /** The words a server may answer a session request with. */
  predicate IsAnswer(w: Word) {
    w == ACCEPT || w == DECLINE || w == UNSUPPORTED
  }

  /** Where a refusal must begin: behind the answer to an opening header, if there is one. */
  function RefusalAt(b: seq<Byte>, opening: bool): (at: nat) {
    if opening && 4 <= |b| && IsAnswer(Word32(b[..4])) then 4 else 0
  }

  /** What a failed write may be replaced with: a complete refusal, and nothing else. */
  function Recognize(b: seq<Byte>, opening: bool): Option<Tokens> {
    var at := RefusalAt(b, opening);
    if at + 6 <= |b| && Word32(b[at..at + 4]) == REFUSAL && ValidTokens(b[at + 4], b[at + 5])
    then Some(Tokens(b[at + 4], b[at + 5]))
    else None
  }

  /** Every refusal a server sends is recognized, alone and behind an answer. */
  lemma SentIsRecognized(answer: Word, t: Tokens, rest: seq<Byte>, opening: bool)
    requires ValidTokens(t.attribute, t.required) && IsAnswer(answer)
    ensures var sent := Be32(REFUSAL) + [t.attribute, t.required];
            && Recognize(sent + rest, opening) == Some(t)
            && Recognize(Be32(answer) + sent + rest, true) == Some(t)
  {
    var sent := Be32(REFUSAL) + [t.attribute, t.required];
    WordRoundTrip(REFUSAL);
    WordRoundTrip(answer);
    assert (sent + rest)[..4] == Be32(REFUSAL);
    var b := Be32(answer) + sent + rest;
    assert b[..4] == Be32(answer) && b[4..8] == Be32(REFUSAL);
  }

  /** The six bytes a server sends to disclose these tokens. */
  function Sent(t: Tokens): seq<Byte> {
    Be32(REFUSAL) + [t.attribute, t.required]
  }

  /** A server may have sent these tokens. */
  ghost predicate MaySend(t: Tokens) {
    exists err :: TokensFor(err, t)
  }

  lemma SendableIsValid(t: Tokens)
    ensures MaySend(t) <==> ValidTokens(t.attribute, t.required)
  {
    if ValidTokens(t.attribute, t.required) {
      if t.attribute == 0 {
        assert TokensFor(None, t);
      } else {
        var err := ProofError(ATTRIBUTES[t.attribute], t.required);
        assert ATTRIBUTES[1..][t.attribute - 1] == err.attribute;
        assert TokensFor(Some(err), t);
      }
    }
    if MaySend(t) {
      var err :| TokensFor(err, t);
      Unnamed();
    }
  }

  lemma Unnamed()
    ensures "" !in ATTRIBUTES[1..]
  {
    assert ATTRIBUTES[1..] == ["user", "process", "path", "package", "code"];
  }

  /** The bytes begin with a refusal a server may send, alone, or behind its answer to an
      opening header. */
  ghost predicate Refuses(b: seq<Byte>, opening: bool, t: Tokens) {
    && MaySend(t)
    && (Sent(t) <= b || (opening && (Be32(ACCEPT) + Sent(t) <= b || Be32(DECLINE) + Sent(t) <= b || Be32(UNSUPPORTED) + Sent(t) <= b)))
  }

  /** And nothing else is recognized: exactly what a server may send, where it may. */
  lemma RecognizesExactly(b: seq<Byte>, opening: bool, t: Tokens)
    ensures Recognize(b, opening) == Some(t) <==> Refuses(b, opening, t)
  {
    SendableIsValid(t);
    if Recognize(b, opening) == Some(t) {
      RecognizedRefuses(b, opening, t);
    }
    if Refuses(b, opening, t) {
      if Sent(t) <= b {
        SentIsRecognized(ACCEPT, t, b[6..], opening);
        assert Sent(t) + b[6..] == b;
      } else {
        var answer := if Be32(ACCEPT) + Sent(t) <= b then ACCEPT else if Be32(DECLINE) + Sent(t) <= b then DECLINE else UNSUPPORTED;
        SentIsRecognized(answer, t, b[10..], true);
        assert Be32(answer) + Sent(t) + b[10..] == b;
      }
    }
  }

  lemma RecognizedRefuses(b: seq<Byte>, opening: bool, t: Tokens)
    requires Recognize(b, opening) == Some(t) && MaySend(t)
    ensures Refuses(b, opening, t)
  {
    var at := RefusalAt(b, opening);
    BytesRoundTrip(b[at..at + 4]);
    assert b[at..at + 6] == Sent(t);
    if at == 4 {
      BytesRoundTrip(b[..4]);
      var answer := Word32(b[..4]);
      assert b[..10] == Be32(answer) + Sent(t);
    } else {
      assert b[..6] == Sent(t);
    }
  }

  /** io.ReadFull: all n bytes, or a failure that has used up what there was. */
  method ReadFull(conn: Stream, n: nat) returns (data: seq<Byte>, ok: bool)
    requires conn.Valid()
    modifies conn`readAt
    ensures conn.Valid() && conn.readAt == Min(old(conn.readAt) + n, |conn.incoming|)
    ensures ok <==> old(conn.readAt) + n <= |conn.incoming|
    ensures data == conn.incoming[old(conn.readAt)..conn.readAt]
  {
    var size := Min(n, |conn.incoming| - conn.readAt);
    data := conn.Take(n, size);
    ok := size == n;
  }

  /** The Go client. `closedPeer` says the write failed because the peer is gone
      and the call is not cancelled. */
  method GoRefusalAfterWrite(conn: Stream, closedPeer: bool, opening: bool) returns (refusal: Option<Tokens>)
    requires conn.Valid()
    modifies conn`readAt
    ensures conn.Valid() && conn.readAt <= old(conn.readAt) + 10
    ensures refusal == if closedPeer then Recognize(conn.incoming[old(conn.readAt)..], opening) else None
  {
    if !closedPeer {
      return None;
    }
    ghost var b := conn.incoming[conn.readAt..];
    var word, ok := ReadFull(conn, 4);
    if !ok {
      return None;
    }
    assert word == b[..4];
    if opening && IsAnswer(Word32(word)) {
      word, ok := ReadFull(conn, 4);
      assert ok ==> word == b[4..8];
    }
    if !ok || Word32(word) != REFUSAL {
      return None;
    }
    var tokens, all := ReadFull(conn, 2);
    assert all ==> tokens[0] == b[RefusalAt(b, opening) + 4] && tokens[1] == b[RefusalAt(b, opening) + 5];
    if !all || !ValidTokens(tokens[0], tokens[1]) {
      return None;
    }
    refusal := Some(Tokens(tokens[0], tokens[1]));
  }

  predicate AllOnes(control: seq<Byte>, from: nat, to: nat)
    requires to <= |control|
  {
    forall i :: from <= i < to ==> control[i] == 0xFF
  }

  lemma RefusalSpelled(b: seq<Byte>)
    requires |b| == 4
    ensures Word32(b) == REFUSAL <==> AllOnes(b, 0, 3) && b[3] == 0xFE
  {
    BytesRoundTrip(b);
    Digits(REFUSAL);
    WordRoundTrip(REFUSAL);
    if AllOnes(b, 0, 3) && b[3] == 0xFE {
      assert b == Be32(REFUSAL);
    }
  }

  /** A marker with a wrong byte is no refusal. */
  lemma WrongByte(b: seq<Byte>, opening: bool, i: nat)
    requires var at := RefusalAt(b, opening); at <= i < |b| && i < at + 4 && b[i] != (if i == at + 3 then 0xFE else 0xFF)
    ensures Recognize(b, opening).None?
  {
    var at := RefusalAt(b, opening);
    if at + 6 <= |b| {
      RefusalSpelled(b[at..at + 4]);
      assert b[at..at + 4][i - at] == b[i];
    }
  }

  /** One read into the control buffer, behind the bytes already there; it fails
      when nothing is left. */
  method ReadSome(conn: Stream, control: array<Byte>, used: nat, expected: nat, size: nat) returns (moved: nat)
    requires conn.Valid() && used < expected <= control.Length
    modifies conn`readAt, control
    ensures conn.Valid() && conn.readAt == old(conn.readAt) + moved && used + moved <= expected
    ensures moved == 0 <==> old(conn.readAt) == |conn.incoming|
    ensures control[..used + moved] == old(control[..used]) + conn.incoming[old(conn.readAt)..conn.readAt]
  {
    if conn.readAt == |conn.incoming| {
      return 0;
    }
    moved := Min(if size == 0 then 1 else size, Min(expected - used, |conn.incoming| - conn.readAt));
    var data := conn.Take(expected - used, moved);
    forall j | 0 <= j < moved {
      control[used + j] := data[j];
    }
  }

  /** The marker bytes gathered so far, as the client checks them after each read. */
  method MarkerHolds(control: array<Byte>, used: nat, offset: nat) returns (ok: bool)
    requires used <= control.Length
    ensures ok <==> forall i :: offset <= i < used && i < offset + 4 ==> control[i] == (if i == offset + 3 then 0xFE else 0xFF)
  {
    var i := offset;
    while i < used && i < offset + 3
      invariant offset <= i && (offset <= used ==> i <= used) && i <= offset + 3
      invariant forall k :: offset <= k < i && k < used ==> control[k] == 0xFF
    {
      if control[i] != 0xFF {
        return false;
      }
      i := i + 1;
    }
    ok := !(offset + 4 <= used && control[offset + 3] != 0xFE);
  }

  /** The C++ client, gathering control bytes from reads of any sizes. */
  method CppRefusalAfterWrite(conn: Stream, closedPeer: bool, opening: bool, sizes: seq<nat>) returns (unavailable: bool)
    requires conn.Valid()
    modifies conn`readAt
    ensures conn.Valid() && conn.readAt <= old(conn.readAt) + 10
    ensures unavailable <==> closedPeer && Recognize(conn.incoming[old(conn.readAt)..], opening).Some?
  {
    if !closedPeer {
      return false;
    }
    ghost var start, b := conn.readAt, conn.incoming[conn.readAt..];
    var control := new Byte[10](_ => 0);
    var expected := if opening then 4 else 6;
    var accepted, used, turn := false, 0, 0;
    while used < expected
      invariant conn.Valid() && conn.readAt == start + used && used <= expected <= 10 && used <= |b|
      invariant control[..used] == b[..used]
      invariant expected == if accepted then 10 else if opening && used < 4 then 4 else 6
      invariant if accepted then opening && 4 <= used && IsAnswer(Word32(b[..4]))
                else opening && 4 <= used ==> !IsAnswer(Word32(b[..4]))
      decreases 10 - used
    {
      var moved := ReadSome(conn, control, used, expected, if turn < |sizes| then sizes[turn] else 1);
      assert control[..used + moved] == b[..used + moved];
      if moved == 0 {
        return false;
      }
      used, turn := used + moved, turn + 1;
      if 4 <= used {
        Prefixes(control[..], b, used, 4);
      }
      if opening && 4 <= used && expected == 4 && IsAnswer(Word32(control[..4])) {
        accepted, expected := true, 10;
        continue;
      }
      var offset := if accepted then 4 else 0;
      if opening && !accepted && used < 4 {
        continue;
      }
      assert RefusalAt(b, opening) == offset;
      var holds := MarkerHolds(control, used, offset);
      if !holds {
        NoRefusal(b, opening, control[..], used, offset);
        return false;
      }
      if opening && !accepted && used == 4 {
        RefusalSpelled(control[..4]);
        if Word32(control[..4]) == REFUSAL {
          expected := 6;
        }
      }
    }
    var marker := if accepted then 4 else 0;
    RefusalRead(b, opening, control[..], used, marker);
    unavailable := Word32(control[marker..marker + 4]) == REFUSAL && ValidTokens(control[marker + 4], control[marker + 5]);
  }

  /** Bytes gathered that hold no marker are no refusal. */
  lemma NoRefusal(b: seq<Byte>, opening: bool, control: seq<Byte>, used: nat, offset: nat)
    requires used <= |control| && used <= |b| && control[..used] == b[..used] && RefusalAt(b, opening) == offset
    requires exists i :: offset <= i < used && i < offset + 4 && control[i] != (if i == offset + 3 then 0xFE else 0xFF)
    ensures Recognize(b, opening).None?
  {
    var i :| offset <= i < used && i < offset + 4 && control[i] != (if i == offset + 3 then 0xFE else 0xFF);
    assert b[i] == b[..used][i] == control[..used][i];
    WrongByte(b, opening, i);
  }

  /** All of them gathered decide. */
  lemma RefusalRead(b: seq<Byte>, opening: bool, control: seq<Byte>, used: nat, marker: nat)
    requires used <= |control| && used <= |b| && control[..used] == b[..used] && RefusalAt(b, opening) == marker && marker + 6 <= used
    ensures Recognize(b, opening).Some? <==>
              Word32(control[marker..marker + 4]) == REFUSAL && ValidTokens(control[marker + 4], control[marker + 5])
  {
    assert control[marker..marker + 4] == control[..used][marker..marker + 4] == b[..used][marker..marker + 4] == b[marker..marker + 4];
    assert control[..used][marker + 4] == b[..used][marker + 4] && control[..used][marker + 5] == b[..used][marker + 5];
  }

  /** Both clients give the same verdict on the same bytes, however they arrive. */
  method SameVerdict(bytes: seq<Byte>, sizes: seq<nat>, opening: bool) returns (inGo: Option<Tokens>, inCpp: bool)
    ensures inCpp <==> inGo.Some?
    ensures inGo == Recognize(bytes, opening)
  {
    var first := new Stream();
    var second := new Stream();
    first.Arrive(bytes);
    second.Arrive(bytes);
    assert first.incoming[0..] == bytes == second.incoming[0..];
    inGo := GoRefusalAfterWrite(first, true, opening);
    inCpp := CppRefusalAfterWrite(second, true, opening, sizes);
  }

  lemma Prefixes(a: seq<Byte>, b: seq<Byte>, n: nat, m: nat)
    requires m <= n <= |a| && n <= |b| && a[..n] == b[..n]
    ensures a[..m] == b[..m]
  {
    assert a[..n][..m] == a[..m] && b[..n][..m] == b[..m];
  }
}
