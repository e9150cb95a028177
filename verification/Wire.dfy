/** The framing vocabulary both halves of a session share: 32-bit big-endian
    words, the flag bits of a header, and the control words of listen/FRAMING.md. */
module Wire {
  type Byte = x: int | 0 <= x < 256

  type Word = x: int | 0 <= x < 0x1_0000_0000

  /** Bit 31 of a header: the session continues. */
  const SESSION_FLAG: Word := 0x8000_0000

  /** Bit 30 of a request header: no reply is expected. */
  const ONE_WAY_FLAG: Word := 0x4000_0000

  const LENGTH_MASK: Word := 0x3FFF_FFFF

  const ACCEPT: Word := 0x8000_0000
  const DECLINE: Word := 0
  const UNSUPPORTED: Word := 0x4000_0000
  const CLOSING: Word := 0xFFFF_FFFF
  const REFUSAL: Word := 0xFFFF_FFFE

  /** `header & sessionFlag != 0` on a 32-bit word. */
  predicate HasSession(w: Word) {
    SESSION_FLAG <= w
  }

  /** `header & oneWayFlag != 0` on a 32-bit word. */
  predicate HasOneWay(w: Word) {
    w / ONE_WAY_FLAG % 2 == 1
  }

  /** `header & lengthMask` on a 32-bit word. */
  function LengthOf(w: Word): nat {
    w % ONE_WAY_FLAG
  }

  /** The k-th byte of w, counted from the least significant one. */
  function Digit(w: nat, k: nat): Byte {
    if k == 0 then w % 256 else Digit(w / 256, k - 1)
  }

  /** Four bytes, most significant first. */
  function Be32(w: Word): (b: seq<Byte>)
    ensures |b| == 4
  {
    seq(4, i requires 0 <= i < 4 => Digit(w, 3 - i))
  }

  /** The number the first n bytes spell. */
  function Spelled(b: seq<Byte>, n: nat): nat
    requires n <= |b|
  {
    if n == 0 then 0 else Spelled(b, n - 1) * 256 + b[n - 1]
  }

  lemma FourBytes(b: seq<Byte>)
    requires |b| == 4
    ensures Spelled(b, |b|) == (((b[0] as int) * 256 + b[1]) * 256 + b[2]) * 256 + b[3]
  {
    assert Spelled(b, 1) == Spelled(b, 0) * 256 + b[0];
    assert Spelled(b, 3) == Spelled(b, 2) * 256 + b[2];
  }

  function Word32(b: seq<Byte>): Word
    requires |b| == 4
  {
    FourBytes(b);
    Spelled(b, |b|)
  }

  lemma Digits(w: Word)
    ensures Be32(w) == [w / 0x100_0000, w / 0x1_0000 % 256, w / 256 % 256, w % 256]
  {
    var v := w / 256;
    var u := v / 256;
    var t := u / 256;
    assert Digit(w, 1) == Digit(v, 0) && Digit(w, 2) == Digit(v, 1) == Digit(u, 0);
    assert Digit(w, 3) == Digit(v, 2) == Digit(u, 1) == Digit(t, 0);
    assert u == w / 0x1_0000 && t == w / 0x100_0000;
  }

  /** Encoding and decoding a word are inverse, in both directions. */
  lemma WordRoundTrip(w: Word)
    ensures Word32(Be32(w)) == w
  {
    Digits(w);
    FourBytes(Be32(w));
    var v := w / 256;
    var u := v / 256;
    assert w / 0x1_0000 == u && w / 0x100_0000 == u / 256;
    assert w == v * 256 + w % 256 && v == u * 256 + v % 256 && u == u / 256 * 256 + u % 256;
  }

  lemma BytesRoundTrip(b: seq<Byte>)
    requires |b| == 4
    ensures Be32(Word32(b)) == b
  {
    FourBytes(b);
    var w := Word32(b);
    Digits(w);
    var v := ((b[0] as int) * 256 + b[1]) * 256 + b[2];
    assert w / 256 == v && w % 256 == b[3];
    assert v / 256 == (b[0] as int) * 256 + b[1] && v % 256 == b[2];
    assert w / 0x1_0000 == v / 256 && w / 0x100_0000 == v / 256 / 256;
  }

  /** Equal encodings carry equal words: distinct control words never look alike. */
  lemma Be32Injective(v: Word, w: Word)
    requires Be32(v) == Be32(w)
    ensures v == w
  {
    WordRoundTrip(v);
    WordRoundTrip(w);
  }

  /** A header the client opens a request with. */
  function RequestHeader(length: nat, oneWay: bool): (w: Word)
    requires length <= LENGTH_MASK
  {
    SESSION_FLAG + (if oneWay then ONE_WAY_FLAG else 0) + length
  }

  lemma RequestHeaderFields(length: nat, oneWay: bool)
    requires length <= LENGTH_MASK
    ensures var w := RequestHeader(length, oneWay);
            HasSession(w) && (HasOneWay(w) <==> oneWay) && LengthOf(w) == length
    ensures RequestHeader(length, oneWay) == CLOSING <==> oneWay && length == LENGTH_MASK
  {
  }

  /** The answer header of a call: bit 31 says the session continues. */
  function ReplyHeader(length: nat, keep: bool): (w: Word)
    requires length <= LENGTH_MASK
  {
    if keep then SESSION_FLAG + length else length
  }

  /** No answer header can be taken for the closing marker or a proof refusal. */
  lemma ReplyHeaderFields(length: nat, keep: bool)
    requires length <= LENGTH_MASK
    ensures var w := ReplyHeader(length, keep);
            && (HasSession(w) <==> keep) && !HasOneWay(w) && LengthOf(w) == length
            && w != CLOSING && w != REFUSAL
  {
  }

  /** What a complete answer looks like on the wire. */
  function Answer(body: seq<Byte>, keep: bool): (b: seq<Byte>)
    requires |body| <= LENGTH_MASK
    ensures |b| == 4 + |body|
  {
    Be32(ReplyHeader(|body|, keep)) + body
  }

  function Min(a: int, b: int): (m: int) {
    if a < b then a else b
  }

  /** a is how b begins. */
  predicate Starts<T(==)>(a: seq<T>, b: seq<T>) {
    |a| <= |b| && a == b[..|a|]
  }

  lemma Associative<T>(a: seq<T>, b: seq<T>, c: seq<T>)
    ensures a + (b + c) == a + b + c
  {
  }

  lemma Rejoined<T>(a: seq<T>, k: nat)
    requires k <= |a|
    ensures a == a[..k] + a[k..]
  {
  }

  lemma SliceGrows<T>(s: seq<T>, i: nat, j: nat, k: nat)
    requires i <= j <= k <= |s|
    ensures s[i..k] == s[i..j] + s[j..k]
  {
  }

  lemma StartsConcat<T>(a: seq<T>, b: seq<T>)
    ensures Starts(a, a + b)
  {
  }

  lemma StartsTrans<T>(a: seq<T>, b: seq<T>, c: seq<T>)
    requires Starts(a, b) && Starts(b, c)
    ensures Starts(a, c)
  {
    assert c[..|b|][..|a|] == c[..|a|];
  }

  /** Where a string begins like another, their slices agree. */
  lemma StartsSlice<T>(a: seq<T>, b: seq<T>, i: nat, j: nat)
    requires Starts(a, b) && i <= j <= |a|
    ensures a[i..j] == b[i..j]
  {
  }

  lemma SliceRight<T>(a: seq<T>, b: seq<T>, i: nat, j: nat)
    requires i <= j <= |b|
    ensures (a + b)[|a| + i..|a| + j] == b[i..j]
  {
  }

  /** Appending the next slice keeps a beginning a beginning. */
  lemma StartsGrows<T>(a: seq<T>, b: seq<T>, n: nat)
    requires Starts(a, b) && |a| + n <= |b|
    ensures Starts(a + b[|a|..|a| + n], b)
  {
  }

  /** A slice of the part that follows a known beginning. */
  lemma SliceBehind<T>(a: seq<T>, front: seq<T>, back: seq<T>, i: nat, j: nat)
    requires Starts(a, front + back) && i <= j && |front| + j <= |a|
    ensures j <= |back| && a[|front| + i..|front| + j] == back[i..j]
  {
    StartsSlice(a, front + back, |front| + i, |front| + j);
    SliceRight(front, back, i, j);
  }

  /** A slice of one piece within such a beginning. */
  lemma SliceWithin<T>(a: seq<T>, lead: seq<T>, all: seq<T>, rest: seq<T>, front: seq<T>, piece: seq<T>, i: nat, j: nat)
    requires Starts(a, lead + all + rest) && Starts(front + piece, all) && i <= j <= |piece|
    requires |lead| + |front| + j <= |a|
    ensures var at := |lead| + |front|; a[at + i..at + j] == piece[i..j]
  {
    var at := |lead| + |front|;
    Associative(lead, all, rest);
    SliceBehind(a, lead, all + rest, |front| + i, |front| + j);
    StartsConcat(all, rest);
    StartsSlice(all, all + rest, |front| + i, |front| + j);
    StartsSlice(front + piece, all, |front| + i, |front| + j);
    SliceRight(front, piece, i, j);
  }
}
