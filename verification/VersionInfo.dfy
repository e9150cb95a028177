/** The reader of VS_VERSIONINFO resources (version_windows.go:296-418): a tree of
    length-prefixed blocks. Texts are UTF-16 code units as the resource holds them. */
module VersionInfo {
  import opened Options

  type Octet = b: int | 0 <= b < 256
  type Unit = u: int | 0 <= u < 0x1_0000

  /** One block: where it begins and ends, its key, and the spans of its value and children. */
  datatype Block = Block(start: nat, key: seq<Unit>, valueAt: nat, valueEnd: nat, children: nat, end: nat)

  function U16(d: seq<Octet>, at: nat): Unit
    requires at + 2 <= |d|
  {
    (d[at] as int) + 256 * (d[at + 1] as int)
  }

  /** The next multiple of four. */
  function Align4(n: nat): (r: nat)
    ensures n <= r < n + 4
  {
    if n == 0 then 0 else if n <= 4 then 4 else 4 + Align4(n - 4)
  }

  /** As the source computes it, by clearing two bits. */
  lemma {:induction false} Align4Clears(n: nat)
    ensures Align4(n) == (n + 3) / 4 * 4
  {
    if 4 < n {
      Align4Clears(n - 4);
    }
  }

  predicate Aligned(n: nat) {
    Align4(n) == n
  }

  /** A NUL-terminated text, and the offset after its terminator. */
  function Utf16z(d: seq<Octet>, at: nat, limit: nat): (r: Option<(seq<Unit>, nat)>)
    requires limit <= |d|
    ensures r.Some? ==> at + 2 <= r.value.1 <= limit && r.value.1 == at + 2 * |r.value.0| + 2 && 0 !in r.value.0
    decreases limit - at
  {
    if limit < at + 2 then None
    else
      var u := U16(d, at);
      if u == 0 then Some(([], at + 2))
      else
        var rest := Utf16z(d, at + 2, limit);
        if rest.None? then None else Some(([u] + rest.value.0, rest.value.1))
  }

  /** versionBlockAt: the block at start, if one lies within limit. */
  function BlockAt(d: seq<Octet>, start: nat, limit: nat): (r: Option<Block>)
    requires limit <= |d|
    ensures r.Some? ==> Inside(r.value, start, limit)
  {
    if limit < start + 6 then None
    else
      var length := U16(d, start);
      var valueLength := if U16(d, start + 4) == 1 then 2 * U16(d, start + 2) else U16(d, start + 2);
      var end := start + length;
      if length < 6 || limit < end then None
      else
        var key := Utf16z(d, start + 6, end);
        if key.None? then None
        else
          var pos := Align4(key.value.1);
          if end < pos then Some(Block(start, key.value.0, end, end, Align4(end), end))
          else
            var valueEnd := if pos + valueLength < end then pos + valueLength else end;
            Some(Block(start, key.value.0, pos, valueEnd, Align4(valueEnd), end))
  }

  /** A block begins where it was read and its spans follow each other within the limit. */
  predicate Inside(b: Block, start: nat, limit: nat) {
    b.start == start && start + 8 <= b.valueAt <= b.valueEnd <= b.end <= limit && b.valueEnd <= b.children < b.valueEnd + 4
  }

  /** childBlocks: the blocks from `at` on, each where the one before it ended, aligned. */
  function Children(d: seq<Octet>, at: nat, end: nat): (bs: seq<Block>)
    requires end <= |d|
    ensures InOrder(bs, at, end)
    decreases end - at
  {
    if end < at + 6 then []
    else
      var b := BlockAt(d, at, end);
      if b.None? then [] else [b.value] + Children(d, Align4(b.value.end), end)
  }

  /** Blocks lie within a span, in order, none overlapping another. */
  predicate InOrder(bs: seq<Block>, at: nat, end: nat) {
    && (forall i :: 0 <= i < |bs| ==> at <= bs[i].start && Inside(bs[i], bs[i].start, end))
    && (forall i, j :: 0 <= i < j < |bs| ==> bs[i].end <= bs[j].start)
  }

  // ------------------------------------------------------------ the readers

  /** A text whose first units were read already. */
  function Behind(units: seq<Unit>, rest: Option<(seq<Unit>, nat)>): Option<(seq<Unit>, nat)> {
    if rest.None? then None else Some((units + rest.value.0, rest.value.1))
  }

  method ReadText(d: seq<Octet>, start: nat, limit: nat) returns (r: Option<(seq<Unit>, nat)>)
    requires limit <= |d|
    ensures r == Utf16z(d, start, limit)
  {
    var units: seq<Unit> := [];
    var at := start;
    ghost var all := Utf16z(d, start, limit);
    assert all.Some? ==> [] + all.value.0 == all.value.0;
    while at + 2 <= limit
      invariant start <= at && Utf16z(d, start, limit) == Behind(units, Utf16z(d, at, limit))
      decreases limit - at
    {
      var u := U16(d, at);
      if u == 0 {
        assert units + [] == units;
        return Some((units, at + 2));
      }
      assert Behind(units, Utf16z(d, at, limit)) == Behind(units + [u], Utf16z(d, at + 2, limit)) by {
        var rest := Utf16z(d, at + 2, limit);
        if rest.Some? {
          assert units + ([u] + rest.value.0) == units + [u] + rest.value.0;
        }
      }
      units := units + [u];
      at := at + 2;
    }
    r := None;
  }

  lemma OneMoreChild(out: seq<Block>, b: Block, rest: seq<Block>)
    ensures out + ([b] + rest) == out + [b] + rest
  {
  }

  method ChildBlocks(d: seq<Octet>, b: Block) returns (out: seq<Block>)
    requires b.end <= |d|
    ensures out == Children(d, b.children, b.end)
  {
    out := [];
    var at := b.children;
    ghost var all := Children(d, b.children, b.end);
    while at + 6 <= b.end
      invariant all == out + Children(d, at, b.end)
      decreases b.end - at
    {
      var child := BlockAt(d, at, b.end);
      if child.None? {
        break;
      }
      OneMoreChild(out, child.value, Children(d, Align4(child.value.end), b.end));
      out := out + [child.value];
      at := Align4(child.value.end);
    }
  }

  // --------------------------------------------------------------- the tree

  /** A block with what it holds, apart from where it lies. */
  datatype Node = Node(key: seq<Unit>, value: seq<Octet>, text: bool, children: seq<Node>)

  function NodeAt(d: seq<Octet>, b: Block): Node
    requires b.end <= |d| && Inside(b, b.start, b.end)
    decreases b.end - b.start, 0
  {
    Node(b.key, d[b.valueAt..b.valueEnd], U16(d, b.start + 4) == 1, ReadAll(d, b.children, b.end))
  }

  function ReadAll(d: seq<Octet>, at: nat, end: nat): seq<Node>
    requires end <= |d|
    decreases end - at, 1
  {
    if end < at + 6 then []
    else
      var b := BlockAt(d, at, end);
      if b.None? then [] else [NodeAt(d, b.value)] + ReadAll(d, Align4(b.value.end), end)
  }

  /** The tree a resource holds. */
  function ReadTree(d: seq<Octet>): Option<Node> {
    var b := BlockAt(d, 0, |d|);
    if b.None? then None else Some(NodeAt(d, b.value))
  }

  // --------------------------------------------------------- the serializer

  function Bytes16(n: nat): seq<Octet> {
    [n % 256, n / 256 % 256]
  }

  function Units(us: seq<Unit>): (b: seq<Octet>)
    ensures |b| == 2 * |us|
  {
    if us == [] then [] else Bytes16(us[0]) + Units(us[1..])
  }

  function Pad(n: nat): (b: seq<Octet>)
    ensures |b| == Align4(n) - n
  {
    seq(Align4(n) - n, _ => 0)
  }

  /** Key, terminator and padding, as they follow the six bytes of the header. */
  function Name(n: Node): (b: seq<Octet>)
    ensures 6 + |b| == Align4(6 + 2 * |n.key| + 2)
  {
    Units(n.key) + [0, 0] + Pad(6 + 2 * |n.key| + 2)
  }

  function Inner(n: Node): seq<Octet>
    decreases n, 0
  {
    n.value + if n.children == [] then [] else Pad(|n.value|) + EncodeAll(n.children)
  }

  function Encode(n: Node): (b: seq<Octet>)
    ensures 8 <= |b|
    decreases n, 1
  {
    var rest := Name(n) + Inner(n);
    Bytes16(6 + |rest|) + Bytes16(if n.text then |n.value| / 2 else |n.value|) + Bytes16(if n.text then 1 else 0) + rest
  }

  /** Children, each padded to the next boundary. */
  function EncodeAll(ns: seq<Node>): (b: seq<Octet>)
    decreases ns
  {
    if ns == [] then [] else Encode(ns[0]) + Pad(|Encode(ns[0])|) + EncodeAll(ns[1..])
  }

  /** What the format can hold: no NUL inside a key, and a text of whole units. */
  predicate Storable(n: Node)
    decreases n
  {
    0 !in n.key && (n.text ==> |n.value| % 2 == 0) && forall i :: 0 <= i < |n.children| ==> Storable(n.children[i])
  }

  predicate Holds(d: seq<Octet>, at: nat, part: seq<Octet>) {
    at + |part| <= |d| && d[at..at + |part|] == part
  }

  lemma HoldsSplit(d: seq<Octet>, at: nat, a: seq<Octet>, b: seq<Octet>)
    requires Holds(d, at, a + b)
    ensures Holds(d, at, a) && Holds(d, at + |a|, b)
  {
    var whole := d[at..at + |a + b|];
    assert whole[..|a|] == a == d[at..at + |a|];
    assert whole[|a|..] == b == d[at + |a|..at + |a| + |b|];
  }

  lemma WordAt(d: seq<Octet>, at: nat, n: nat)
    requires Holds(d, at, Bytes16(n)) && n < 0x1_0000
    ensures U16(d, at) == n
  {
    var part := d[at..at + 2];
    assert part[0] == d[at] && part[1] == d[at + 1];
  }

  lemma {:induction false} TextAt(d: seq<Octet>, at: nat, us: seq<Unit>, limit: nat)
    requires Holds(d, at, Units(us) + [0, 0]) && 0 !in us && at + 2 * |us| + 2 <= limit <= |d|
    ensures Utf16z(d, at, limit) == Some((us, at + 2 * |us| + 2))
    decreases |us|
  {
    if us == [] {
      assert Units(us) + [0, 0] == Bytes16(0);
      WordAt(d, at, 0);
    } else {
      assert Units(us) + [0, 0] == Bytes16(us[0]) + (Units(us[1..]) + [0, 0]);
      HoldsSplit(d, at, Bytes16(us[0]), Units(us[1..]) + [0, 0]);
      WordAt(d, at, us[0]);
      TextAt(d, at + 2, us[1..], limit);
      assert us == [us[0]] + us[1..];
    }
  }

  /** The fields of an encoded block are found where they were put. */
  lemma {:induction false} FieldsAt(d: seq<Octet>, at: nat, n: Node)
    requires Holds(d, at, Encode(n))
    ensures var rest := Name(n) + Inner(n);
            && Holds(d, at, Bytes16(6 + |rest|)) && Holds(d, at + 2, Bytes16(if n.text then |n.value| / 2 else |n.value|))
            && Holds(d, at + 4, Bytes16(if n.text then 1 else 0))
            && Holds(d, at + 6, Units(n.key) + [0, 0]) && Holds(d, at + 6 + |Name(n)|, Inner(n))
  {
    var rest := Name(n) + Inner(n);
    var a, b, c := Bytes16(6 + |rest|), Bytes16(if n.text then |n.value| / 2 else |n.value|), Bytes16(if n.text then 1 else 0);
    WordsSplit(d, at, a, b, c, rest);
    HoldsSplit(d, at + 6, Name(n), Inner(n));
    HoldsSplit(d, at + 6, Units(n.key) + [0, 0], Pad(6 + 2 * |n.key| + 2));
  }

  /** Three words and what follows them. */
  lemma WordsSplit(d: seq<Octet>, at: nat, a: seq<Octet>, b: seq<Octet>, c: seq<Octet>, rest: seq<Octet>)
    requires Holds(d, at, a + b + c + rest) && |a| == |b| == |c| == 2
    ensures Holds(d, at, a) && Holds(d, at + 2, b) && Holds(d, at + 4, c) && Holds(d, at + 6, rest)
  {
    HoldsSplit(d, at, a + b + c, rest);
    HoldsSplit(d, at, a + b, c);
    HoldsSplit(d, at, a, b);
  }

  lemma BlockFrom(d: seq<Octet>, at: nat, limit: nat, b: Block, text: bool, after: nat)
    requires b.start == at && at + 6 <= b.end <= limit <= |d| && b.valueAt == Align4(after) && b.children == Align4(b.valueEnd)
    requires b.valueAt <= b.valueEnd <= b.end && (text ==> (b.valueEnd - b.valueAt) % 2 == 0)
    requires U16(d, at) == b.end - at && (U16(d, at + 4) == 1 <==> text)
    requires U16(d, at + 2) == if text then (b.valueEnd - b.valueAt) / 2 else b.valueEnd - b.valueAt
    requires Utf16z(d, at + 6, b.end) == Some((b.key, after))
    ensures BlockAt(d, at, limit) == Some(b)
  {
  }

  lemma {:induction false} AlignShift(at: nat, n: nat)
    requires Aligned(at)
    ensures Align4(at + n) == at + Align4(n)
    decreases at
  {
    if 4 < at {
      AlignShift(at - 4, n);
    }
  }

  lemma AlignedSum(a: nat, n: nat)
    requires Aligned(a)
    ensures Aligned(a + Align4(n)) && Aligned(Align4(n))
  {
    AlignTwice(n);
    AlignShift(a, Align4(n));
  }

  lemma {:induction false} AlignTwice(n: nat)
    ensures Aligned(Align4(n))
  {
    if 4 < n {
      AlignTwice(n - 4);
    }
  }

  /** The block a stored node is read from: its key, its value and the span of its
      children. */
  function Stored(at: nat, n: Node): Block {
    var pos := at + (6 + |Name(n)|);
    Block(at, n.key, pos, pos + |n.value|, Align4(pos + |n.value|), at + |Encode(n)|)
  }

  /** An encoded block is read as that one. */
  lemma {:induction false} BlockReadsBack(d: seq<Octet>, at: nat, limit: nat, n: Node, b: Block)
    requires Holds(d, at, Encode(n)) && Aligned(at) && at + |Encode(n)| <= limit <= |d| && b == Stored(at, n)
    requires |Encode(n)| < 0x1_0000 && 0 !in n.key && (n.text ==> |n.value| % 2 == 0)
    ensures BlockAt(d, at, limit) == Some(b) && (U16(d, at + 4) == 1 <==> n.text)
  {
    FieldsRead(d, at, n);
    BlockStored(d, at, limit, n, b);
  }

  lemma BlockStored(d: seq<Octet>, at: nat, limit: nat, n: Node, b: Block)
    requires HeadRead(d, at, |Encode(n)|, |n.value|, n.text, n.key) && b == Stored(at, n)
    requires Aligned(at) && at + |Encode(n)| <= limit <= |d| && (n.text ==> |n.value| % 2 == 0)
    ensures BlockAt(d, at, limit) == Some(b) && (U16(d, at + 4) == 1 <==> n.text)
  {
    RoomForValue(n);
    BlockPlaced(d, at, limit, n.key, |Name(n)|, |n.value|, n.text, |Encode(n)|, b);
  }

  /** What the fields of a block say: its size, its value's length and kind, its key. */
  predicate HeadRead(d: seq<Octet>, at: nat, size: nat, v: nat, text: bool, key: seq<Unit>) {
    && 6 <= size && at + size <= |d|
    && U16(d, at) == size && U16(d, at + 2) == (if text then v / 2 else v) && (U16(d, at + 4) == 1 <==> text)
    && Utf16z(d, at + 6, at + size) == Some((key, at + (6 + 2 * |key| + 2)))
  }

  /** A block of that size, with its value behind its name. */
  lemma BlockPlaced(d: seq<Octet>, at: nat, limit: nat, key: seq<Unit>, name: nat, v: nat, text: bool, size: nat, b: Block)
    requires Aligned(at) && 6 + name == Align4(6 + 2 * |key| + 2) && 6 + name + v <= size && at + size <= limit <= |d|
    requires HeadRead(d, at, size, v, text, key) && (text ==> v % 2 == 0)
    requires var pos := at + (6 + name); b == Block(at, key, pos, pos + v, Align4(pos + v), at + size)
    ensures BlockAt(d, at, limit) == Some(b) && (U16(d, at + 4) == 1 <==> text)
  {
    AlignShift(at, 6 + 2 * |key| + 2);
    BlockFrom(d, at, limit, b, text, at + (6 + 2 * |key| + 2));
  }

  lemma {:induction false} FieldsRead(d: seq<Octet>, at: nat, n: Node)
    requires Holds(d, at, Encode(n)) && |Encode(n)| < 0x1_0000 && 0 !in n.key
    ensures HeadRead(d, at, |Encode(n)|, |n.value|, n.text, n.key)
  {
    FieldsAt(d, at, n);
    EncodeLength(n);
    WordAt(d, at, |Encode(n)|);
    WordAt(d, at + 2, if n.text then |n.value| / 2 else |n.value|);
    WordAt(d, at + 4, if n.text then 1 else 0);
    TextAt(d, at + 6, n.key, at + |Encode(n)|);
  }

  lemma EncodeLength(n: Node)
    ensures |Encode(n)| == 6 + |Name(n)| + |Inner(n)| && |n.value| <= |Inner(n)|
    ensures 6 + |Name(n)| == Align4(6 + 2 * |n.key| + 2)
    ensures |Inner(n)| == if n.children == [] then |n.value| else Align4(|n.value|) + |EncodeAll(n.children)|
  {
  }

  lemma RoomForValue(n: Node)
    ensures 6 + |Name(n)| == Align4(6 + 2 * |n.key| + 2) && 6 + |Name(n)| + |n.value| <= |Encode(n)|
  {
    EncodeLength(n);
  }

  /** Where the children of an encoded block begin, and where they end. */
  lemma ChildrenAt(at: nat, n: Node)
    requires Aligned(at)
    ensures var pos := at + (6 + |Name(n)|);
            var children := Align4(pos + |n.value|);
            && children == pos + Align4(|n.value|) && Aligned(children)
            && (n.children != [] ==> children + |EncodeAll(n.children)| == at + |Encode(n)|)
            && (n.children == [] ==> at + |Encode(n)| == pos + |n.value|)
  {
    EncodeLength(n);
    AlignedSum(at, 6 + 2 * |n.key| + 2);
    AlignShift(at + (6 + |Name(n)|), |n.value|);
    AlignedSum(at + (6 + |Name(n)|), |n.value|);
  }

  /** The value of an encoded block, and its children behind it. */
  lemma InnerAt(d: seq<Octet>, at: nat, n: Node, pos: nat)
    requires Holds(d, at, Encode(n)) && pos == at + (6 + |Name(n)|)
    ensures Holds(d, pos, n.value) && (n.children != [] ==> Holds(d, pos + Align4(|n.value|), EncodeAll(n.children)))
  {
    FieldsAt(d, at, n);
    HoldsThere(d, at + 6 + |Name(n)|, pos, Inner(n));
    SplitInner(d, pos, n);
  }

  lemma SplitInner(d: seq<Octet>, pos: nat, n: Node)
    requires Holds(d, pos, Inner(n))
    ensures Holds(d, pos, n.value) && (n.children != [] ==> Holds(d, pos + Align4(|n.value|), EncodeAll(n.children)))
  {
    if n.children == [] {
      assert Inner(n) == n.value;
    } else {
      var pad, rest := Pad(|n.value|), EncodeAll(n.children);
      HoldsSplit(d, pos, n.value, pad + rest);
      HoldsSplit(d, pos + |n.value|, pad, rest);
      HoldsThere(d, pos + |n.value| + |pad|, pos + Align4(|n.value|), rest);
    }
  }

  lemma NodeFrom(d: seq<Octet>, b: Block, n: Node)
    requires b.end <= |d| && Inside(b, b.start, b.end) && b.key == n.key && (U16(d, b.start + 4) == 1 <==> n.text)
    requires b.valueEnd == b.valueAt + |n.value| && Holds(d, b.valueAt, n.value)
    requires ReadAll(d, b.children, b.end) == n.children
    ensures NodeAt(d, b) == n
  {
  }

  lemma {:induction false} NodeReadsBack(d: seq<Octet>, at: nat, n: Node)
    requires Holds(d, at, Encode(n)) && Aligned(at) && Storable(n) && |Encode(n)| < 0x1_0000
    requires var b := Stored(at, n); b.end <= |d| && Inside(b, at, b.end) && (U16(d, at + 4) == 1 <==> n.text)
    ensures NodeAt(d, Stored(at, n)) == n
    decreases |Encode(n)|, 1
  {
    var b := Stored(at, n);
    InnerAt(d, at, n, b.valueAt);
    ChildrenReadBack(d, at, n, b.children, b.end);
    NodeFrom(d, b, n);
  }

  lemma {:induction false} ChildrenReadBack(d: seq<Octet>, at: nat, n: Node, children: nat, end: nat)
    requires Holds(d, at, Encode(n)) && Aligned(at) && Storable(n) && |Encode(n)| < 0x1_0000
    requires children == Align4(at + (6 + |Name(n)|) + |n.value|) && end == at + |Encode(n)| <= |d|
    ensures ReadAll(d, children, end) == n.children
    decreases |Encode(n)|, 0
  {
    InnerAt(d, at, n, at + (6 + |Name(n)|));
    ChildrenAt(at, n);
    if n.children != [] {
      AllReadBack(d, children, end, n.children);
    }
  }

  lemma SplitAll(d: seq<Octet>, at: nat, ns: seq<Node>)
    requires ns != [] && Holds(d, at, EncodeAll(ns))
    ensures Holds(d, at, Encode(ns[0])) && Holds(d, at + Align4(|Encode(ns[0])|), EncodeAll(ns[1..]))
    ensures |EncodeAll(ns)| == Align4(|Encode(ns[0])|) + |EncodeAll(ns[1..])|
  {
    var e := Encode(ns[0]);
    HoldsSplit(d, at, e + Pad(|e|), EncodeAll(ns[1..]));
    HoldsSplit(d, at, e, Pad(|e|));
  }

  /** The first child ends at e, and the others begin at the next boundary. */
  lemma FirstOfAll(d: seq<Octet>, at: nat, end: nat, ns: seq<Node>, e: nat, next: nat)
    requires ns != [] && Holds(d, at, EncodeAll(ns)) && Aligned(at)
    requires at + |EncodeAll(ns)| == end && |EncodeAll(ns)| < 0x1_0000
    requires e == at + |Encode(ns[0])| && next == Align4(e)
    ensures Holds(d, at, Encode(ns[0])) && |Encode(ns[0])| < 0x1_0000 && e <= end
    ensures Holds(d, next, EncodeAll(ns[1..])) && Aligned(next) && at < next && next + |EncodeAll(ns[1..])| == end
  {
    var size, others := |Encode(ns[0])|, EncodeAll(ns[1..]);
    SplitAll(d, at, ns);
    NextAt(at, size, |others|, end);
    HoldsThere(d, at + Align4(size), next, others);
  }

  lemma HoldsThere(d: seq<Octet>, at: nat, there: nat, part: seq<Octet>)
    requires Holds(d, at, part) && there == at
    ensures Holds(d, there, part)
  {
  }

  lemma NextAt(at: nat, size: nat, rest: nat, end: nat)
    requires Aligned(at) && 0 < size && at + (Align4(size) + rest) == end
    ensures var next := Align4(at + size);
            next == at + Align4(size) && Aligned(next) && at + size <= end && at < next && next + rest == end
  {
    AlignedSum(at, size);
    AlignShift(at, size);
  }

  lemma ReadOne(d: seq<Octet>, at: nat, end: nat, e: nat, n: Node, rest: seq<Node>)
    requires end <= |d| && BlockAt(d, at, end).Some? && NodeAt(d, BlockAt(d, at, end).value) == n
    requires BlockAt(d, at, end).value.end == e && ReadAll(d, Align4(e), end) == rest
    ensures ReadAll(d, at, end) == [n] + rest
  {
  }

  lemma {:induction false} AllReadBack(d: seq<Octet>, at: nat, end: nat, ns: seq<Node>)
    requires Holds(d, at, EncodeAll(ns)) && Aligned(at)
    requires at + |EncodeAll(ns)| == end <= |d| && |EncodeAll(ns)| < 0x1_0000
    requires forall i :: 0 <= i < |ns| ==> Storable(ns[i])
    ensures ReadAll(d, at, end) == ns
    decreases |EncodeAll(ns)|, 2
  {
    if ns == [] {
      assert EncodeAll(ns) == [];
    } else {
      var e := at + |Encode(ns[0])|;
      FirstOfAll(d, at, end, ns, e, Align4(e));
      var b := Stored(at, ns[0]);
      BlockReadsBack(d, at, end, ns[0], b);
      NodeReadsBack(d, at, ns[0]);
      AllReadBack(d, Align4(e), end, ns[1..]);
      ReadOne(d, at, end, e, ns[0], ns[1..]);
    }
  }

  /** Reading what the serializer wrote recovers the tree. */
  lemma {:induction false} RoundTrip(n: Node)
    requires Storable(n) && |Encode(n)| < 0x1_0000
    ensures ReadTree(Encode(n)) == Some(n)
  {
    var d := Encode(n);
    assert d[0..|d|] == d;
    var b := Stored(0, n);
    BlockReadsBack(d, 0, |d|, n, b);
    NodeReadsBack(d, 0, n);
  }
}
