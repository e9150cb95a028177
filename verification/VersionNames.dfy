/** What parseVersionInfo makes of a version resource (version_windows.go:354-418):
    the two names it reads, and out of which string table. */
module VersionNames {
  import opened Options
  import opened VersionInfo

  /** The code units of an ASCII text. */
  function Text(s: string): (us: seq<Unit>)
    ensures |us| == |s|
  {
    seq(|s|, i requires 0 <= i < |s| => (s[i] as int) % 0x1_0000)
  }

  datatype Version = Version(description: seq<Unit>, originalName: seq<Unit>)

  function Hex1(n: nat): Unit
    requires n < 16
  {
    if n < 10 then 48 + n else 87 + n
  }

  /** Four lower-case hexadecimal digits. */
  function Hex4(u: Unit): seq<Unit> {
    [Hex1(u / 4096), Hex1(u / 256 % 16), Hex1(u / 16 % 16), Hex1(u % 16)]
  }

  function Fold(u: Unit): Unit {
    if 65 <= u <= 90 then u + 32 else u
  }

  /** Equality but for the case of ASCII letters: strings.EqualFold, where one of
      the texts is hexadecimal digits or empty. */
  predicate SameFold(a: seq<Unit>, b: seq<Unit>) {
    |a| == |b| && forall i :: 0 <= i < |a| ==> Fold(a[i]) == Fold(b[i])
  }

  /** White space, as strings.TrimSpace has it. */
  predicate IsSpace(u: Unit) {
    9 <= u <= 13 || u == 0x20 || u == 0x85 || u == 0xA0 || u == 0x1680 || 0x2000 <= u <= 0x200A
    || u == 0x2028 || u == 0x2029 || u == 0x202F || u == 0x205F || u == 0x3000
  }

  function Trim(us: seq<Unit>): seq<Unit>
    decreases |us|
  {
    if us == [] then []
    else if IsSpace(us[0]) then Trim(us[1..])
    else if IsSpace(us[|us| - 1]) then Trim(us[..|us| - 1])
    else us
  }

  /** The units of a value up to its first NUL. */
  function UpToNul(v: seq<Octet>, at: nat): seq<Unit>
    decreases |v| - at
  {
    if |v| < at + 2 || U16(v, at) == 0 then [] else [U16(v, at)] + UpToNul(v, at + 2)
  }

  function TextOf(v: seq<Octet>): seq<Unit> {
    Trim(UpToNul(v, 0))
  }

  // ------------------------------------------------------ on the whole tree

  function Tables(cs: seq<Node>): seq<Node> {
    if cs == [] then []
    else (if cs[0].key == Text("StringFileInfo") then cs[0].children else []) + Tables(cs[1..])
  }

  /** The first translation among the children of a VarFileInfo block, or nothing. */
  function FirstTranslation(vs: seq<Node>): seq<Unit> {
    if vs == [] then []
    else if vs[0].key == Text("Translation") && 4 <= |vs[0].value| then Hex4(U16(vs[0].value, 0)) + Hex4(U16(vs[0].value, 2))
    else FirstTranslation(vs[1..])
  }

  function Translation(cs: seq<Node>): seq<Unit> {
    if cs == [] then []
    else
      var here := if cs[0].key == Text("VarFileInfo") then FirstTranslation(cs[0].children) else [];
      if here != [] then here else Translation(cs[1..])
  }

  function FirstMatch(tables: seq<Node>, tr: seq<Unit>): (i: nat)
    ensures i <= |tables| && (i < |tables| ==> SameFold(tables[i].key, tr))
    ensures forall j :: 0 <= j < i ==> !SameFold(tables[j].key, tr)
  {
    if tables == [] || SameFold(tables[0].key, tr) then 0 else 1 + FirstMatch(tables[1..], tr)
  }

  /** The table both names are read from. */
  function ChosenAt(tables: seq<Node>, tr: seq<Unit>): (i: nat)
    requires tables != []
    ensures i < |tables| && (SameFold(tables[i].key, tr) || i == 0)
    ensures SameFold(tables[i].key, tr) ==> forall j :: 0 <= j < i ==> !SameFold(tables[j].key, tr)
    ensures !SameFold(tables[i].key, tr) ==> forall j :: 0 <= j < |tables| ==> !SameFold(tables[j].key, tr)
  {
    var i := FirstMatch(tables, tr);
    if i < |tables| then i else 0
  }

  /** The last String of each name counts. */
  function Names(ss: seq<Node>): Version {
    if ss == [] then Version([], [])
    else
      var v, s := Names(ss[..|ss| - 1]), ss[|ss| - 1];
      if s.key == Text("FileDescription") then v.(description := TextOf(s.value))
      else if s.key == Text("OriginalFilename") then v.(originalName := TextOf(s.value))
      else v
  }

  /** The last String of that key, if there is one. */
  predicate LastOf(ss: seq<Node>, key: seq<Unit>, i: nat) {
    i < |ss| && ss[i].key == key && forall j :: i < j < |ss| ==> ss[j].key != key
  }

  predicate NoneOf(ss: seq<Node>, key: seq<Unit>) {
    forall j :: 0 <= j < |ss| ==> ss[j].key != key
  }

  /** A text is the value of the last String of that name, and empty without one. */
  ghost predicate Spells(us: seq<Unit>, ss: seq<Node>, key: seq<Unit>) {
    (NoneOf(ss, key) ==> us == []) && forall i: nat :: LastOf(ss, key, i) ==> us == TextOf(ss[i].value)
  }

  ghost predicate Says(v: Version, ss: seq<Node>) {
    Spells(v.description, ss, Text("FileDescription")) && Spells(v.originalName, ss, Text("OriginalFilename"))
  }

  lemma NamesApart()
    ensures Text("FileDescription") != Text("OriginalFilename")
  {
    assert |Text("FileDescription")| == 15 && |Text("OriginalFilename")| == 16;
  }

  /** One more String: it counts if it has the name, and changes nothing if not. */
  lemma SpellsOn(us: seq<Unit>, ss: seq<Node>, s: Node, key: seq<Unit>)
    requires Spells(us, ss, key)
    ensures Spells(if s.key == key then TextOf(s.value) else us, ss + [s], key)
  {
    var all := ss + [s];
    forall i: nat | LastOf(all, key, i)
      ensures (if s.key == key then TextOf(s.value) else us) == TextOf(all[i].value)
    {
      if i < |ss| {
        assert all[|ss|] == s;
        forall j | i < j < |ss|
          ensures ss[j].key != key
        {
          assert all[j] == ss[j];
        }
        assert LastOf(ss, key, i);
      }
    }
    if NoneOf(all, key) {
      assert all[|ss|] == s;
      forall j | 0 <= j < |ss|
        ensures ss[j].key != key
      {
        assert all[j] == ss[j];
      }
    }
  }

  /** The two names read are those two Strings' texts. */
  lemma {:induction false} NamesSay(ss: seq<Node>)
    ensures Says(Names(ss), ss)
    decreases |ss|
  {
    if ss != [] {
      var n := |ss| - 1;
      NamesSay(ss[..n]);
      NamesApart();
      SpellsOn(Names(ss[..n]).description, ss[..n], ss[n], Text("FileDescription"));
      SpellsOn(Names(ss[..n]).originalName, ss[..n], ss[n], Text("OriginalFilename"));
      assert ss == ss[..n] + [ss[n]];
    }
  }

  function VersionOf(root: Node): Option<Version> {
    if root.key != Text("VS_VERSION_INFO") || Tables(root.children) == [] then None
    else Some(Names(Tables(root.children)[ChosenAt(Tables(root.children), Translation(root.children))].children))
  }

  /** What the documentation promises: the table the translation names, or the first. */
  function PromisedAt(tables: seq<Node>, tr: seq<Unit>): nat
    requires tables != []
  {
    if tr == [] then 0 else ChosenAt(tables, tr)
  }

  // --------------------------------------------------------------- the loops

  predicate Readable(d: seq<Octet>, bs: seq<Block>) {
    forall i :: 0 <= i < |bs| ==> bs[i].end <= |d| && Inside(bs[i], bs[i].start, bs[i].end)
  }

  function Nodes(d: seq<Octet>, bs: seq<Block>): (ns: seq<Node>)
    requires Readable(d, bs)
    ensures |ns| == |bs|
  {
    seq(|bs|, i requires 0 <= i < |bs| => NodeAt(d, bs[i]))
  }

  lemma NodesCons(d: seq<Octet>, b: Block, rest: seq<Block>)
    requires b.end <= |d| && Inside(b, b.start, b.end) && Readable(d, rest)
    ensures Readable(d, [b] + rest) && Nodes(d, [b] + rest) == [NodeAt(d, b)] + Nodes(d, rest)
  {
  }

  lemma Unrolled(d: seq<Octet>, at: nat, end: nat, b: Block, next: nat)
    requires at + 6 <= end <= |d| && BlockAt(d, at, end) == Some(b) && next == Align4(b.end)
    ensures Children(d, at, end) == [b] + Children(d, next, end)
    ensures Inside(b, b.start, b.end) && b.end <= end && at < next
    ensures ReadAll(d, at, end) == [NodeAt(d, b)] + ReadAll(d, next, end)
  {
  }

  lemma {:induction false} ChildrenAreNodes(d: seq<Octet>, at: nat, end: nat)
    requires end <= |d|
    ensures Readable(d, Children(d, at, end)) && ReadAll(d, at, end) == Nodes(d, Children(d, at, end))
    decreases end - at
  {
    if end < at + 6 || BlockAt(d, at, end).None? {
      assert Children(d, at, end) == [] && ReadAll(d, at, end) == [];
    } else {
      var b := BlockAt(d, at, end).value;
      var next := Align4(b.end);
      Unrolled(d, at, end, b, next);
      ChildrenAreNodes(d, next, end);
      NodesCons(d, b, Children(d, next, end));
    }
  }

  method TextValue(v: seq<Octet>) returns (us: seq<Unit>)
    ensures us == TextOf(v)
  {
    var units: seq<Unit> := [];
    var at := 0;
    while at + 2 <= |v|
      invariant units + UpToNul(v, at) == UpToNul(v, 0)
      decreases |v| - at
    {
      var u := U16(v, at);
      if u == 0 {
        break;
      }
      assert units + ([u] + UpToNul(v, at + 2)) == units + [u] + UpToNul(v, at + 2);
      units := units + [u];
      at := at + 2;
    }
    assert units + [] == units;
    us := Trim(units);
  }

  /** The scan of a VarFileInfo block keeps a translation found before. */
  method ScanTranslations(d: seq<Octet>, vs: seq<Block>, found: seq<Unit>) returns (tr: seq<Unit>)
    requires Readable(d, vs)
    ensures tr == if found != [] then found else FirstTranslation(Nodes(d, vs))
  {
    tr := found;
    ghost var ns := Nodes(d, vs);
    for i := 0 to |vs|
      invariant found != [] ==> tr == found
      invariant found == [] ==> FirstTranslation(ns) == if tr != [] then tr else FirstTranslation(ns[i..])
    {
      assert ns[i..][0] == ns[i] && ns[i..][1..] == ns[i + 1..];
      var value := d[vs[i].valueAt..vs[i].valueEnd];
      if vs[i].key == Text("Translation") && 4 <= |value| && tr == [] {
        tr := Hex4(U16(value, 0)) + Hex4(U16(value, 2));
      }
    }
  }

  method PickTable(d: seq<Octet>, tables: seq<Block>, tr: seq<Unit>) returns (table: Block)
    requires Readable(d, tables) && tables != []
    ensures table in tables && NodeAt(d, table) == Nodes(d, tables)[ChosenAt(Nodes(d, tables), tr)]
  {
    table := tables[0];
    ghost var ns := Nodes(d, tables);
    for i := 0 to |tables|
      invariant table == tables[0] && FirstMatch(ns, tr) == i + FirstMatch(ns[i..], tr)
    {
      assert ns[i..][0] == ns[i] && ns[i..][1..] == ns[i + 1..];
      if SameFold(tables[i].key, tr) {
        table := tables[i];
        break;
      }
    }
  }

  method ReadNames(d: seq<Octet>, ss: seq<Block>) returns (v: Version)
    requires Readable(d, ss)
    ensures v == Names(Nodes(d, ss)) && Says(v, Nodes(d, ss))
  {
    v := Version([], []);
    ghost var ns := Nodes(d, ss);
    for i := 0 to |ss|
      invariant v == Names(ns[..i])
    {
      assert ns[..i + 1][..i] == ns[..i] && ns[..i + 1][i] == ns[i];
      if ss[i].key == Text("FileDescription") {
        var us := TextValue(d[ss[i].valueAt..ss[i].valueEnd]);
        v := v.(description := us);
      } else if ss[i].key == Text("OriginalFilename") {
        var us := TextValue(d[ss[i].valueAt..ss[i].valueEnd]);
        v := v.(originalName := us);
      }
    }
    assert ns[..|ss|] == ns;
    NamesSay(ns);
  }

  lemma NodesConcat(d: seq<Octet>, a: seq<Block>, b: seq<Block>)
    requires Readable(d, a) && Readable(d, b)
    ensures Readable(d, a + b) && Nodes(d, a + b) == Nodes(d, a) + Nodes(d, b)
  {
  }

  /** How far the scan of the root's children has come. */
  predicate Scanned(ns: seq<Node>, i: nat, tables: seq<Node>, tr: seq<Unit>)
    requires i <= |ns|
  {
    && Tables(ns) == tables + Tables(ns[i..])
    && Translation(ns) == if tr != [] then tr else Translation(ns[i..])
  }

  /** One child of the root: a StringFileInfo adds its tables, a VarFileInfo its
      translation where none was found before. */
  lemma ScanStep(ns: seq<Node>, i: nat, tables: seq<Node>, tr: seq<Unit>)
    requires i < |ns| && Scanned(ns, i, tables, tr)
    ensures Scanned(ns, i + 1,
                    if ns[i].key == Text("StringFileInfo") then tables + ns[i].children else tables,
                    if ns[i].key == Text("VarFileInfo") && tr == [] then FirstTranslation(ns[i].children) else tr)
  {
    assert ns[i..][0] == ns[i] && ns[i..][1..] == ns[i + 1..];
    var rest := Tables(ns[i + 1..]);
    assert tables + (ns[i].children + rest) == tables + ns[i].children + rest;
    assert [] + rest == rest;
  }

  lemma KeysDiffer()
    ensures Text("StringFileInfo") != Text("VarFileInfo")
  {
    assert |Text("StringFileInfo")| == 14 && |Text("VarFileInfo")| == 11;
  }

  /** The first loop of parseVersionInfo. */
  method GatherTables(d: seq<Octet>, kids: seq<Block>) returns (tables: seq<Block>, translation: seq<Unit>)
    requires Readable(d, kids)
    ensures Readable(d, tables) && Nodes(d, tables) == Tables(Nodes(d, kids))
    ensures translation == Translation(Nodes(d, kids))
  {
    tables, translation := [], [];
    ghost var ns := Nodes(d, kids);
    KeysDiffer();
    assert ns[0..] == ns && [] + Tables(ns) == Tables(ns);
    for i := 0 to |kids|
      invariant Readable(d, tables) && Scanned(ns, i, Nodes(d, tables), translation)
    {
      ScanStep(ns, i, Nodes(d, tables), translation);
      var more := ChildBlocks(d, kids[i]);
      KidsOf(d, kids[i], more);
      if kids[i].key == Text("StringFileInfo") {
        NodesConcat(d, tables, more);
        tables := tables + more;
      } else if kids[i].key == Text("VarFileInfo") {
        translation := ScanTranslations(d, more, translation);
      }
    }
    assert Nodes(d, tables) + [] == Nodes(d, tables);
  }

  lemma KidsOf(d: seq<Octet>, b: Block, bs: seq<Block>)
    requires b.end <= |d| && Inside(b, b.start, b.end) && bs == Children(d, b.children, b.end)
    ensures Readable(d, bs) && NodeAt(d, b).children == Nodes(d, bs) && NodeAt(d, b).key == b.key
  {
    ChildrenAreNodes(d, b.children, b.end);
  }

  /** What a byte string says: nothing, or what the tree it holds does. */
  function Parsed(d: seq<Octet>): Option<Version> {
    if ReadTree(d).None? then None else VersionOf(ReadTree(d).value)
  }

  /** The reader on bytes gives what the tree they hold says, for every byte string: the
      two names of one of its string tables. */
  method ParseVersionInfo(d: seq<Octet>) returns (r: Option<Version>)
    ensures r == Parsed(d)
    ensures r.Some? ==> ReadTree(d).Some? && exists t :: t in Tables(ReadTree(d).value.children) && Says(r.value, t.children)
  {
    var root := BlockAt(d, 0, |d|);
    if root.None? || root.value.key != Text("VS_VERSION_INFO") {
      return None;
    }
    var kids := ChildBlocks(d, root.value);
    ChildrenAreNodes(d, root.value.children, root.value.end);
    var tables, translation := GatherTables(d, kids);
    if tables == [] {
      return None;
    }
    var table := PickTable(d, tables, translation);
    var strings := ChildBlocks(d, table);
    ChildrenAreNodes(d, table.children, table.end);
    var version := ReadNames(d, strings);
    assert NodeAt(d, table) in Tables(ReadTree(d).value.children);
    r := Some(version);
  }

  /** A translation of this resource is eight digits, or there is none. */
  lemma TranslationForm(cs: seq<Node>)
    ensures |Translation(cs)| == 8 || Translation(cs) == []
  {
    if cs != [] {
      TranslationForm(cs[1..]);
      FirstForm(cs[0].children);
    }
  }

  lemma FirstForm(vs: seq<Node>)
    ensures |FirstTranslation(vs)| == 8 || FirstTranslation(vs) == []
  {
    if vs != [] {
      FirstForm(vs[1..]);
    }
  }

  /** The table read is the one the documentation promises, the first where the
      translation names none, exactly when there is a translation, or the first
      table's key is empty, or no table's is: with no translation the search still
      looks for a table whose key is empty. */
  lemma ChosenAsPromised(tables: seq<Node>, tr: seq<Unit>)
    requires tables != []
    ensures ChosenAt(tables, tr) == PromisedAt(tables, tr) <==>
              tr != [] || tables[0].key == [] || forall i :: 0 <= i < |tables| ==> tables[i].key != []
  {
    var i := FirstMatch(tables, tr);
    if tr == [] && i < |tables| {
      assert tables[i].key == [];
      assert i == 0 <==> SameFold(tables[0].key, tr);
    }
  }

  // ------------------------------------------------------------- what a text is

  /** The units before the first NUL, or to the end. */
  lemma {:induction false} BeforeNul(v: seq<Octet>, at: nat)
    ensures var us := UpToNul(v, at);
            && (us != [] ==> at + 2 * |us| <= |v|) && (forall i :: 0 <= i < |us| ==> us[i] == U16(v, at + 2 * i) != 0)
            && (at + 2 * |us| + 2 <= |v| ==> U16(v, at + 2 * |us|) == 0)
    decreases |v| - at
  {
    if at + 2 <= |v| && U16(v, at) != 0 {
      BeforeNul(v, at + 2);
      var rest := UpToNul(v, at + 2);
      assert UpToNul(v, at) == [U16(v, at)] + rest;
      assert at + 2 * |[U16(v, at)] + rest| == at + 2 + 2 * |rest|;
      forall i | 0 <= i < |rest| + 1
        ensures ([U16(v, at)] + rest)[i] == U16(v, at + 2 * i) != 0
      {
        if 0 < i {
          assert rest[i - 1] == U16(v, at + 2 + 2 * (i - 1));
        }
      }
    }
  }

  /** No white space at either end. */
  predicate Tidy(us: seq<Unit>) {
    us == [] || (!IsSpace(us[0]) && !IsSpace(us[|us| - 1]))
  }

  /** Only white space is cut off, and all there is at either end. */
  lemma {:induction false} Trimmed(us: seq<Unit>) returns (a: nat, b: nat)
    ensures a <= b <= |us| && Trim(us) == us[a..b] && Tidy(Trim(us))
    ensures forall i :: 0 <= i < a || b <= i < |us| ==> IsSpace(us[i])
    decreases |us|
  {
    a, b := 0, |us|;
    if us != [] {
      if IsSpace(us[0]) {
        var c, d := Trimmed(us[1..]);
        a, b := c + 1, d + 1;
        assert us[1..][c..d] == us[a..b];
        assert forall i :: 1 <= i < |us| ==> us[i] == us[1..][i - 1];
      } else if IsSpace(us[|us| - 1]) {
        var front := us[..|us| - 1];
        a, b := Trimmed(front);
        assert front[a..b] == us[a..b];
        assert forall i :: 0 <= i < |front| ==> us[i] == front[i];
      } else {
        assert us[0..|us|] == us;
      }
    }
  }

  /** The text of a value: its units before the first NUL, without the white space at
      either end. n counts those units, and the text is those from a to b. */
  lemma TextIs(v: seq<Octet>) returns (a: nat, b: nat, n: nat)
    ensures a <= b <= n && 2 * n <= |v| && (2 * n + 2 <= |v| ==> U16(v, 2 * n) == 0)
    ensures forall i :: 0 <= i < n ==> U16(v, 2 * i) != 0
    ensures forall i :: 0 <= i < a || b <= i < n ==> IsSpace(U16(v, 2 * i))
    ensures |TextOf(v)| == b - a && (forall i :: 0 <= i < b - a ==> TextOf(v)[i] == U16(v, 2 * (a + i))) && Tidy(TextOf(v))
  {
    BeforeNul(v, 0);
    var us := UpToNul(v, 0);
    n := |us|;
    a, b := Trimmed(us);
    UnitsAre(v, us, a, b);
  }

  lemma UnitsAre(v: seq<Octet>, us: seq<Unit>, a: nat, b: nat)
    requires 2 * |us| <= |v| && a <= b <= |us| && forall i :: 0 <= i < |us| ==> us[i] == U16(v, 0 + 2 * i) != 0
    requires forall i :: 0 <= i < a || b <= i < |us| ==> IsSpace(us[i])
    ensures forall i :: 0 <= i < |us| ==> U16(v, 2 * i) != 0
    ensures forall i :: 0 <= i < a || b <= i < |us| ==> IsSpace(U16(v, 2 * i))
    ensures |us[a..b]| == b - a && forall i :: 0 <= i < b - a ==> us[a..b][i] == U16(v, 2 * (a + i))
  {
    forall i | 0 <= i < |us|
      ensures us[i] == U16(v, 2 * i) != 0
    {
    }
  }

  /** A text that was stored, and a terminator behind it, is read back. */
  lemma {:induction false} StoredUnits(v: seq<Octet>, at: nat, us: seq<Unit>)
    requires Holds(v, at, Units(us) + [0, 0]) && 0 !in us
    ensures UpToNul(v, at) == us
    decreases |us|
  {
    if us == [] {
      assert Units(us) + [0, 0] == Bytes16(0);
      WordAt(v, at, 0);
    } else {
      assert Units(us) + [0, 0] == Bytes16(us[0]) + (Units(us[1..]) + [0, 0]);
      HoldsSplit(v, at, Bytes16(us[0]), Units(us[1..]) + [0, 0]);
      WordAt(v, at, us[0]);
      StoredUnits(v, at + 2, us[1..]);
      assert us == [us[0]] + us[1..];
    }
  }

  lemma StoredText(us: seq<Unit>)
    requires 0 !in us && Tidy(us)
    ensures TextOf(Units(us) + [0, 0]) == us
  {
    var v := Units(us) + [0, 0];
    assert v[0..0 + |v|] == v;
    StoredUnits(v, 0, us);
  }

  // ------------------------------------------------- which table, and what names it

  function HexDigit(u: Unit): nat {
    if 48 <= u <= 57 then u - 48 else if 97 <= u <= 102 then u - 87 else 16
  }

  /** Four digits, read as a number in base sixteen. */
  function HexValue(us: seq<Unit>): nat
    requires |us| == 4
  {
    ((HexDigit(us[0]) * 16 + HexDigit(us[1])) * 16 + HexDigit(us[2])) * 16 + HexDigit(us[3])
  }

  lemma HexOf(u: Unit)
    ensures HexValue(Hex4(u)) == u && forall i :: 0 <= i < 4 ==> HexDigit(Hex4(u)[i]) < 16
  {
    var a, b, c, d := u / 4096, u / 256 % 16, u / 16 % 16, u % 16;
    DigitOf(a);
    DigitOf(b);
    DigitOf(c);
    DigitOf(d);
    FourDigits(u);
  }

  lemma DigitOf(n: nat)
    requires n < 16
    ensures HexDigit(Hex1(n)) == n
  {
  }

  lemma FourDigits(u: Unit)
    ensures u == ((u / 4096 * 16 + u / 256 % 16) * 16 + u / 16 % 16) * 16 + u % 16
  {
    assert u / 256 / 16 == u / 4096 && u / 16 / 16 == u / 256;
  }

  /** A child of a VarFileInfo block that holds a translation. */
  predicate Usable(n: Node) {
    n.key == Text("Translation") && 4 <= |n.value|
  }

  /** Two words in four digits each: the first word of a value, and then the second. */
  predicate Names2(tr: seq<Unit>, value: seq<Octet>) {
    |tr| == 8 && 4 <= |value| && HexValue(tr[..4]) == U16(value, 0) && HexValue(tr[4..]) == U16(value, 2)
  }

  /** The first translation of a block. */
  predicate FirstAt(vs: seq<Node>, k: nat) {
    k < |vs| && Usable(vs[k]) && forall j :: 0 <= j < k ==> !Usable(vs[j])
  }

  predicate NoneUsable(vs: seq<Node>) {
    forall i :: 0 <= i < |vs| ==> !Usable(vs[i])
  }

  lemma {:induction false} FirstTranslationIs(vs: seq<Node>)
    ensures NoneUsable(vs) ==> FirstTranslation(vs) == []
    ensures !NoneUsable(vs) ==> FirstTranslation(vs) != []
    ensures forall k: nat :: FirstAt(vs, k) ==> Names2(FirstTranslation(vs), vs[k].value)
    decreases |vs|
  {
    if vs != [] {
      if Usable(vs[0]) {
        var a, b := U16(vs[0].value, 0), U16(vs[0].value, 2);
        HexOf(a);
        HexOf(b);
        assert (Hex4(a) + Hex4(b))[..4] == Hex4(a) && (Hex4(a) + Hex4(b))[4..] == Hex4(b);
      } else {
        FirstTranslationIs(vs[1..]);
        assert forall i :: 1 <= i < |vs| ==> vs[i] == vs[1..][i - 1];
        forall k: nat | FirstAt(vs, k)
          ensures FirstAt(vs[1..], k - 1)
        {
          assert forall j :: 0 <= j < k - 1 ==> vs[1..][j] == vs[j + 1];
        }
      }
    }
  }

  predicate HasTranslation(c: Node) {
    c.key == Text("VarFileInfo") && !NoneUsable(c.children)
  }

  /** The first block with a translation. */
  predicate FirstBlock(cs: seq<Node>, i: nat) {
    i < |cs| && HasTranslation(cs[i]) && forall h :: 0 <= h < i ==> !HasTranslation(cs[h])
  }

  /** The translation is the first one of the first VarFileInfo block that has any, its
      two words in order, and empty without one. */
  lemma {:induction false} TranslationIs(cs: seq<Node>)
    ensures (forall i :: 0 <= i < |cs| ==> !HasTranslation(cs[i])) ==> Translation(cs) == []
    ensures forall i: nat, k: nat :: FirstBlock(cs, i) && FirstAt(cs[i].children, k) ==> Names2(Translation(cs), cs[i].children[k].value)
    decreases |cs|
  {
    if cs != [] {
      FirstTranslationIs(cs[0].children);
      TranslationIs(cs[1..]);
      assert forall i :: 1 <= i < |cs| ==> cs[i] == cs[1..][i - 1];
      forall i: nat | FirstBlock(cs, i) && 0 < i
        ensures FirstBlock(cs[1..], i - 1)
      {
        assert forall h :: 0 <= h < i - 1 ==> cs[1..][h] == cs[h + 1];
      }
    }
  }

  /** The string tables are those of every StringFileInfo block, in order. */
  lemma {:induction false} TablesAre(a: seq<Node>, c: Node, b: seq<Node>)
    ensures Tables(a + [c] + b) == Tables(a) + (if c.key == Text("StringFileInfo") then c.children else []) + Tables(b)
    decreases |a|
  {
    var all := a + [c] + b;
    if a == [] {
      assert all[0] == c && all[1..] == b && Tables(a) == [];
      assert [] + (if c.key == Text("StringFileInfo") then c.children else []) == if c.key == Text("StringFileInfo") then c.children else [];
    } else {
      TablesAre(a[1..], c, b);
      assert all[0] == a[0] && all[1..] == a[1..] + [c] + b;
      var x, y, z, u := if a[0].key == Text("StringFileInfo") then a[0].children else [], Tables(a[1..]),
        if c.key == Text("StringFileInfo") then c.children else [], Tables(b);
      assert x + (y + z + u) == x + y + z + u;
    }
  }

  /** A key matches a translation letter by letter, in either case. */
  lemma FoldsExactly(tr: seq<Unit>, key: seq<Unit>)
    requires forall i :: 0 <= i < |tr| ==> !(65 <= tr[i] <= 90)
    ensures SameFold(key, tr) <==>
              |key| == |tr| && forall i :: 0 <= i < |tr| ==> key[i] == tr[i] || (97 <= tr[i] <= 122 && key[i] == tr[i] - 32)
  {
    if |key| == |tr| {
      forall i | 0 <= i < |tr|
        ensures Fold(key[i]) == Fold(tr[i]) <==> key[i] == tr[i] || (97 <= tr[i] <= 122 && key[i] == tr[i] - 32)
      {
      }
    }
  }

  // ---------------------------------------------------------- from bytes to names

  /** Whatever tree is stored, its bytes say what the chosen table's Strings do. */
  lemma StoredSays(root: Node)
    requires Storable(root) && |Encode(root)| < 0x1_0000
    requires root.key == Text("VS_VERSION_INFO") && Tables(root.children) != []
    ensures Parsed(Encode(root)).Some?
    ensures var tables := Tables(root.children);
            Says(Parsed(Encode(root)).value, tables[ChosenAt(tables, Translation(root.children))].children)
  {
    RoundTrip(root);
    var tables := Tables(root.children);
    NamesSay(tables[ChosenAt(tables, Translation(root.children))].children);
  }

  function Spelled(key: string, us: seq<Unit>): Node {
    Node(Text(key), Units(us) + [0, 0], true, [])
  }

  /** An ordinary resource: one table under any key, the two names, and a translation. */
  function Resource(fixed: seq<Octet>, key: seq<Unit>, words: seq<Octet>, description: seq<Unit>, original: seq<Unit>): Node {
    Node(Text("VS_VERSION_INFO"), fixed, false,
         [Node(Text("StringFileInfo"), [], false,
               [Node(key, [], false, [Spelled("FileDescription", description), Spelled("OriginalFilename", original)])]),
          Node(Text("VarFileInfo"), [], false, [Node(Text("Translation"), words, false, [])])])
  }

  lemma OneTable(fixed: seq<Octet>, key: seq<Unit>, words: seq<Octet>, description: seq<Unit>, original: seq<Unit>)
    ensures Tables(Resource(fixed, key, words, description, original).children) ==
            [Node(key, [], false, [Spelled("FileDescription", description), Spelled("OriginalFilename", original)])]
  {
    var cs := Resource(fixed, key, words, description, original).children;
    KeysDiffer();
    TablesAre([], cs[0], [cs[1]]);
    TablesAre([], cs[1], []);
    assert [] + [cs[0]] + [cs[1]] == cs && [] + [cs[1]] + [] == [cs[1]];
    assert Tables([]) == [];
  }

  /** The two texts stored in it are the two names read from its bytes. */
  lemma StoredNames(fixed: seq<Octet>, key: seq<Unit>, words: seq<Octet>, description: seq<Unit>, original: seq<Unit>)
    requires 0 !in description && Tidy(description) && 0 !in original && Tidy(original)
    requires var root := Resource(fixed, key, words, description, original); Storable(root) && |Encode(root)| < 0x1_0000
    ensures Parsed(Encode(Resource(fixed, key, words, description, original))) == Some(Version(description, original))
  {
    StoredSays(Resource(fixed, key, words, description, original));
    OneTable(fixed, key, words, description, original);
    TwoStrings(Parsed(Encode(Resource(fixed, key, words, description, original))).value, description, original);
  }

  lemma TwoStrings(v: Version, description: seq<Unit>, original: seq<Unit>)
    requires 0 !in description && Tidy(description) && 0 !in original && Tidy(original)
    requires Says(v, [Spelled("FileDescription", description), Spelled("OriginalFilename", original)])
    ensures v == Version(description, original)
  {
    var ss := [Spelled("FileDescription", description), Spelled("OriginalFilename", original)];
    NamesApart();
    assert LastOf(ss, Text("FileDescription"), 0) && LastOf(ss, Text("OriginalFilename"), 1);
    StoredText(description);
    StoredText(original);
  }

  // A resource with no translation and a second table whose key is empty.

  const FIRST := Node([48], [], false, [Node(Text("FileDescription"), [65, 0], true, [])])
  const SECOND := Node([], [], false, [Node(Text("FileDescription"), [66, 0], true, [])])
  const INFO := Node(Text("StringFileInfo"), [], false, [FIRST, SECOND])
  const UNTRANSLATED := Node(Text("VS_VERSION_INFO"), [], false, [INFO])

  /** A block with one child is not much longer than the child. */
  lemma OneChildFits(n: Node, c: Node)
    requires n.children == [c] && n.value == []
    ensures |Encode(n)| < |Encode(c)| + 2 * |n.key| + 16
  {
    EncodeLength(n);
    EncodeAllOne(c);
  }

  lemma OneChildStorable(n: Node, c: Node)
    requires n.children == [c] && 0 !in n.key && n.value == [] && Storable(c)
    ensures Storable(n)
  {
  }

  lemma KeysStorable()
    ensures 0 !in Text("FileDescription") && 0 !in Text("StringFileInfo") && 0 !in Text("VS_VERSION_INFO")
  {
  }

  lemma TablesFit()
    ensures |Encode(FIRST)| < 200 && |Encode(SECOND)| < 200 && Storable(FIRST) && Storable(SECOND)
  {
    KeysStorable();
    EncodeLength(FIRST.children[0]);
    EncodeLength(SECOND.children[0]);
    OneChildFits(FIRST, FIRST.children[0]);
    OneChildFits(SECOND, SECOND.children[0]);
  }

  lemma InfoFits()
    ensures Storable(INFO) && |Encode(INFO)| < 1000
  {
    KeysStorable();
    TablesFit();
    TwoChildrenFit(INFO, FIRST, SECOND);
    TwoChildrenStorable(INFO, FIRST, SECOND);
  }

  lemma TwoChildrenFit(n: Node, a: Node, b: Node)
    requires n.children == [a, b] && n.value == []
    ensures |Encode(n)| < |Encode(a)| + |Encode(b)| + 2 * |n.key| + 24
  {
    EncodeLength(n);
    assert [a, b][1..] == [b];
    EncodeAllOne(b);
  }

  lemma TwoChildrenStorable(n: Node, a: Node, b: Node)
    requires n.children == [a, b] && 0 !in n.key && n.value == [] && Storable(a) && Storable(b)
    ensures Storable(n)
  {
  }

  lemma UntranslatedFits()
    ensures Storable(UNTRANSLATED) && |Encode(UNTRANSLATED)| < 0x1_0000
  {
    KeysStorable();
    InfoFits();
    OneChildFits(UNTRANSLATED, INFO);
    OneChildStorable(UNTRANSLATED, INFO);
  }

  lemma EncodeAllOne(n: Node)
    ensures EncodeAll([n]) == Encode(n) + Pad(|Encode(n)|)
  {
    assert [n][1..] == [];
    assert EncodeAll([]) == [];
  }

  /** It is read from its second table, though its translation names none. */
  lemma SecondTableIsRead()
    ensures ReadTree(Encode(UNTRANSLATED)) == Some(UNTRANSLATED)
    ensures Translation(UNTRANSLATED.children) == [] && Tables(UNTRANSLATED.children) == [FIRST, SECOND]
    ensures ChosenAt([FIRST, SECOND], []) == 1
  {
    UntranslatedFits();
    RoundTrip(UNTRANSLATED);
    KeysDiffer();
    assert UNTRANSLATED.children[1..] == [];
    SecondMatches();
  }

  lemma SecondMatches()
    ensures FirstMatch([FIRST, SECOND], []) == 1
  {
    assert !SameFold(FIRST.key, []) && SameFold(SECOND.key, []);
    assert [FIRST, SECOND][1..] == [SECOND];
    assert FirstMatch([SECOND], []) == 0;
  }
}
