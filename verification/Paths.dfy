/** Path identity (pathidentity.go:98-130, 165-232) over an abstract file system
    with links, as on unix: Lstat tells what exists, EvalSymlinks resolves links,
    and a file's key is its device and inode. A path is the names below the root;
    making it absolute and clean is lexical and not part of this model. */
module Paths {
  import opened Options

  /** A step of a path: stay, go up, or take the entry of that name. */
  datatype Name = Here | Up | Named(text: string)

  type Path = seq<Name>

  datatype Entry = Folder(id: nat) | File(id: nat) | Link(absolute: bool, target: Path)

  /** Every entry by its real location, which passes through no link. */
  type Files = map<Path, Entry>

  const MAX_LINKS := 255

  ghost predicate WellFormed(fs: Files) {
    && [] in fs && fs[[]].Folder?
    && (forall p :: p in fs && p != [] ==> p[..|p| - 1] in fs && fs[p[..|p| - 1]].Folder?)
    && (forall p :: p in fs ==> Clean(p))
  }

  /** A path without steps that stay or go up, as a cleaned path and every real
      location are; a link's target may have them. */
  predicate Clean(p: Path) {
    forall i :: 0 <= i < |p| ==> p[i].Named?
  }

  function Dir(p: Path): (d: Path) {
    if p == [] then p else p[..|p| - 1]
  }

  /** The real location of `rest` below the folder `at`, following at most `fuel` links. */
  function Walk(fs: Files, at: Path, rest: Path, fuel: nat): (r: Option<Path>)
    requires at in fs
    ensures r.Some? ==> r.value in fs
    decreases fuel, |rest|
  {
    if rest == [] then Some(at)
    else
      var next := at + [rest[0]];
      if !fs[at].Folder? then None
      else if rest[0].Here? then Walk(fs, at, rest[1..], fuel)
      else if rest[0].Up? then
        if Dir(at) in fs then Walk(fs, Dir(at), rest[1..], fuel) else None
      else if next !in fs then None
      else match fs[next]
        case Link(absolute, target) =>
          if fuel == 0 || [] !in fs then None else Walk(fs, if absolute then [] else at, target + rest[1..], fuel - 1)
        case _ => Walk(fs, next, rest[1..], fuel)
  }

  function Resolve(fs: Files, p: Path): (r: Option<Path>)
    ensures r.Some? ==> r.value in fs
  {
    if [] in fs then Walk(fs, [], p, MAX_LINKS) else None
  }

  /** pathExists: the folder above it can be read and has an entry of that name. */
  predicate Exists(fs: Files, p: Path) {
    if p == [] then [] in fs
    else
      var d := Resolve(fs, Dir(p));
      d.Some? && fs[d.value].Folder? && d.value + [p[|p| - 1]] in fs
  }

  /** fileKey: the identity of what a path leads to. */
  function Key(fs: Files, p: Path): Option<nat> {
    var r := Resolve(fs, p);
    if r.None? || fs[r.value].Link? then None else Some(fs[r.value].id)
  }

  lemma UpPrefixes(p: Path)
    ensures p[..|p|] == p && forall j :: 0 <= j <= |Dir(p)| ==> p[..j] == Dir(p)[..j]
  {
  }

  /** How many names of a path its deepest existing ancestor has, itself included. */
  function Deepest(fs: Files, p: Path): (k: nat)
    ensures k <= |p| && (0 < k ==> Exists(fs, p[..k]))
    ensures forall j :: k < j <= |p| ==> !Exists(fs, p[..j])
    decreases |p|
  {
    UpPrefixes(p);
    if p == [] then 0 else if Exists(fs, p) then |p| else Deepest(fs, Dir(p))
  }

  /** What resolveExisting answers: the real location of the deepest existing part,
      and the rest as it was written. */
  function Resolved(fs: Files, p: Path, self: bool): Option<Path> {
    var k := Deepest(fs, if self then p else Dir(p));
    var r := Resolve(fs, p[..k]);
    if r.None? then None else Some(r.value + p[k..])
  }

  lemma OneUp(p: Path, k: nat)
    requires 0 < k <= |p|
    ensures Dir(p[..k]) == p[..k - 1] && [p[..k][k - 1]] + p[k..] == p[k - 1..]
  {
  }

  /** The loop of resolveExisting: up from `from` names to the first part that
      exists; it fails where not even the root does. */
  method Climb(fs: Files, p: Path, from: nat) returns (existing: Path, rest: Path, ok: bool)
    requires from <= |p|
    ensures ok <==> [] in fs
    ensures ok ==> var k := Deepest(fs, p[..from]); k <= |p| && existing == p[..k] && rest == p[k..]
  {
    existing, rest := p[..from], p[from..];
    var here := Exists(fs, existing);
    while !here
      invariant |existing| <= from && existing == p[..|existing|] && rest == p[|existing|..]
      invariant here == Exists(fs, existing) && Deepest(fs, p[..from]) == Deepest(fs, existing)
      decreases |existing|, !here
    {
      if Dir(existing) == existing {
        return existing, rest, false;
      }
      OneUp(p, |existing|);
      rest := [existing[|existing| - 1]] + rest;
      existing := Dir(existing);
      here := Exists(fs, existing);
    }
    ok := true;
  }

  method ResolveExisting(fs: Files, p: Path, self: bool) returns (r: Option<Path>)
    ensures r == Resolved(fs, p, self)
  {
    assert p[..|p|] == p;
    var existing, rest, ok := Climb(fs, p, if self || Dir(p) == p then |p| else |p| - 1);
    if !ok {
      return None;
    }
    var found := Resolve(fs, existing);
    if found.None? {
      return None;
    }
    if rest == [] {
      assert found.value + [] == found.value;
      return found;
    }
    r := Some(found.value + rest);
  }

  datatype Answer = Inside(rel: Path) | Outside | Failed

  /** Some folder strictly above the path has this identity, and k names the nearest. */
  predicate Nearest(fs: Files, p: Path, target: nat, k: nat) {
    && k < |p| && Key(fs, p[..k]) == Some(target)
    && forall j :: k < j < |p| ==> Key(fs, p[..j]) != Some(target)
  }

  /** A remainder leads down from the nearest ancestor with this identity. */
  predicate Remainder(fs: Files, p: Path, target: nat, rel: Path) {
    0 < |rel| <= |p| && rel == p[|p| - |rel|..] && Nearest(fs, p, target, |p| - |rel|)
  }

  ghost predicate NoneAbove(fs: Files, p: Path, target: nat) {
    forall k :: 0 <= k < |p| ==> Key(fs, p[..k]) != Some(target)
  }

  /** The loop of WithinRel: each folder above q is asked for its identity. */
  method FindAbove(fs: Files, q: Path, target: nat) returns (a: Answer)
    ensures !a.Failed?
    ensures a.Inside? ==> Remainder(fs, q, target, a.rel)
    ensures a.Outside? ==> NoneAbove(fs, q, target)
  {
    var p := Dir(q);
    while true
      invariant |p| <= |q| && p == q[..|p|] && (p == q ==> q == [])
      invariant forall j :: |p| < j < |q| ==> Key(fs, q[..j]) != Some(target)
      decreases |p|
    {
      if Key(fs, p) == Some(target) {
        var rel := q[|p|..];
        return if rel == [] then Outside else Inside(rel);
      }
      if Dir(p) == p {
        return Outside;
      }
      p := Dir(p);
    }
  }

  /** A tree in which the folder is there, and the one above the path. */
  ghost predicate Asked(fs: Files, path: Path, folder: Path) {
    && WellFormed(fs) && OneLocation(fs) && Clean(path) && path != []
    && Resolve(fs, folder).Some? && fs[Resolve(fs, folder).value].Folder? && Resolve(fs, Dir(path)).Some?
  }

  /** Whether the folder lies on the way to the path's own, and the way from there: the
      path's last name stays as it is written, link or not. */
  function TreeAnswer(fs: Files, path: Path, folder: Path): Answer
    requires path != [] && Resolve(fs, folder).Some? && Resolve(fs, Dir(path)).Some?
  {
    var home, above := Resolve(fs, folder).value, Resolve(fs, Dir(path)).value;
    if home <= above then Inside(above[|home|..] + [path[|path| - 1]]) else Outside
  }

  /** What WithinRel asks of the file system, whatever that is. */
  ghost predicate Answers(fs: Files, path: Path, folder: Path, local: bool, a: Answer) {
    && (a.Failed? <==> !local || Key(fs, folder).None? || Resolved(fs, path, false).None?)
    && (a.Inside? ==> Remainder(fs, Resolved(fs, path, false).value, Key(fs, folder).value, a.rel))
    && (a.Outside? ==> NoneAbove(fs, Resolved(fs, path, false).value, Key(fs, folder).value))
  }

  /** WithinRel. `local` says neither path was refused. */
  method WithinRel(fs: Files, path: Path, folder: Path, local: bool) returns (a: Answer)
    ensures Answers(fs, path, folder, local, a)
    ensures local && Asked(fs, path, folder) ==> a == TreeAnswer(fs, path, folder)
  {
    a := AskAll(fs, path, folder, local);
    if local && Asked(fs, path, folder) {
      AnswerIsTree(fs, path, folder, a);
    }
  }

  method AskAll(fs: Files, path: Path, folder: Path, local: bool) returns (a: Answer)
    ensures Answers(fs, path, folder, local, a)
  {
    var target := Key(fs, folder);
    if !local || target.None? {
      return Failed;
    }
    var resolved := ResolveExisting(fs, path, false);
    if resolved.None? {
      return Failed;
    }
    a := FindAbove(fs, resolved.value, target.value);
  }

  // ------------------------------------------------------ what they mean

  /** A real location leads to itself. */
  lemma {:induction false} RealLeadsToItself(fs: Files, p: Path, k: nat, fuel: nat)
    requires WellFormed(fs) && p in fs && !fs[p].Link? && k <= |p|
    requires p[..k] in fs && (k < |p| ==> fs[p[..k]].Folder?)
    ensures Walk(fs, p[..k], p[k..], fuel) == Some(p)
    decreases |p| - k
  {
    if k == |p| {
      assert p[..k] == p;
    } else {
      AncestorIsFolder(fs, p, k + 1);
      assert p[..k] + [p[k..][0]] == p[..k + 1] && p[k..][1..] == p[k + 1..];
      if k + 1 == |p| {
        assert p[..k + 1] == p;
      }
      RealLeadsToItself(fs, p, k + 1, fuel);
    }
  }

  lemma {:induction false} AncestorIsFolder(fs: Files, p: Path, k: nat)
    requires WellFormed(fs) && p in fs && k <= |p|
    ensures p[..k] in fs && (k < |p| ==> fs[p[..k]].Folder?)
    decreases |p| - k
  {
    if k == |p| {
      assert p[..k] == p;
    } else {
      AncestorIsFolder(fs, p, k + 1);
      assert p[..k + 1][..|p[..k + 1]| - 1] == p[..k];
    }
  }

  /** Walking on from where a walk arrives is walking all the way, while links are left. */
  lemma {:induction false} WalkOn(fs: Files, at: Path, rest: Path, more: Path, fuel: nat, r: Path) returns (left: nat)
    requires at in fs && Walk(fs, at, rest, fuel) == Some(r)
    ensures left <= fuel && Walk(fs, at, rest + more, fuel) == Walk(fs, r, more, left)
    decreases fuel, |rest|
  {
    if rest == [] {
      assert rest + more == more;
      left := fuel;
    } else {
      var next := at + [rest[0]];
      assert (rest + more)[0] == rest[0] && (rest + more)[1..] == rest[1..] + more;
      if !rest[0].Named? {
        left := WalkOn(fs, if rest[0].Here? then at else Dir(at), rest[1..], more, fuel, r);
        return;
      }
      match fs[next]
      case Link(absolute, target) =>
        assert target + (rest[1..] + more) == target + rest[1..] + more;
        left := WalkOn(fs, if absolute then [] else at, target + rest[1..], more, fuel - 1, r);
      case _ =>
        left := WalkOn(fs, next, rest[1..], more, fuel, r);
    }
  }

  lemma {:induction false} RealKey(fs: Files, p: Path)
    requires WellFormed(fs) && p in fs && !fs[p].Link?
    ensures Resolve(fs, p) == Some(p) && Key(fs, p) == Some(fs[p].id)
  {
    assert p[..0] == [] && p[0..] == p;
    RealLeadsToItself(fs, p, 0, MAX_LINKS);
  }

  /** What a resolved path leads to is not a link. */
  lemma {:induction false} WalkEndsAtNoLink(fs: Files, at: Path, rest: Path, fuel: nat)
    requires WellFormed(fs) && at in fs && !fs[at].Link?
    ensures Walk(fs, at, rest, fuel).Some? ==> !fs[Walk(fs, at, rest, fuel).value].Link?
    decreases fuel, |rest|
  {
    if rest != [] && fs[at].Folder? && !rest[0].Named? {
      WalkEndsAtNoLink(fs, if rest[0].Here? then at else Dir(at), rest[1..], fuel);
    } else if rest != [] && fs[at].Folder? && at + [rest[0]] in fs {
      match fs[at + [rest[0]]]
      case Link(absolute, target) =>
        if 0 < fuel {
          WalkEndsAtNoLink(fs, if absolute then [] else at, target + rest[1..], fuel - 1);
        }
      case _ => WalkEndsAtNoLink(fs, at + [rest[0]], rest[1..], fuel);
    }
  }

  /** Below the deepest existing part of a path nothing has a key. */
  lemma {:induction false} BelowIsMissing(fs: Files, found: Path, more: Path)
    requires WellFormed(fs) && found in fs && !fs[found].Link? && more != [] && Clean(more)
    requires !(fs[found].Folder? && found + [more[0]] in fs)
    ensures Resolve(fs, found + more).None?
  {
    RealKey(fs, found);
    var left := WalkOn(fs, [], found, more, MAX_LINKS, found);
  }

  /** A folder has one real location. */
  ghost predicate OneLocation(fs: Files) {
    forall p, q :: p in fs && q in fs && fs[p].Folder? && !fs[q].Link? && fs[p].id == fs[q].id ==> p == q
  }

  lemma {:induction false} ExistingPart(fs: Files, p: Path, k: nat, found: Path)
    requires WellFormed(fs) && k <= |p| && Resolve(fs, p[..k]) == Some(found)
    ensures found in fs && !fs[found].Link?
    ensures k < |p| ==> (Exists(fs, p[..k + 1]) <==> fs[found].Folder? && found + [p[k]] in fs)
  {
    WalkEndsAtNoLink(fs, [], p[..k], MAX_LINKS);
    if k < |p| {
      OneUp(p, k + 1);
    }
  }

  /** The j names of a resolved path that come after the part that exists lead nowhere. */
  lemma {:induction false} RestIsMissing(fs: Files, found: Path, more: Path)
    requires WellFormed(fs) && found in fs && !fs[found].Link? && more != [] && Clean(more)
    requires !(fs[found].Folder? && found + [more[0]] in fs)
    ensures Key(fs, found + more).None? && found + more !in fs
  {
    BelowIsMissing(fs, found, more);
    assert (found + more)[..|found| + 1] == found + [more[0]] && (found + more)[..|found|] == found;
    if found + more in fs {
      AncestorIsFolder(fs, found + more, |found|);
      AncestorIsFolder(fs, found + more, |found| + 1);
    }
  }

  /** An ancestor of a resolved path has a folder's identity exactly when it is
      that folder's one real location. So WithinRel answers true exactly when the
      path lies below the folder in the tree without links, and its remainder is
      the way there. */
  lemma {:induction false} AncestorsByIdentity(fs: Files, path: Path, folder: Path, home: Path, j: nat)
    requires WellFormed(fs) && OneLocation(fs) && Clean(path) && Resolve(fs, folder) == Some(home) && fs[home].Folder?
    requires Resolved(fs, path, false).Some? && j < |Resolved(fs, path, false).value|
    ensures var r := Resolved(fs, path, false).value; Key(fs, r[..j]) == Key(fs, folder) <==> r[..j] == home
  {
    var k := Deepest(fs, Dir(path));
    UpPrefixes(path);
    var found := Resolve(fs, path[..k]).value;
    ExistingPart(fs, path, k, found);
    FolderKey(fs, folder, home);
    if j <= |found| {
      assert (found + path[k..])[..j] == found[..j];
      AncestorIsReal(fs, found, j);
      OneIdentity(fs, found[..j], home);
    } else {
      MissingPart(fs, path, k, found, j);
    }
  }

  lemma OneIdentity(fs: Files, p: Path, home: Path)
    requires OneLocation(fs) && p in fs && !fs[p].Link? && home in fs && fs[home].Folder?
    ensures fs[p].id == fs[home].id <==> p == home
  {
  }

  lemma MissingPart(fs: Files, path: Path, k: nat, found: Path, j: nat)
    requires WellFormed(fs) && Clean(path) && k < |path| && found in fs && !fs[found].Link?
    requires !(fs[found].Folder? && found + [path[k]] in fs) && |found| < j <= |found + path[k..]|
    ensures Key(fs, (found + path[k..])[..j]).None? && (found + path[k..])[..j] !in fs
  {
    var more := path[k..][..j - |found|];
    assert (found + path[k..])[..j] == found + more && more[0] == path[k];
    RestIsMissing(fs, found, more);
  }

  lemma AncestorIsReal(fs: Files, p: Path, j: nat)
    requires WellFormed(fs) && p in fs && !fs[p].Link? && j <= |p|
    ensures p[..j] in fs && !fs[p[..j]].Link? && Key(fs, p[..j]) == Some(fs[p[..j]].id)
  {
    AncestorIsFolder(fs, p, j);
    assert j == |p| ==> p[..j] == p;
    RealKey(fs, p[..j]);
  }

  // ----------------------------------------------------- what resolving comes to

  /** What leads on leads there. */
  lemma {:induction false} WalkFront(fs: Files, at: Path, rest: Path, more: Path, fuel: nat)
    requires at in fs && Walk(fs, at, rest + more, fuel).Some?
    ensures Walk(fs, at, rest, fuel).Some?
    decreases fuel, |rest|
  {
    if rest != [] {
      var next := at + [rest[0]];
      assert (rest + more)[0] == rest[0] && (rest + more)[1..] == rest[1..] + more;
      if !rest[0].Named? {
        WalkFront(fs, if rest[0].Here? then at else Dir(at), rest[1..], more, fuel);
        return;
      }
      match fs[next]
      case Link(absolute, target) =>
        assert target + (rest[1..] + more) == target + rest[1..] + more;
        WalkFront(fs, if absolute then [] else at, target + rest[1..], more, fuel - 1);
      case _ =>
        WalkFront(fs, next, rest[1..], more, fuel);
    }
  }

  lemma LastStep(p: Path)
    requires p != []
    ensures p == Dir(p) + [p[|p| - 1]]
  {
  }

  /** A path that resolves exists. */
  lemma ResolvesExists(fs: Files, p: Path)
    requires Clean(p) && Resolve(fs, p).Some?
    ensures Exists(fs, p)
  {
    if p != [] {
      var n := p[|p| - 1];
      LastStep(p);
      WalkFront(fs, [], Dir(p), [n], MAX_LINKS);
      var left := WalkOn(fs, [], Dir(p), [n], MAX_LINKS, Resolve(fs, Dir(p)).value);
      assert [n][0] == n;
    }
  }

  /** Every entry exists, a link that leads nowhere too. */
  lemma RealExists(fs: Files, p: Path)
    requires WellFormed(fs) && p in fs
    ensures Exists(fs, p)
  {
    if p != [] {
      LastStep(p);
      RealKey(fs, Dir(p));
    }
  }

  /** With the deepest existing part known: its real location, and the rest as written. */
  lemma ResolvedIs(fs: Files, p: Path, self: bool, k: nat)
    requires k <= |if self then p else Dir(p)| && (0 < k ==> Exists(fs, p[..k]))
    requires forall j :: k < j <= |if self then p else Dir(p)| ==> !Exists(fs, p[..j])
    ensures Resolved(fs, p, self) == match Resolve(fs, p[..k]) case None => None case Some(d) => Some(d + p[k..])
  {
    var q := if self then p else Dir(p);
    assert q[..k] == p[..k];
    forall j | k < j <= |q|
      ensures !Exists(fs, q[..j])
    {
      assert q[..j] == p[..j];
    }
    DeepestOnly(fs, q, k);
  }

  /** The deepest existing part is that one. */
  lemma DeepestOnly(fs: Files, q: Path, k: nat)
    requires k <= |q| && (0 < k ==> Exists(fs, q[..k])) && forall j :: k < j <= |q| ==> !Exists(fs, q[..j])
    ensures Deepest(fs, q) == k
  {
    var d := Deepest(fs, q);
    assert 0 < d ==> Exists(fs, q[..d]);
  }

  /** The last name is never followed where only the folders above are asked for. */
  lemma LastNameKept(fs: Files, p: Path)
    requires p != [] && Resolved(fs, p, false).Some?
    ensures var r := Resolved(fs, p, false).value; r != [] && r[|r| - 1] == p[|p| - 1]
  {
  }

  /** Where the folder above resolves, its real location and that name are the answer. */
  lemma ParentResolved(fs: Files, p: Path)
    requires p != [] && Clean(p) && Resolve(fs, Dir(p)).Some?
    ensures Resolved(fs, p, false) == Some(Resolve(fs, Dir(p)).value + [p[|p| - 1]])
  {
    var k := |p| - 1;
    assert p[..k] == Dir(p) && p[k..] == [p[k]];
    ResolvesExists(fs, Dir(p));
    ResolvedIs(fs, p, false, k);
  }

  /** And with `self`, a path that resolves is resolved through its own link too. */
  lemma SelfResolved(fs: Files, p: Path)
    requires Clean(p) && Resolve(fs, p).Some?
    ensures Resolved(fs, p, true) == Resolve(fs, p)
  {
    assert p[..|p|] == p && p[|p|..] == [];
    ResolvesExists(fs, p);
    ResolvedIs(fs, p, true, |p|);
    assert Resolve(fs, p).value + [] == Resolve(fs, p).value;
  }

  lemma AnswerIsTree(fs: Files, path: Path, folder: Path, a: Answer)
    requires Asked(fs, path, folder) && Answers(fs, path, folder, true, a)
    ensures a == TreeAnswer(fs, path, folder)
  {
    var home, above, n := Resolve(fs, folder).value, Resolve(fs, Dir(path)).value, path[|path| - 1];
    ParentResolved(fs, path);
    FolderKey(fs, folder, home);
    if a.Inside? {
      InsideIsBelow(fs, path, folder, home, above + [n], a.rel);
      BelowOf(above, n, home, a.rel);
    } else {
      OutsideIsApart(fs, above, n, home, fs[home].id);
    }
  }

  /** The identity of a folder is that of its real location. */
  lemma FolderKey(fs: Files, folder: Path, home: Path)
    requires WellFormed(fs) && Resolve(fs, folder) == Some(home) && fs[home].Folder?
    ensures Key(fs, folder) == Key(fs, home) == Some(fs[home].id)
  {
    RealKey(fs, home);
  }

  lemma InsideIsBelow(fs: Files, path: Path, folder: Path, home: Path, r: Path, rel: Path)
    requires WellFormed(fs) && OneLocation(fs) && Clean(path) && Resolve(fs, folder) == Some(home) && fs[home].Folder?
    requires Resolved(fs, path, false) == Some(r) && Key(fs, folder) == Some(fs[home].id) && Remainder(fs, r, fs[home].id, rel)
    ensures r == home + rel && rel != []
  {
    AncestorsByIdentity(fs, path, folder, home, |r| - |rel|);
    assert r == r[..|r| - |rel|] + rel;
  }

  lemma BelowOf(above: Path, n: Name, home: Path, rel: Path)
    requires above + [n] == home + rel && rel != []
    ensures home <= above && rel == above[|home|..] + [n]
  {
    assert (above + [n])[..|home|] == home && (above + [n])[|home|..] == rel;
    assert (above + [n])[..|home|] == above[..|home|];
  }

  lemma OutsideIsApart(fs: Files, above: Path, n: Name, home: Path, target: nat)
    requires Key(fs, home) == Some(target)
    ensures home <= above ==> !NoneAbove(fs, above + [n], target)
  {
    if home <= above {
      assert (above + [n])[..|home|] == home;
    }
  }

  // ------------------------------------------------------------------- links

  /** The k-th name of a real location leads from one folder to the next. */
  predicate Leads(fs: Files, d: Path, k: nat)
    requires k < |d|
  {
    d[k].Named? && d[..k] in fs && fs[d[..k]].Folder? && d[..k + 1] in fs && !fs[d[..k + 1]].Link?
  }

  ghost predicate RealWay(fs: Files, d: Path) {
    d in fs && forall k :: 0 <= k < |d| ==> Leads(fs, d, k)
  }

  lemma RealIsWay(fs: Files, d: Path)
    requires WellFormed(fs) && d in fs && !fs[d].Link?
    ensures RealWay(fs, d)
  {
    forall k | 0 <= k < |d|
      ensures Leads(fs, d, k)
    {
      AncestorIsFolder(fs, d, k);
      AncestorIsFolder(fs, d, k + 1);
      assert k + 1 == |d| ==> d[..k + 1] == d;
    }
  }

  lemma WalkStep(fs: Files, at: Path, n: Name, more: Path, fuel: nat)
    requires at in fs && fs[at].Folder? && n.Named? && at + [n] in fs && !fs[at + [n]].Link?
    ensures Walk(fs, at, [n] + more, fuel) == Walk(fs, at + [n], more, fuel)
  {
    assert ([n] + more)[0] == n && ([n] + more)[1..] == more;
  }

  /** Going down to a real location uses up no links. */
  lemma {:induction false} WalkReal(fs: Files, d: Path, k: nat, more: Path, fuel: nat)
    requires RealWay(fs, d) && k <= |d| && d[..k] in fs
    ensures Walk(fs, d[..k], d[k..] + more, fuel) == Walk(fs, d, more, fuel)
    decreases |d| - k
  {
    if k == |d| {
      assert d[..k] == d && d[k..] + more == more;
    } else {
      assert Leads(fs, d, k);
      assert d[..k] + [d[k]] == d[..k + 1] && d[k..] + more == [d[k]] + (d[k + 1..] + more);
      WalkStep(fs, d[..k], d[k], d[k + 1..] + more, fuel);
      WalkReal(fs, d, k + 1, more, fuel);
    }
  }

  lemma WalkFromRoot(fs: Files, d: Path, more: Path, fuel: nat)
    requires WellFormed(fs) && d in fs && !fs[d].Link?
    ensures Walk(fs, [], d + more, fuel) == Walk(fs, d, more, fuel)
  {
    RealIsWay(fs, d);
    assert d[..0] == [] && d[0..] == d;
    WalkReal(fs, d, 0, more, fuel);
  }

  /** A link stands for its target, from the root or from the folder it lies in, and
      costs one of the links that may be followed. */
  lemma FollowsLink(fs: Files, d: Path, n: Name, rest: Path, fuel: nat)
    requires WellFormed(fs) && d in fs && fs[d].Folder? && n.Named? && d + [n] in fs && fs[d + [n]].Link?
    ensures Walk(fs, [], d + ([n] + rest), 0).None?
    ensures var to := (if fs[d + [n]].absolute then [] else d) + (fs[d + [n]].target + rest);
            Walk(fs, [], d + ([n] + rest), fuel + 1) == Walk(fs, [], to, fuel)
  {
    var link := fs[d + [n]];
    assert ([n] + rest)[0] == n && ([n] + rest)[1..] == rest;
    WalkFromRoot(fs, d, [n] + rest, fuel + 1);
    WalkFromRoot(fs, d, [n] + rest, 0);
    WalkFromRoot(fs, if link.absolute then [] else d, link.target + rest, fuel);
  }

  /** A step up leads to the folder above, and one that stays nowhere else. */
  lemma StepsUp(fs: Files, d: Path, rest: Path, fuel: nat)
    requires WellFormed(fs) && d in fs && fs[d].Folder?
    ensures Walk(fs, [], d + ([Up] + rest), fuel) == Walk(fs, [], Dir(d) + rest, fuel)
    ensures Walk(fs, [], d + ([Here] + rest), fuel) == Walk(fs, [], d + rest, fuel)
  {
    assert ([Up] + rest)[0] == Up && ([Up] + rest)[1..] == rest;
    assert ([Here] + rest)[0] == Here && ([Here] + rest)[1..] == rest;
    WalkFromRoot(fs, d, [Up] + rest, fuel);
    WalkFromRoot(fs, d, [Here] + rest, fuel);
    WalkFromRoot(fs, d, rest, fuel);
    WalkFromRoot(fs, Dir(d), rest, fuel);
  }

  /** A link to itself leads nowhere. */
  lemma {:induction false} SelfLink(fs: Files, d: Path, n: Name, rest: Path, fuel: nat)
    requires WellFormed(fs) && d in fs && fs[d].Folder? && n.Named? && d + [n] in fs && fs[d + [n]] == Link(false, [n])
    ensures Walk(fs, [], d + ([n] + rest), fuel).None?
  {
    FollowsLink(fs, d, n, rest, if fuel == 0 then 0 else fuel - 1);
    if 0 < fuel {
      SelfLink(fs, d, n, rest, fuel - 1);
    }
  }

  // ------------------------------------------------------------ place keys

  /** Creating an entry leaves every walk that arrived as it was. */
  lemma {:induction false} WalkMonotone(fs: Files, p: Path, e: Entry, at: Path, rest: Path, fuel: nat)
    requires p !in fs && at in fs && Walk(fs, at, rest, fuel).Some?
    ensures Walk(fs[p := e], at, rest, fuel) == Walk(fs, at, rest, fuel)
    decreases fuel, |rest|
  {
    if rest != [] && !rest[0].Named? {
      WalkMonotone(fs, p, e, if rest[0].Here? then at else Dir(at), rest[1..], fuel);
    } else if rest != [] {
      match fs[at + [rest[0]]]
      case Link(absolute, target) => WalkMonotone(fs, p, e, if absolute then [] else at, target + rest[1..], fuel - 1);
      case _ => WalkMonotone(fs, p, e, at + [rest[0]], rest[1..], fuel);
    }
  }

  lemma {:induction false} DeepestIs(fs: Files, p: Path, k: nat)
    requires 0 < k <= |p| && Exists(fs, p[..k]) && forall j :: k < j <= |p| ==> !Exists(fs, p[..j])
    ensures Deepest(fs, p) == k
  {
    var d := Deepest(fs, p);
    assert 0 < d ==> Exists(fs, p[..d]);
  }

  /** A path with one more name, after that folder was created. */
  lemma {:induction false} CreatedResolves(fs: Files, p: Path, k: nat, found: Path, e: Entry)
    requires WellFormed(fs) && !e.Link? && Clean(p) && k < |p| && Resolve(fs, p[..k]) == Some(found)
    requires fs[found].Folder? && found + [p[k]] !in fs
    ensures Resolve(fs[found + [p[k]] := e], p[..k + 1]) == Some(found + [p[k]])
  {
    var made := found + [p[k]];
    var fs' := fs[made := e];
    WalkMonotone(fs, made, e, [], p[..k], MAX_LINKS);
    var left := WalkOn(fs', [], p[..k], [p[k]], MAX_LINKS, found);
    assert p[..k] + [p[k]] == p[..k + 1];
    assert [p[k]][0] == p[k] && [p[k]][1..] == [];
  }

  lemma {:induction false} CreatedExists(fs: Files, p: Path, k: nat, found: Path, e: Entry)
    requires WellFormed(fs) && !e.Link? && Clean(p) && k < |p| && Resolve(fs, p[..k]) == Some(found)
    requires fs[found].Folder? && found + [p[k]] !in fs
    ensures Exists(fs[found + [p[k]] := e], p[..k + 1])
  {
    OneUp(p, k + 1);
    WalkMonotone(fs, found + [p[k]], e, [], p[..k], MAX_LINKS);
  }

  lemma {:induction false} JustBelowCreated(fs: Files, p: Path, k: nat, made: Path, e: Entry)
    requires WellFormed(fs) && !e.Link? && Clean(p) && k + 2 <= |p| && made !in fs && Resolve(fs[made := e], p[..k + 1]) == Some(made)
    ensures !Exists(fs[made := e], p[..k + 2]) && made + [p[k + 1]] !in fs[made := e]
  {
    var q := p[..k + 2];
    assert Dir(q) == p[..k + 1] && q[|q| - 1] == p[k + 1];
    NothingBelow(fs, made, p[k + 1]);
    assert |made + [p[k + 1]]| != |made|;
  }

  lemma {:induction false} FarBelowCreated(fs: Files, p: Path, k: nat, made: Path, e: Entry, j: nat)
    requires WellFormed(fs) && !e.Link? && Clean(p) && made !in fs && k + 2 < j <= |p|
    requires Resolve(fs[made := e], p[..k + 1]) == Some(made)
    requires made + [p[k + 1]] !in fs[made := e]
    ensures !Exists(fs[made := e], p[..j])
  {
    var q, more := p[..j], p[k + 1..j - 1];
    assert Dir(q) == p[..j - 1] == p[..k + 1] + more && more[0] == p[k + 1];
    var left := WalkOn(fs[made := e], [], p[..k + 1], more, MAX_LINKS, made);
  }

  lemma NothingBelow(fs: Files, made: Path, n: Name)
    requires WellFormed(fs) && made !in fs
    ensures made + [n] !in fs
  {
    assert (made + [n])[..|made|] == made;
  }

  lemma {:induction false} CreatedDeepest(fs: Files, p: Path, k: nat, found: Path, e: Entry)
    requires WellFormed(fs) && !e.Link? && Clean(p) && k < |p| && Resolve(fs, p[..k]) == Some(found)
    requires fs[found].Folder? && found + [p[k]] !in fs
    ensures Deepest(fs[found + [p[k]] := e], p) == k + 1
  {
    var made := found + [p[k]];
    var fs' := fs[made := e];
    CreatedExists(fs, p, k, found, e);
    CreatedResolves(fs, p, k, found, e);
    forall j | k + 1 < j <= |p|
      ensures !Exists(fs', p[..j])
    {
      JustBelowCreated(fs, p, k, made, e);
      if k + 2 < j {
        FarBelowCreated(fs, p, k, made, e, j);
      }
    }
    DeepestIs(fs', p, k + 1);
  }

  lemma OneDown(found: Path, p: Path, k: nat)
    requires k < |p|
    ensures found + p[k..] == found + [p[k]] + p[k + 1..]
  {
  }

  lemma ResolvedFrom(fs: Files, p: Path, k: nat, found: Path)
    requires Deepest(fs, p) == k && Resolve(fs, p[..k]) == Some(found)
    ensures Resolved(fs, p, true) == Some(found + p[k..])
  {
  }

  /** The key of a place to be created stays as it is when the next entry on the way
      to it is created, as anything but a link. */
  lemma {:induction false} PlaceKeyStep(fs: Files, p: Path, k: nat, found: Path, e: Entry)
    requires WellFormed(fs) && !e.Link? && Clean(p) && k == Deepest(fs, p) < |p|
    requires Resolve(fs, p[..k]) == Some(found) && fs[found].Folder?
    ensures var made := found + [p[k]];
            && made !in fs && WellFormed(fs[made := e]) && Deepest(fs[made := e], p) == k + 1
            && Resolve(fs[made := e], p[..k + 1]) == Some(made)
            && Resolved(fs[made := e], p, true) == Resolved(fs, p, true)
  {
    var made := found + [p[k]];
    ExistingPart(fs, p, k, found);
    assert !Exists(fs, p[..k + 1]);
    CreatedDeepest(fs, p, k, found, e);
    CreatedResolves(fs, p, k, found, e);
    CreatedWell(fs, found, p[k], e);
    ResolvedFrom(fs, p, k, found);
    ResolvedFrom(fs[made := e], p, k + 1, made);
    OneDown(found, p, k);
  }

  lemma CreatedWell(fs: Files, found: Path, n: Name, e: Entry)
    requires WellFormed(fs) && found in fs && fs[found].Folder? && found + [n] !in fs && n.Named?
    ensures WellFormed(fs[found + [n] := e])
  {
    var made := found + [n];
    var fs' := fs[made := e];
    assert made[..|made| - 1] == found;
    forall p | p in fs' && p != []
      ensures p[..|p| - 1] in fs' && fs'[p[..|p| - 1]].Folder?
    {
      assert p == made || p[..|p| - 1] != made;
    }
  }

  /** Folders on the way to a place, and last the place itself. */
  ghost predicate OnTheWay(es: seq<Entry>) {
    forall i :: 0 <= i < |es| ==> !es[i].Link? && (i < |es| - 1 ==> es[i].Folder?)
  }

  lemma OnTheWayOn(es: seq<Entry>)
    requires OnTheWay(es) && es != []
    ensures !es[0].Link? && OnTheWay(es[1..]) && (es[1..] != [] ==> es[0].Folder?)
  {
  }

  /** The entries on the way to p, created one after another below `found`. */
  function MakeAll(fs: Files, p: Path, k: nat, found: Path, es: seq<Entry>): Files
    requires k + |es| <= |p|
    decreases |es|
  {
    if es == [] then fs else MakeAll(fs[found + [p[k]] := es[0]], p, k + 1, found + [p[k]], es[1..])
  }

  /** The key of a place to be created stays as it is while everything missing on
      the way to it, and at last the place, is created. */
  lemma {:induction false} PlaceKeyIsStable(fs: Files, p: Path, k: nat, found: Path, es: seq<Entry>)
    requires WellFormed(fs) && Clean(p) && k == Deepest(fs, p) && k + |es| <= |p| && OnTheWay(es)
    requires Resolve(fs, p[..k]) == Some(found) && (es != [] ==> fs[found].Folder?)
    ensures Resolved(MakeAll(fs, p, k, found, es), p, true) == Resolved(fs, p, true)
    decreases |es|
  {
    if es != [] {
      OnTheWayOn(es);
      PlaceKeyStep(fs, p, k, found, es[0]);
      var made := found + [p[k]];
      var fs' := fs[made := es[0]];
      assert fs'[made] == es[0];
      PlaceKeyIsStable(fs', p, k + 1, made, es[1..]);
    }
  }
}
