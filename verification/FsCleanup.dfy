/** The file cleanup worker: a directory walk with a budget that resumes behind the last path it handed out. */
module FsCleanup {
  import opened Options
  import opened Integers
  import Lexicographic

  /** Names and paths are strings of UTF-16 code units, which is what the string comparison of the walk compares. */
  newtype CodeUnit = x: int | 0 <= x < 0x1_0000
  type Name = seq<CodeUnit>

  /** A directory's entries, in the order in which the walk sorts them. */
  datatype Entries = NoEntries | Cons(head: Entry, tail: Entries)
  datatype Entry = File(name: Name) | Dir(name: Name, entries: Entries)

  type ShouldDelete = Name -> bool

  /** `.gitkeep` */
  const GITKEEP: Name := [46, 103, 105, 116, 107, 101, 101, 112]

  /** `/` */
  const SLASH: Name := [47]

  function Join(dir: Name, name: Name): Name {
    dir + SLASH + name
  }

  // ---------------------------------------------------------------- string order

  const SMALLER: (CodeUnit, CodeUnit) -> bool := (x, y) => x < y

  predicate Less(a: Name, b: Name) {
    Lexicographic.Less(SMALLER, a, b)
  }

  lemma LessIsStrict(a: Name, b: Name, c: Name)
    ensures !Less(a, a)
    ensures Less(a, b) || Less(b, a) || a == b
    ensures Less(a, b) && Less(b, c) ==> Less(a, c)
  {
    Lexicographic.LessIsStrict(SMALLER, a, b, c);
  }

  // ---------------------------------------------------------------- the files, depth first

  function Dfs(dir: Name, es: Entries): seq<Name>
    decreases es
  {
    match es
    case NoEntries => []
    case Cons(e, rest) =>
      (if e.name == GITKEEP then []
       else match e
         case File(name) => [Join(dir, name)]
         case Dir(name, children) => Dfs(Join(dir, name), children))
      + Dfs(dir, rest)
  }

  function Behind(paths: seq<Name>, last: Name, should: ShouldDelete): seq<Name> {
    if paths == [] then []
    else (if Less(last, paths[0]) && should(paths[0]) then [paths[0]] else []) + Behind(paths[1..], last, should)
  }

  function Take(n: int, paths: seq<Name>): seq<Name> {
    if n <= 0 then [] else if |paths| <= n then paths else paths[..n]
  }

  // ---------------------------------------------------------------- the walk

  /** The walk below `dir`; the batch so far is also the count of files processed. */
  function Walk(
      dir: Name, es: Entries, last: Name, size: nat, should: ShouldDelete, batch: seq<Name>): seq<Name>
    decreases es
  {
    if es.NoEntries? || |batch| >= size then batch
    else
      var e := es.head;
      var path := Join(dir, e.name);
      if e.name == GITKEEP then Walk(dir, es.tail, last, size, should, batch)
      else if (path <= last || !Less(path, last)) && e.Dir? then
        Walk(dir, es.tail, last, size, should, Walk(path, e.entries, last, size, should, batch))
      else if Less(last, path) && should(path) then
        Walk(dir, es.tail, last, size, should, batch + [path])
      else Walk(dir, es.tail, last, size, should, batch)
  }

  /** With no last path nothing is descended into: top-level directories are handed out themselves. */
  function WalkTop(dir: Name, es: Entries, size: nat, should: ShouldDelete, batch: seq<Name>): seq<Name> {
    if es.NoEntries? || |batch| >= size then batch
    else if es.head.name != GITKEEP && should(Join(dir, es.head.name)) then
      WalkTop(dir, es.tail, size, should, batch + [Join(dir, es.head.name)])
    else WalkTop(dir, es.tail, size, should, batch)
  }

  function GetBatch(base: Name, es: Entries, last: Option<Name>, size: nat, should: ShouldDelete): seq<Name> {
    match last
    case Some(path) => Walk(base, es, path, size, should, [])
    case None => WalkTop(base, es, size, should, [])
  }

  // ---------------------------------------------------------------- pruning loses nothing

  lemma {:induction false} BehindAppend(a: seq<Name>, b: seq<Name>, last: Name, should: ShouldDelete)
    ensures Behind(a + b, last, should) == Behind(a, last, should) + Behind(b, last, should)
    decreases |a|
  {
    if a == [] {
      assert a + b == b;
    } else {
      assert (a + b)[1..] == a[1..] + b;
      BehindAppend(a[1..], b, last, should);
    }
  }

  lemma {:induction false} DfsBelow(dir: Name, es: Entries)
    ensures forall f :: f in Dfs(dir, es) ==> Join(dir, []) <= f
    decreases es
  {
    if es.Cons? {
      DfsBelow(dir, es.tail);
      if es.head.Dir? {
        DfsBelow(Join(dir, es.head.name), es.head.entries);
      }
    }
  }

  lemma {:induction false} NothingBehind(paths: seq<Name>, last: Name, should: ShouldDelete)
    requires forall f :: f in paths ==> Less(f, last)
    ensures Behind(paths, last, should) == []
    decreases |paths|
  {
    if paths != [] {
      assert paths[0] in paths;
      LessIsStrict(last, paths[0], last);
      NothingBehind(paths[1..], last, should);
    }
  }

  /** A directory that the walk does not enter holds nothing behind the last path, and is not behind it itself. */
  lemma PrunedHasNothing(path: Name, es: Entries, last: Name, should: ShouldDelete)
    requires !(path <= last) && Less(path, last)
    ensures Behind(Dfs(path, es), last, should) == [] && !Less(last, path)
  {
    DfsBelow(path, es);
    forall f | f in Dfs(path, es) ensures Less(f, last) {
      assert f == path + f[|path|..];
      Lexicographic.DifferenceDecides(SMALLER, path, last, f[|path|..], []);
      assert last + [] == last;
    }
    NothingBehind(Dfs(path, es), last, should);
    LessIsStrict(last, path, last);
  }

  lemma TakeAppend(n: int, batch: seq<Name>, a: seq<Name>, b: seq<Name>)
    requires |batch| <= n
    ensures var first := batch + Take(n - |batch|, a);
      |first| <= n && first + Take(n - |first|, b) == batch + Take(n - |batch|, a + b)
  {
  }

  /** What one entry contributes to the files behind the last path. */
  function EntryFiles(dir: Name, e: Entry): seq<Name> {
    if e.name == GITKEEP then []
    else match e
      case File(name) => [Join(dir, name)]
      case Dir(name, children) => Dfs(Join(dir, name), children)
  }

  lemma BehindOne(path: Name, last: Name, should: ShouldDelete)
    ensures Behind([path], last, should) == if Less(last, path) && should(path) then [path] else []
  {
    assert Behind([path][1..], last, should) == [];
  }

  /** The batch after one entry, as the walk's own budget leaves it. */
  function AfterEntry(
      dir: Name, e: Entry, last: Name, size: nat, should: ShouldDelete, batch: seq<Name>): seq<Name>
    requires |batch| <= size
  {
    batch + Take(size - |batch|, Behind(EntryFiles(dir, e), last, should))
  }

  /**
   For any tree, the walk hands out the next files behind the last path in depth-first order, as many as the budget
   allows.
   */
  lemma {:induction false} WalkIsDfs(
      dir: Name, es: Entries, last: Name, size: nat, should: ShouldDelete, batch: seq<Name>)
    requires |batch| <= size
    ensures Walk(dir, es, last, size, should, batch) == batch + Take(size - |batch|, Behind(Dfs(dir, es), last, should))
    decreases es
  {
    if es.NoEntries? || |batch| == size {
      assert Walk(dir, es, last, size, should, batch) == batch;
      assert Take(size - |batch|, Behind(Dfs(dir, es), last, should)) == [];
    } else {
      WalkEntry(dir, es, last, size, should, batch);
      var found := Behind(EntryFiles(dir, es.head), last, should);
      BehindAppend(EntryFiles(dir, es.head), Dfs(dir, es.tail), last, should);
      assert Dfs(dir, es) == EntryFiles(dir, es.head) + Dfs(dir, es.tail);
      TakeAppend(size, batch, found, Behind(Dfs(dir, es.tail), last, should));
      WalkIsDfs(dir, es.tail, last, size, should, AfterEntry(dir, es.head, last, size, should, batch));
    }
  }

  lemma {:induction false} WalkEntry(
      dir: Name, es: Entries, last: Name, size: nat, should: ShouldDelete, batch: seq<Name>)
    requires es.Cons? && |batch| < size
    ensures var next := AfterEntry(dir, es.head, last, size, should, batch);
      |next| <= size && Walk(dir, es, last, size, should, batch) == Walk(dir, es.tail, last, size, should, next)
    decreases es, 0
  {
    var e := es.head;
    var path := Join(dir, e.name);
    if e.name == GITKEEP {
      assert AfterEntry(dir, e, last, size, should, batch) == batch;
    } else if e.File? {
      BehindOne(path, last, should);
      assert batch + [] == batch;
    } else if path <= last || !Less(path, last) {
      WalkIsDfs(path, e.entries, last, size, should, batch);
    } else {
      PrunedHasNothing(path, e.entries, last, should);
      assert AfterEntry(dir, e, last, size, should, batch) == batch;
    }
  }

  /** The entries of one directory, files and directories alike. */
  function Entered(dir: Name, es: Entries): seq<Name> {
    if es.NoEntries? then []
    else (if es.head.name == GITKEEP then [] else [Join(dir, es.head.name)]) + Entered(dir, es.tail)
  }

  /** What the first entry adds. */
  lemma WalkTopEntry(
      dir: Name, es: Entries, size: nat, should: ShouldDelete, batch: seq<Name>) returns (found: seq<Name>)
    requires es.Cons? && |batch| < size
    ensures |found| <= 1 && WalkTop(dir, es, size, should, batch) == WalkTop(dir, es.tail, size, should, batch + found)
    ensures Behind(Entered(dir, es), [], should) == found + Behind(Entered(dir, es.tail), [], should)
  {
    var path := Join(dir, es.head.name);
    var entry := if es.head.name == GITKEEP then [] else [path];
    BehindAppend(entry, Entered(dir, es.tail), [], should);
    BehindOne(path, [], should);
    found := Behind(entry, [], should);
    assert batch + [] == batch;
  }

  /**
   With no last path the batch is the next deletable entries of the directory itself, as many as the budget allows.
   */
  lemma {:induction false} WalkTopIsFlat(dir: Name, es: Entries, size: nat, should: ShouldDelete, batch: seq<Name>)
    requires |batch| <= size
    ensures WalkTop(dir, es, size, should, batch) == batch + Take(size - |batch|, Behind(Entered(dir, es), [], should))
    decreases es
  {
    if es.NoEntries? || |batch| == size {
      assert WalkTop(dir, es, size, should, batch) == batch;
      assert Take(size - |batch|, Behind(Entered(dir, es), [], should)) == [];
    } else {
      var found := WalkTopEntry(dir, es, size, should, batch);
      TakeAppend(size, batch, found, Behind(Entered(dir, es.tail), [], should));
      assert Take(size - |batch|, found) == found;
      WalkTopIsFlat(dir, es.tail, size, should, batch + found);
    }
  }

  // ---------------------------------------------------------------- a cycle of batches

  ghost predicate Ascending(paths: seq<Name>) {
    forall i, j :: 0 <= i < j < |paths| ==> Less(paths[i], paths[j])
  }

  /** The files that may go, in depth-first order. */
  function Deletable(base: Name, es: Entries, should: ShouldDelete): seq<Name> {
    Behind(Dfs(base, es), base, should)
  }

  lemma {:induction false} BehindShape(paths: seq<Name>, last: Name, should: ShouldDelete)
    ensures forall f :: f in Behind(paths, last, should) <==> f in paths && Less(last, f) && should(f)
    ensures |Behind(paths, last, should)| <= |paths|
    ensures Ascending(paths) ==> Ascending(Behind(paths, last, should))
    decreases |paths|
  {
    if paths != [] {
      BehindShape(paths[1..], last, should);
      assert paths == [paths[0]] + paths[1..];
      if Ascending(paths) {
        forall f | f in paths[1..] ensures Less(paths[0], f) {
          var j :| 0 <= j < |paths[1..]| && paths[1..][j] == f;
          assert paths[j + 1] == f;
        }
      }
    }
  }

  /** Looking behind a later path is looking behind an earlier one and then behind the later one. */
  lemma {:induction false} BehindTwice(paths: seq<Name>, first: Name, second: Name, should: ShouldDelete)
    requires Less(first, second)
    ensures Behind(Behind(paths, first, should), second, should) == Behind(paths, second, should)
    decreases |paths|
  {
    if paths != [] {
      BehindTwice(paths[1..], first, second, should);
      LessIsStrict(first, second, paths[0]);
      if Less(first, paths[0]) && should(paths[0]) {
        assert ([paths[0]] + Behind(paths[1..], first, should))[1..] == Behind(paths[1..], first, should);
      } else {
        assert Behind(paths, first, should) == Behind(paths[1..], first, should);
        assert Behind(paths, second, should) == Behind(paths[1..], second, should);
      }
    }
  }

  lemma LastIsNotBehind(paths: seq<Name>, last: Name, next: Name, should: ShouldDelete)
    requires next in Behind(paths, last, should)
    ensures |Behind(paths, next, should)| < |Behind(paths, last, should)|
  {
    BehindShape(paths, last, should);
    BehindTwice(paths, last, next, should);
    var rest := Behind(paths, last, should);
    BehindShorter(rest, next, should);
  }

  lemma {:induction false} BehindShorter(paths: seq<Name>, next: Name, should: ShouldDelete)
    requires next in paths
    ensures |Behind(paths, next, should)| < |paths|
    decreases |paths|
  {
    BehindShape(paths[1..], next, should);
    if next == paths[0] {
      LessIsStrict(next, next, next);
    } else {
      BehindShorter(paths[1..], next, should);
    }
  }

  /** The files of the batches handed out after `last` until one is empty, over an unchanging tree. */
  function Cycle(base: Name, es: Entries, last: Name, size: nat, should: ShouldDelete): seq<Name>
    requires size > 0
    decreases |Behind(Dfs(base, es), last, should)|
  {
    BatchIsNext(base, es, last, size, should);
    var batch := GetBatch(base, es, Some(last), size, should);
    if batch == [] then [] else batch + Cycle(base, es, batch[|batch| - 1], size, should)
  }

  lemma TakenAreThere(n: int, paths: seq<Name>)
    ensures forall f :: f in Take(n, paths) ==> f in paths
  {
  }

  /** A batch is the next files behind the last path, and leaves fewer of them. */
  lemma BatchIsNext(base: Name, es: Entries, last: Name, size: nat, should: ShouldDelete)
    requires size > 0
    ensures var batch, left := GetBatch(base, es, Some(last), size, should), Behind(Dfs(base, es), last, should);
      && batch == Take(size, left)
      && (batch != [] ==> |Behind(Dfs(base, es), batch[|batch| - 1], should)| < |left|)
  {
    WalkIsDfs(base, es, last, size, should, []);
    var left := Behind(Dfs(base, es), last, should);
    var batch := GetBatch(base, es, Some(last), size, should);
    assert batch == [] + Take(size, left);
    if batch != [] {
      TakenAreThere(size, left);
      LastIsNotBehind(Dfs(base, es), last, batch[|batch| - 1], should);
    }
  }

  lemma CycleGoesOn(
      base: Name, es: Entries, last: Name, size: nat, should: ShouldDelete, handedOut: seq<Name>,
      batch: seq<Name>)
    requires size > 0 && batch == GetBatch(base, es, Some(last), size, should) && batch != []
    ensures handedOut + Cycle(base, es, last, size, should)
      == (handedOut + batch) + Cycle(base, es, batch[|batch| - 1], size, should)
  {
    assert handedOut + (batch + Cycle(base, es, batch[|batch| - 1], size, should))
        == (handedOut + batch) + Cycle(base, es, batch[|batch| - 1], size, should);
  }

  /** The same cycle over a list of files. */
  function Batches(paths: seq<Name>, last: Name, size: nat, should: ShouldDelete): seq<Name>
    requires size > 0
    decreases |Behind(paths, last, should)|
  {
    var left := Behind(paths, last, should);
    if left == [] then []
    else
      var n := Min(|left|, size);
      assert left[n - 1] in left;
      LastIsNotBehind(paths, last, left[n - 1], should);
      left[..n] + Batches(paths, left[n - 1], size, should)
  }

  lemma BatchesStep(paths: seq<Name>, last: Name, size: nat, should: ShouldDelete) returns (n: nat)
    requires size > 0 && Behind(paths, last, should) != []
    ensures var left := Behind(paths, last, should);
      && 0 < n <= |left| && n == Min(|left|, size)
      && |Behind(paths, left[n - 1], should)| < |left|
      && Batches(paths, last, size, should) == left[..n] + Batches(paths, left[n - 1], size, should)
  {
    var left := Behind(paths, last, should);
    n := Min(|left|, size);
    assert left[n - 1] in left;
    LastIsNotBehind(paths, last, left[n - 1], should);
  }

  lemma CycleStep(base: Name, es: Entries, last: Name, size: nat, should: ShouldDelete, n: nat)
    requires var left := Behind(Dfs(base, es), last, should);
      0 < n <= size && n == Min(|left|, size) && |Behind(Dfs(base, es), left[n - 1], should)| < |left|
    ensures var left := Behind(Dfs(base, es), last, should);
      Cycle(base, es, last, size, should) == left[..n] + Cycle(base, es, left[n - 1], size, should)
  {
    BatchIsNext(base, es, last, size, should);
    TakeIsPrefix(size, Behind(Dfs(base, es), last, should), n);
  }

  lemma TakeIsPrefix(size: int, paths: seq<Name>, n: nat)
    requires 0 < n <= size && n == Min(|paths|, size)
    ensures Take(size, paths) == paths[..n] && Take(size, paths)[n - 1] == paths[n - 1]
  {
  }

  lemma {:induction false} CycleIsBatches(base: Name, es: Entries, last: Name, size: nat, should: ShouldDelete)
    requires size > 0
    ensures Cycle(base, es, last, size, should) == Batches(Dfs(base, es), last, size, should)
    decreases |Behind(Dfs(base, es), last, should)|
  {
    var left := Behind(Dfs(base, es), last, should);
    if left == [] {
      BatchIsNext(base, es, last, size, should);
    } else {
      var n := BatchesStep(Dfs(base, es), last, size, should);
      CycleStep(base, es, last, size, should, n);
      CycleIsBatches(base, es, left[n - 1], size, should);
    }
  }

  /** In an ascending list, what lies behind its `n`-th element is the rest of it. */
  lemma {:induction false} BehindAscending(paths: seq<Name>, n: nat, should: ShouldDelete)
    requires Ascending(paths) && 0 < n <= |paths| && forall f :: f in paths ==> should(f)
    ensures Behind(paths, paths[n - 1], should) == paths[n..]
    decreases |paths|
  {
    var last := paths[n - 1];
    assert paths == paths[..n] + paths[n..];
    BehindAppend(paths[..n], paths[n..], last, should);
    AllBehind(paths[n..], last, should);
    forall f | f in paths[..n] ensures !Less(last, f) {
      var i :| 0 <= i < n && paths[i] == f;
      LessIsStrict(last, f, last);
    }
    BehindNone(paths[..n], last, should);
  }

  lemma {:induction false} AllBehind(paths: seq<Name>, last: Name, should: ShouldDelete)
    requires forall f :: f in paths ==> Less(last, f) && should(f)
    ensures Behind(paths, last, should) == paths
    decreases |paths|
  {
    if paths != [] {
      assert paths[0] in paths;
      AllBehind(paths[1..], last, should);
    }
  }

  lemma {:induction false} BehindNone(paths: seq<Name>, last: Name, should: ShouldDelete)
    requires forall f :: f in paths ==> !Less(last, f)
    ensures Behind(paths, last, should) == []
    decreases |paths|
  {
    if paths != [] {
      assert paths[0] in paths;
      BehindNone(paths[1..], last, should);
    }
  }

  /** If what is left is ascending, the batches hand all of it out, each file once. */
  lemma {:induction false} BatchesCover(paths: seq<Name>, last: Name, size: nat, should: ShouldDelete)
    requires size > 0 && Ascending(Behind(paths, last, should))
    ensures Batches(paths, last, size, should) == Behind(paths, last, should)
    decreases |Behind(paths, last, should)|
  {
    var left := Behind(paths, last, should);
    if left != [] {
      var n := BatchesStep(paths, last, size, should);
      RestIsBehind(paths, last, n, should);
      BatchesCover(paths, left[n - 1], size, should);
      Glue(left, n);
    }
  }

  lemma Glue(left: seq<Name>, n: nat)
    requires n <= |left|
    ensures left[..n] + left[n..] == left
  {
  }

  lemma RestIsBehind(paths: seq<Name>, last: Name, n: nat, should: ShouldDelete)
    requires 0 < n <= |Behind(paths, last, should)| && Ascending(Behind(paths, last, should))
    ensures var left := Behind(paths, last, should);
      Behind(paths, left[n - 1], should) == left[n..] && Ascending(left[n..])
  {
    var left := Behind(paths, last, should);
    BehindShape(paths, last, should);
    assert left[n - 1] in left;
    BehindTwice(paths, last, left[n - 1], should);
    BehindAscending(left, n, should);
  }

  lemma {:induction false} BatchesAreBehind(paths: seq<Name>, last: Name, size: nat, should: ShouldDelete)
    requires size > 0
    ensures forall f :: f in Batches(paths, last, size, should) ==> Less(last, f)
    decreases |Behind(paths, last, should)|
  {
    BehindShape(paths, last, should);
    var left := Behind(paths, last, should);
    if left != [] {
      var n := Min(|left|, size);
      var next := left[n - 1];
      assert next in left;
      LastIsNotBehind(paths, last, next, should);
      BatchesAreBehind(paths, next, size, should);
      forall f | f in left[..n] + Batches(paths, next, size, should) ensures Less(last, f) {
        if f in Batches(paths, next, size, should) {
          LessIsStrict(last, next, f);
        } else {
          assert f in left;
        }
      }
    }
  }

  lemma MissingAt(left: seq<Name>, rest: seq<Name>, i: nat, j: nat)
    requires i < j < |left| && !Less(left[i], left[j]) && forall f :: f in rest ==> Less(left[i], f)
    ensures left[..i + 1] + rest != left
  {
    var k := j - (i + 1);
    if k < |rest| {
      assert rest[k] in rest;
      assert (left[..i + 1] + rest)[j] == rest[k];
    }
  }

  /** Batches of which the first ends behind a later file miss that file. */
  lemma BatchesMiss(paths: seq<Name>, last: Name, should: ShouldDelete, i: nat, j: nat)
    requires var left := Behind(paths, last, should); i < j < |left| && !Less(left[i], left[j])
    ensures Batches(paths, last, i + 1, should) != Behind(paths, last, should)
  {
    var left := Behind(paths, last, should);
    var n := BatchesStep(paths, last, i + 1, should);
    assert n == i + 1;
    BatchesAreBehind(paths, left[n - 1], i + 1, should);
    MissingAt(left, Batches(paths, left[n - 1], i + 1, should), n - 1, j);
  }

  /**
   Successive batches hand out every deletable file exactly once, in depth-first order, for every batch size exactly
   when depth-first order is ascending string order.
   */
  lemma CyclesCoverExactlyAscending(base: Name, es: Entries, should: ShouldDelete)
    ensures (forall size: nat :: size > 0 ==> Cycle(base, es, base, size, should) == Deletable(base, es, should))
      <==> Ascending(Deletable(base, es, should))
  {
    var all := Deletable(base, es, should);
    if Ascending(all) {
      forall size: nat | size > 0 ensures Cycle(base, es, base, size, should) == all {
        CycleIsBatches(base, es, base, size, should);
        BatchesCover(Dfs(base, es), base, size, should);
      }
    } else {
      var i, j :| 0 <= i < j < |all| && !Less(all[i], all[j]);
      CycleIsBatches(base, es, base, i + 1, should);
      BatchesMiss(Dfs(base, es), base, should, i, j);
    }
  }

  // ---------------------------------------------------------------- when the order is ascending

  /** Siblings in string order, none the start of another. */
  ghost predicate Orderly(es: Entries) {
    es.Cons? ==> Orderly(es.tail) && (es.head.Dir? ==> Orderly(es.head.entries)) && AllAfter(es.head.name, es.tail)
  }

  ghost predicate AllAfter(name: Name, es: Entries) {
    es.Cons? ==> Less(name, es.head.name) && !(name <= es.head.name) && AllAfter(name, es.tail)
  }

  /** Everything below a later sibling comes after everything below an earlier one. */
  lemma {:induction false} SiblingsInOrder(dir: Name, name: Name, es: Entries, f: Name)
    requires AllAfter(name, es) && Join(dir, name) <= f
    ensures forall g :: g in Dfs(dir, es) ==> Less(f, g)
    decreases es
  {
    if es.Cons? {
      SiblingsInOrder(dir, name, es.tail, f);
      var other := es.head.name;
      forall g | g in EntryFiles(dir, es.head) ensures Less(f, g) {
        if es.head.Dir? {
          DfsBelow(Join(dir, other), es.head.entries);
        }
        assert Join(dir, other) <= g;
        Lexicographic.DifferenceDecides(SMALLER, name, other, f[|Join(dir, name)|..], g[|Join(dir, other)|..]);
        Lexicographic.CommonStart(SMALLER, dir + SLASH, name + f[|Join(dir, name)|..], other + g[|Join(dir, other)|..]);
        assert f == dir + SLASH + (name + f[|Join(dir, name)|..]);
        assert g == dir + SLASH + (other + g[|Join(dir, other)|..]);
      }
      assert Dfs(dir, es) == EntryFiles(dir, es.head) + Dfs(dir, es.tail);
    }
  }

  /** With prefix-free sibling names in string order, depth-first order is ascending. */
  lemma {:induction false} OrderlyIsAscending(dir: Name, es: Entries)
    requires Orderly(es)
    ensures Ascending(Dfs(dir, es))
    decreases es
  {
    if es.Cons? {
      OrderlyIsAscending(dir, es.tail);
      var path := Join(dir, es.head.name);
      var here, rest := EntryFiles(dir, es.head), Dfs(dir, es.tail);
      if es.head.Dir? {
        OrderlyIsAscending(path, es.head.entries);
        DfsBelow(path, es.head.entries);
      }
      forall i, j | 0 <= i < j < |here + rest| ensures Less((here + rest)[i], (here + rest)[j]) {
        if i < |here| <= j {
          assert here[i] in here && path <= here[i] && rest[j - |here|] in rest;
          SiblingsInOrder(dir, es.head.name, es.tail, here[i]);
        }
      }
      assert Dfs(dir, es) == here + rest;
    }
  }

  lemma BelowBase(base: Name, es: Entries)
    ensures forall f :: f in Dfs(base, es) ==> Less(base, f)
  {
    DfsBelow(base, es);
    forall f | f in Dfs(base, es) ensures Less(base, f) {
      assert f == base + f[|base|..];
      Lexicographic.LongerIsMore(SMALLER, base, f[|base|..]);
    }
  }

  /** The deletable files are all the files that should be deleted. */
  lemma DeletableIsAll(base: Name, es: Entries, should: ShouldDelete)
    ensures forall f :: f in Deletable(base, es, should) <==> f in Dfs(base, es) && should(f)
  {
    BehindShape(Dfs(base, es), base, should);
    BelowBase(base, es);
  }

  /** For such trees, whatever the batch size, a cycle hands out exactly the files to delete, in order and each once. */
  lemma OrderlyTreesAreCovered(base: Name, es: Entries, should: ShouldDelete, size: nat)
    requires Orderly(es) && size > 0
    ensures forall f :: f in Cycle(base, es, base, size, should) <==> f in Dfs(base, es) && should(f)
    ensures Ascending(Cycle(base, es, base, size, should))
  {
    OrderlyIsAscending(base, es);
    BehindShape(Dfs(base, es), base, should);
    CyclesCoverExactlyAscending(base, es, should);
    DeletableIsAll(base, es, should);
  }

  /** `a` */
  const LOWER_A: Name := [97]

  /** `B` */
  const UPPER_B: Name := [66]

  function TwoFiles(): Entries {
    Cons(File(LOWER_A), Cons(File(UPPER_B), NoEntries))
  }

  lemma TwoFilesListed(base: Name, should: ShouldDelete)
    requires should(Join(base, LOWER_A)) && should(Join(base, UPPER_B))
    ensures Deletable(base, TwoFiles(), should) == [Join(base, LOWER_A), Join(base, UPPER_B)]
  {
    var a, b := Join(base, LOWER_A), Join(base, UPPER_B);
    assert |LOWER_A| == 1 && |UPPER_B| == 1 && |GITKEEP| == 8;
    assert Dfs(base, NoEntries) == [];
    assert Dfs(base, Cons(File(UPPER_B), NoEntries)) == [b];
    assert Dfs(base, TwoFiles()) == [a] + [b];
    BelowBase(base, TwoFiles());
    AllBehind([a] + [b], base, should);
  }

  /** In a locale's order `a` comes before `B`, in string order behind it: batches of one then never hand out `B`. */
  lemma LocaleOrderLosesFiles(base: Name, should: ShouldDelete)
    requires should(Join(base, LOWER_A)) && should(Join(base, UPPER_B))
    ensures Deletable(base, TwoFiles(), should) == [Join(base, LOWER_A), Join(base, UPPER_B)]
    ensures Join(base, UPPER_B) !in Cycle(base, TwoFiles(), base, 1, should)
  {
    var a, b, files := Join(base, LOWER_A), Join(base, UPPER_B), Dfs(base, TwoFiles());
    TwoFilesListed(base, should);
    Lexicographic.CommonStart(SMALLER, base + SLASH, LOWER_A, UPPER_B);
    assert !Less(LOWER_A, UPPER_B);
    CycleIsBatches(base, TwoFiles(), base, 1, should);
    var n := BatchesStep(files, base, 1, should);
    BatchesAreBehind(files, a, 1, should);
    assert b !in Batches(files, a, 1, should);
    assert a[|base| + 1] != b[|base| + 1];
  }

  // ---------------------------------------------------------------- the object

  class FsCleanupWorker {
    const basePath: Name
    const batchSize: nat
    var lastPath: Option<Name>

    constructor (basePath: Name, batchSize: nat)
      ensures this.basePath == basePath && this.batchSize == batchSize && lastPath == Some(basePath)
    {
      this.basePath, this.batchSize, lastPath := basePath, batchSize, Some(basePath);
    }

    method WalkDir(dir: Name, es: Entries, should: ShouldDelete, soFar: seq<Name>) returns (batch: seq<Name>)
      ensures lastPath.Some? ==> batch == Walk(dir, es, lastPath.value, batchSize, should, soFar)
      ensures lastPath.None? ==> batch == WalkTop(dir, es, batchSize, should, soFar)
      decreases es
    {
      batch := soFar;
      var files := es;
      while files.Cons?
        invariant !(es < files)
        invariant lastPath.Some? ==>
          Walk(dir, es, lastPath.value, batchSize, should, soFar)
            == Walk(dir, files, lastPath.value, batchSize, should, batch)
        invariant lastPath.None? ==>
          WalkTop(dir, es, batchSize, should, soFar) == WalkTop(dir, files, batchSize, should, batch)
        invariant files == es || files < es
        decreases files
      {
        if |batch| >= batchSize {
          break;
        }
        var file := files.head;
        var fullPath := Join(dir, file.name);
        if file.name == GITKEEP {
          files := files.tail;
          continue;
        }
        if lastPath.Some? && (fullPath <= lastPath.value || !Less(fullPath, lastPath.value)) && file.Dir? {
          batch := WalkDir(fullPath, file.entries, should, batch);
        } else if lastPath.None? || Less(lastPath.value, fullPath) {
          if should(fullPath) {
            batch := batch + [fullPath];
          }
        }
        files := files.tail;
      }
    }

    /** An empty batch starts over; a batch that could not be deleted is handed out again. */
    method ProcessBatch(es: Entries, should: ShouldDelete, deleted: bool) returns (batch: seq<Name>)
      modifies this
      ensures batch == GetBatch(basePath, es, old(lastPath), batchSize, should)
      ensures lastPath ==
        if batch == [] then Some(basePath) else if deleted then Some(batch[|batch| - 1]) else old(lastPath)
    {
      batch := WalkDir(basePath, es, should, []);
      if |batch| == 0 {
        lastPath := Some(basePath);
        return;
      }
      if deleted {
        lastPath := Some(batch[|batch| - 1]);
      }
    }

    /** A whole cycle over an unchanging tree: batches until the empty one, which starts over. */
    method RunCycle(es: Entries, should: ShouldDelete) returns (handedOut: seq<Name>)
      requires batchSize > 0 && lastPath.Some?
      modifies this
      ensures handedOut == Cycle(basePath, es, old(lastPath.value), batchSize, should) && lastPath == Some(basePath)
    {
      handedOut := [];
      ghost var start := lastPath.value;
      var done := false;
      while !done
        invariant lastPath.Some? && (done ==> lastPath == Some(basePath))
        invariant var rest := if done then [] else Cycle(basePath, es, lastPath.value, batchSize, should);
          handedOut + rest == Cycle(basePath, es, start, batchSize, should)
        decreases !done, |Behind(Dfs(basePath, es), lastPath.value, should)|
      {
        ghost var last := lastPath.value;
        BatchIsNext(basePath, es, last, batchSize, should);
        var batch := ProcessBatch(es, should, true);
        if |batch| == 0 {
          done := true;
        } else {
          CycleGoesOn(basePath, es, last, batchSize, should, handedOut, batch);
          handedOut := handedOut + batch;
        }
      }
    }
  }
}
