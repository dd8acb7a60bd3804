/** The cleanup cycle over a tree that shrinks: each batch is unlinked before the next one is looked for. */
module FsDeletion {
  import opened FsCleanup
  import opened Integers
  import opened Options

  /** `paths` without those of `gone`. */
  function Left(paths: seq<Name>, gone: set<Name>): seq<Name> {
    if paths == [] then [] else (if paths[0] in gone then [] else [paths[0]]) + Left(paths[1..], gone)
  }

  function Names(paths: seq<Name>): set<Name> {
    set f | f in paths
  }

  /** The tree after the files of `gone` have been unlinked; directories stay, however empty. */
  function Unlinked(dir: Name, es: Entries, gone: set<Name>): Entries
    decreases es
  {
    match es
    case NoEntries => NoEntries
    case Cons(e, rest) =>
      var others := Unlinked(dir, rest, gone);
      match e
      case File(name) => if Join(dir, name) in gone then others else Cons(e, others)
      case Dir(name, children) => Cons(Dir(name, Unlinked(Join(dir, name), children, gone)), others)
  }

  // ---------------------------------------------------------------- what is left to list

  lemma {:induction false} LeftAppend(a: seq<Name>, b: seq<Name>, gone: set<Name>)
    ensures Left(a + b, gone) == Left(a, gone) + Left(b, gone)
    decreases |a|
  {
    if a == [] {
      assert a + b == b;
    } else {
      assert (a + b)[1..] == a[1..] + b;
      LeftAppend(a[1..], b, gone);
    }
  }

  lemma {:induction false} LeftShape(paths: seq<Name>, gone: set<Name>)
    ensures forall f :: f in Left(paths, gone) <==> f in paths && f !in gone
    decreases |paths|
  {
    if paths != [] {
      LeftShape(paths[1..], gone);
      assert paths == [paths[0]] + paths[1..];
    }
  }

  /** Unlinking files takes exactly them out of the depth-first listing. */
  lemma {:induction false} DfsUnlinked(dir: Name, es: Entries, gone: set<Name>)
    ensures Dfs(dir, Unlinked(dir, es, gone)) == Left(Dfs(dir, es), gone)
    decreases es
  {
    if es.Cons? {
      DfsUnlinked(dir, es.tail, gone);
      var here := EntryFiles(dir, es.head);
      assert Dfs(dir, es) == here + Dfs(dir, es.tail);
      LeftAppend(here, Dfs(dir, es.tail), gone);
      if es.head.Dir? {
        DfsUnlinked(Join(dir, es.head.name), es.head.entries, gone);
        assert Left([], gone) == [];
      } else if here != [] {
        assert Left(here[1..], gone) == [];
      }
    }
  }

  lemma LeftStep(paths: seq<Name>, gone: set<Name>, last: Name, should: ShouldDelete)
    requires paths != []
    ensures var rest := Behind(Left(paths[1..], gone), last, should);
      Behind(Left(paths, gone), last, should)
        == if paths[0] !in gone && Less(last, paths[0]) && should(paths[0]) then [paths[0]] + rest else rest
  {
    if paths[0] in gone {
      assert Left(paths, gone) == Left(paths[1..], gone);
    } else {
      assert Left(paths, gone)[1..] == Left(paths[1..], gone);
    }
  }

  /** Behind a path that no unlinked file is behind, the same files are found. */
  lemma {:induction false} BehindLeft(paths: seq<Name>, gone: set<Name>, last: Name, should: ShouldDelete)
    requires forall f :: f in gone ==> !Less(last, f)
    ensures Behind(Left(paths, gone), last, should) == Behind(paths, last, should)
    decreases |paths|
  {
    if paths != [] {
      BehindLeft(paths[1..], gone, last, should);
      LeftStep(paths, gone, last, should);
      if paths[0] in gone {
        assert Behind(paths, last, should) == Behind(paths[1..], last, should);
      }
    }
  }

  /**
   The next batch is the same whether or not the files handed out so far are still there, as long as none is behind
   the last path.
   */
  lemma NextBatchIsTheSame(base: Name, es: Entries, gone: set<Name>, last: Name, size: nat, should: ShouldDelete)
    requires forall f :: f in gone ==> !Less(last, f)
    ensures GetBatch(base, Unlinked(base, es, gone), Some(last), size, should)
      == GetBatch(base, es, Some(last), size, should)
  {
    DfsUnlinked(base, es, gone);
    BehindLeft(Dfs(base, es), gone, last, should);
    WalkIsDfs(base, es, last, size, should, []);
    WalkIsDfs(base, Unlinked(base, es, gone), last, size, should, []);
  }

  // ---------------------------------------------------------------- a cycle that unlinks

  lemma {:induction false} LeftIsShorter(paths: seq<Name>, gone: set<Name>, last: Name, should: ShouldDelete)
    ensures |Behind(Left(paths, gone), last, should)| <= |Behind(paths, last, should)|
    decreases |paths|
  {
    if paths != [] {
      LeftIsShorter(paths[1..], gone, last, should);
      LeftStep(paths, gone, last, should);
    }
  }

  /** What lies behind the last path of a batch is fewer, and no more once the batch is unlinked. */
  lemma UnlinkingShrinks(base: Name, es: Entries, last: Name, size: nat, should: ShouldDelete)
    requires size > 0 && GetBatch(base, es, Some(last), size, should) != []
    ensures var batch := GetBatch(base, es, Some(last), size, should);
      |Behind(Dfs(base, Unlinked(base, es, Names(batch))), batch[|batch| - 1], should)|
        < |Behind(Dfs(base, es), last, should)|
  {
    var batch := GetBatch(base, es, Some(last), size, should);
    BatchIsNext(base, es, last, size, should);
    DfsUnlinked(base, es, Names(batch));
    LeftIsShorter(Dfs(base, es), Names(batch), batch[|batch| - 1], should);
  }

  /** The files of the batches handed out after `last` until one is empty, each unlinked before the next. */
  function DeletingCycle(base: Name, es: Entries, last: Name, size: nat, should: ShouldDelete): seq<Name>
    requires size > 0
    decreases |Behind(Dfs(base, es), last, should)|
  {
    var batch := GetBatch(base, es, Some(last), size, should);
    if batch == [] then []
    else
      UnlinkingShrinks(base, es, last, size, should);
      batch + DeletingCycle(base, Unlinked(base, es, Names(batch)), batch[|batch| - 1], size, should)
  }

  /** The first batch of an ascending rest: what it hands out is not behind its last path, and the rest is. */
  lemma FirstBatch(base: Name, es: Entries, last: Name, size: nat, should: ShouldDelete)
    requires size > 0 && Behind(Dfs(base, es), last, should) != [] && Ascending(Behind(Dfs(base, es), last, should))
    ensures var left, batch := Behind(Dfs(base, es), last, should), GetBatch(base, es, Some(last), size, should);
      && batch != [] && |batch| <= |left| && batch == left[..|batch|]
      && (forall f :: f in Names(batch) ==> !Less(batch[|batch| - 1], f))
      && Behind(Dfs(base, es), batch[|batch| - 1], should) == left[|batch|..] && Ascending(left[|batch|..])
  {
    var left, batch := Behind(Dfs(base, es), last, should), GetBatch(base, es, Some(last), size, should);
    BatchIsNext(base, es, last, size, should);
    RestIsBehind(Dfs(base, es), last, |batch|, should);
    forall f | f in Names(batch) ensures !Less(batch[|batch| - 1], f) {
      var i :| 0 <= i < |batch| && batch[i] == f;
      LessIsStrict(batch[|batch| - 1], f, batch[|batch| - 1]);
    }
  }

  /** If what is left is ascending, unlinking batch after batch hands all of it out, each file once. */
  lemma {:induction false} DeletingCovers(base: Name, es: Entries, last: Name, size: nat, should: ShouldDelete)
    requires size > 0 && Ascending(Behind(Dfs(base, es), last, should))
    ensures DeletingCycle(base, es, last, size, should) == Behind(Dfs(base, es), last, should)
    decreases |Behind(Dfs(base, es), last, should)|
  {
    var left, batch := Behind(Dfs(base, es), last, should), GetBatch(base, es, Some(last), size, should);
    BatchIsNext(base, es, last, size, should);
    if left != [] {
      FirstBatch(base, es, last, size, should);
      DfsUnlinked(base, es, Names(batch));
      BehindLeft(Dfs(base, es), Names(batch), batch[|batch| - 1], should);
      DeletingCovers(base, Unlinked(base, es, Names(batch)), batch[|batch| - 1], size, should);
      Glue(left, |batch|);
    }
  }

  lemma BatchIsBehind(base: Name, es: Entries, last: Name, size: nat, should: ShouldDelete)
    requires size > 0
    ensures forall f :: f in GetBatch(base, es, Some(last), size, should) ==> Less(last, f)
  {
    BatchIsNext(base, es, last, size, should);
    BehindShape(Dfs(base, es), last, should);
    TakenAreThere(size, Behind(Dfs(base, es), last, should));
  }

  /** Whatever is handed out after `last` is behind it. */
  lemma {:induction false} DeletedAreBehind(base: Name, es: Entries, last: Name, size: nat, should: ShouldDelete)
    requires size > 0
    ensures forall f :: f in DeletingCycle(base, es, last, size, should) ==> Less(last, f)
    decreases |Behind(Dfs(base, es), last, should)|
  {
    var batch := GetBatch(base, es, Some(last), size, should);
    BatchIsBehind(base, es, last, size, should);
    if batch != [] {
      var next := batch[|batch| - 1];
      assert next in batch;
      UnlinkingShrinks(base, es, last, size, should);
      DeletedAreBehind(base, Unlinked(base, es, Names(batch)), next, size, should);
      BothBehind(batch, DeletingCycle(base, Unlinked(base, es, Names(batch)), next, size, should), last, next);
    }
  }

  lemma BothBehind(batch: seq<Name>, others: seq<Name>, last: Name, next: Name)
    requires next in batch && (forall f :: f in batch ==> Less(last, f)) && (forall f :: f in others ==> Less(next, f))
    ensures forall f :: f in batch + others ==> Less(last, f)
  {
    forall f | f in others ensures Less(last, f) {
      LessIsStrict(last, next, f);
    }
  }

  lemma DeletingMisses(base: Name, es: Entries, last: Name, should: ShouldDelete, i: nat, j: nat)
    requires var left := Behind(Dfs(base, es), last, should); i < j < |left| && !Less(left[i], left[j])
    ensures DeletingCycle(base, es, last, i + 1, should) != Behind(Dfs(base, es), last, should)
  {
    var left := Behind(Dfs(base, es), last, should);
    BatchIsNext(base, es, last, i + 1, should);
    var batch := GetBatch(base, es, Some(last), i + 1, should);
    TakeIsPrefix(i + 1, left, i + 1);
    UnlinkingShrinks(base, es, last, i + 1, should);
    DeletedAreBehind(base, Unlinked(base, es, Names(batch)), left[i], i + 1, should);
    MissingAt(left, DeletingCycle(base, Unlinked(base, es, Names(batch)), left[i], i + 1, should), i, j);
  }

  /**
   Coverage survives the deletions: unlinking each batch before looking for the next, a cycle hands out every
   deletable file exactly once, in depth-first order, for every batch size exactly when depth-first order is ascending
   string order.
   */
  lemma DeletingCoversExactlyAscending(base: Name, es: Entries, should: ShouldDelete)
    ensures (forall size: nat :: size > 0 ==>
      DeletingCycle(base, es, base, size, should) == Deletable(base, es, should))
      <==> Ascending(Deletable(base, es, should))
  {
    var all := Deletable(base, es, should);
    if Ascending(all) {
      forall size: nat | size > 0 ensures DeletingCycle(base, es, base, size, should) == all {
        DeletingCovers(base, es, base, size, should);
      }
    } else {
      var i, j :| 0 <= i < j < |all| && !Less(all[i], all[j]);
      DeletingMisses(base, es, base, should, i, j);
    }
  }
}
