/**
 The fork walk of the block importer, over the height-indexed view of the chain index.
 `Walk` reads the index as it was when the import began: a walk only ever looks below the heights
 it has reset, so the resets it makes never change what it reads (see BlockImporter).
 */
module ForkWalk {
  import opened Options
  import opened Chain

  datatype Outcome = Found(fetched: Fetched) | SourceFailed | DepthExceeded

  /** The reset targets in the order they are issued, and how the walk ends. */
  datatype WalkResult = WalkResult(resets: seq<int>, outcome: Outcome)

  /** A gap, or a fork: the block below `height` is absent or is not the one `b` names. */
  predicate Mismatch(ix: Index, height: nat, b: Block)
    requires height > 0
  {
    height - 1 !in ix || b.previous != Some(ix[height - 1].hash)
  }

  function Walk(ix: Index, start: nat, src: Source, height: nat, depth: nat): WalkResult
    requires depth <= MAX_FORK_DEPTH + 1
    decreases MAX_FORK_DEPTH + 1 - depth
  {
    if depth > MAX_FORK_DEPTH then WalkResult([], DepthExceeded)
    else match src(height)
      case None => WalkResult([], SourceFailed)
      case Some(fetched) =>
        if height > start && Mismatch(ix, height, fetched.block) then
          var below := Walk(ix, start, src, height - 1, depth + 1);
          WalkResult([height - 2] + below.resets, below.outcome)
        else WalkResult([], Found(fetched))
  }

  function ResetAll(ix: Index, resets: seq<int>): Index {
    if resets == [] then ix else ResetAll(Truncate(ix, resets[0]), resets[1..])
  }

  /** `saveBlockAndTxs`: a block whose hash is already stored is ignored. */
  function Save(ix: Index, b: Block): Index {
    if exists h :: h in ix && ix[h].hash == b.hash then ix else ix[b.height := b]
  }

  function AfterWalk(ix: Index, w: WalkResult): Index {
    var cut := ResetAll(ix, w.resets);
    match w.outcome
    case Found(fetched) => Save(cut, fetched.block)
    case _ => cut
  }

  function Import(ix: Index, start: nat, src: Source, height: nat): Index {
    AfterWalk(ix, Walk(ix, start, src, height, 0))
  }

  /** Every value the index takes while one import runs: after each reset, and after the save. */
  ghost function ImportStates(ix: Index, start: nat, src: Source, height: nat): seq<Index> {
    var w := Walk(ix, start, src, height, 0);
    seq(|w.resets| + 1, i requires 0 <= i <= |w.resets| => ResetAll(ix, w.resets[..i])) + [AfterWalk(ix, w)]
  }

  /** `selectMaxHeight`, -1 on an empty index. */
  ghost function MaxHeight(ix: Index): (m: int)
    ensures ix == map[] ==> m == -1
    ensures ix != map[] ==> m in ix && forall h :: h in ix ==> h <= m
  {
    if ix == map[] then -1 else
      MaxKeyExists(ix);
      var m :| m in ix && forall h :: h in ix ==> h <= m; m
  }

  lemma {:induction false} MaxKeyExists(ix: Index)
    requires ix != map[]
    ensures exists m :: m in ix && forall h :: h in ix ==> h <= m
    decreases |ix|
  {
    var k :| k in ix;
    var rest := map h | h in ix && h != k :: ix[h];
    assert rest.Keys == ix.Keys - {k};
    assert forall h :: h in ix ==> h == k || h in rest;
    if rest == map[] {
      assert k in ix && forall h :: h in ix ==> h <= k;
    } else {
      MaxKeyExists(rest);
      var m :| m in rest && forall h :: h in rest ==> h <= m;
      var top := if m < k then k else m;
      assert top in ix && forall h :: h in ix ==> h <= top;
    }
  }

  /** The height `start` imports next. */
  ghost function NextHeight(ix: Index, start: nat): nat {
    var next := MaxHeight(ix) + 1;
    if next == 0 && start != 0 then start else next
  }

  lemma NextIsAboveTheTop(ix: Index, start: nat, next: nat)
    requires Contiguous(ix, start, next)
    ensures NextHeight(ix, start) == next
  {
    if start < next {
      assert next - 1 in ix;
    } else {
      assert ix.Keys == {};
      assert ix == map[];
    }
  }

  // ---------------------------------------------------------------- what a walk does

  /**
   What is true of a walk from `height` that starts at `depth`: reset `i` goes to `height-2-i` and
   was forced by a mismatch, there are at most 51 of them, and the walk stops at the first height
   whose parent is the indexed one, at `start`, on a failed request, or past the depth limit.
   */
  ghost predicate IsWalk(ix: Index, start: nat, src: Source, height: nat, depth: nat, w: WalkResult) {
    var n := |w.resets|;
    && n <= height && depth + n <= MAX_FORK_DEPTH + 1
    && (n > 0 ==> start <= height - n)
    && (forall i :: 0 <= i < n ==> w.resets[i] == height - 2 - i && Forced(ix, src, height - i))
    && match w.outcome {
         case Found(fetched) =>
           && depth + n <= MAX_FORK_DEPTH && src(height - n) == Some(fetched)
           && (height - n > start ==> !Mismatch(ix, height - n, fetched.block))
         case SourceFailed => depth + n <= MAX_FORK_DEPTH && src(height - n).None?
         case DepthExceeded => depth + n == MAX_FORK_DEPTH + 1
       }
  }

  ghost predicate Forced(ix: Index, src: Source, height: nat) {
    height > 0 && src(height).Some? && Mismatch(ix, height, src(height).value.block)
  }

  lemma {:induction false} WalkShape(ix: Index, start: nat, src: Source, height: nat, depth: nat)
    requires depth <= MAX_FORK_DEPTH + 1
    ensures IsWalk(ix, start, src, height, depth, Walk(ix, start, src, height, depth))
    decreases MAX_FORK_DEPTH + 1 - depth
  {
    if depth <= MAX_FORK_DEPTH && height > start && Forced(ix, src, height) {
      WalkShape(ix, start, src, height - 1, depth + 1);
      var w, below := Walk(ix, start, src, height, depth), Walk(ix, start, src, height - 1, depth + 1);
      forall i | 0 <= i < |w.resets| ensures w.resets[i] == height - 2 - i && Forced(ix, src, height - i) {
        if i > 0 {
          assert w.resets[i] == below.resets[i - 1] && height - 1 - (i - 1) == height - i;
        }
      }
    }
  }

  /** The resets of a walk only deepen, so together they amount to the last one. */
  lemma {:induction false} ResetsAmountToTheLast(ix: Index, resets: seq<int>, height: int)
    requires forall i :: 0 <= i < |resets| ==> resets[i] == height - 2 - i
    ensures ResetAll(ix, resets) == if resets == [] then ix else Truncate(ix, height - 1 - |resets|)
    decreases |resets|
  {
    if resets != [] {
      ResetsAmountToTheLast(Truncate(ix, resets[0]), resets[1..], height - 1);
    }
  }

  /** The index after the first `k` resets of a walk. */
  function Cut(ix: Index, height: nat, k: nat): Index {
    if k == 0 then ix else Truncate(ix, height - 1 - k)
  }

  lemma AfterResets(ix: Index, start: nat, src: Source, height: nat, w: WalkResult, k: nat)
    requires IsWalk(ix, start, src, height, 0, w) && k <= |w.resets|
    ensures ResetAll(ix, w.resets[..k]) == Cut(ix, height, k)
    ensures k == |w.resets| ==> ResetAll(ix, w.resets) == Cut(ix, height, k)
  {
    ResetsAmountToTheLast(ix, w.resets[..k], height);
    ResetsAmountToTheLast(ix, w.resets, height);
  }

  // ---------------------------------------------------------------- the linked-chain invariant

  function Lower(next: nat, height: nat, k: nat): nat
    requires k <= height
  {
    if height - k < next then height - k else next
  }

  /** What is left of the index after the first `k` resets of a walk is still a linked chain, with a known top. */
  lemma CutIsLinked(ix: Index, start: nat, next: nat, height: nat, k: nat)
    requires LinkedChain(ix, start, next) && next <= height && k <= height && (k > 0 ==> start <= height - k)
    ensures LinkedChain(Cut(ix, height, k), start, Lower(next, height, k))
  {
  }

  /** A walk that finds its block finds it directly above what is left of the index. */
  lemma LandsOnTheTop(ix: Index, start: nat, next: nat, src: Source, height: nat, w: WalkResult)
    requires LinkedChain(ix, start, next) && CarriesHeight(src) && next <= height
    requires IsWalk(ix, start, src, height, 0, w) && w.outcome.Found?
    ensures var n := |w.resets|; var cut := Cut(ix, height, n); var b := w.outcome.fetched.block;
      && start <= height - n && b.height == height - n
      && LinkedChain(cut, start, height - n)
      && (height - n > start ==> b.previous == Some(cut[height - n - 1].hash))
  {
    var n := |w.resets|;
    CutIsLinked(ix, start, next, height, n);
    if height - n > start {
      assert !Mismatch(ix, height - n, w.outcome.fetched.block);
    }
  }

  /** Saving on top of an index that already holds the parent (or at the very first height). */
  lemma SaveKeepsLinkedChain(ix: Index, start: nat, next: nat, b: Block)
    requires LinkedChain(ix, start, next) && b.height == next
    requires next > start ==> b.previous == Some(ix[next - 1].hash)
    ensures IsLinkedChain(Save(ix, b), start)
  {
    assert LinkedChain(Save(ix, b), start, next) || LinkedChain(Save(ix, b), start, next + 1);
  }

  lemma AfterWalkIsLinked(ix: Index, start: nat, next: nat, src: Source, height: nat, w: WalkResult)
    requires LinkedChain(ix, start, next) && CarriesHeight(src) && next <= height
    requires IsWalk(ix, start, src, height, 0, w)
    ensures IsLinkedChain(AfterWalk(ix, w), start)
  {
    AfterResets(ix, start, src, height, w, |w.resets|);
    if w.outcome.Found? {
      LandsOnTheTop(ix, start, next, src, height, w);
      SaveKeepsLinkedChain(Cut(ix, height, |w.resets|), start, height - |w.resets|, w.outcome.fetched.block);
    } else {
      CutIsLinked(ix, start, next, height, |w.resets|);
    }
  }

  /** One import above the tip: every state it passes through keeps the invariant, whatever the source says. */
  lemma ImportKeepsLinkedChain(ix: Index, start: nat, next: nat, src: Source, height: nat)
    requires LinkedChain(ix, start, next) && CarriesHeight(src) && next <= height
    ensures var states := ImportStates(ix, start, src, height);
      forall i :: 0 <= i < |states| ==> IsLinkedChain(states[i], start)
  {
    var w := Walk(ix, start, src, height, 0);
    WalkShape(ix, start, src, height, 0);
    var states := ImportStates(ix, start, src, height);
    forall i | 0 <= i < |states| ensures IsLinkedChain(states[i], start) {
      if i <= |w.resets| {
        AfterResets(ix, start, src, height, w, i);
        CutIsLinked(ix, start, next, height, i);
      } else {
        AfterWalkIsLinked(ix, start, next, src, height, w);
      }
    }
  }

  /** A walk from `height` makes at most 51 resets, and no state it passes through loses a height up to `height-52`. */
  lemma WalkIsBounded(ix: Index, start: nat, src: Source, height: nat)
    requires CarriesHeight(src)
    ensures |Walk(ix, start, src, height, 0).resets| <= MAX_FORK_DEPTH + 1
    ensures var states := ImportStates(ix, start, src, height);
      forall i, h :: 0 <= i < |states| && h in ix && h <= height - (MAX_FORK_DEPTH + 2) ==>
        h in states[i] && states[i][h] == ix[h]
  {
    var w := Walk(ix, start, src, height, 0);
    WalkShape(ix, start, src, height, 0);
    var states := ImportStates(ix, start, src, height);
    forall i, h | 0 <= i < |states| && h in ix && h <= height - (MAX_FORK_DEPTH + 2)
      ensures h in states[i] && states[i][h] == ix[h]
    {
      AfterResets(ix, start, src, height, w, if i < |w.resets| then i else |w.resets|);
    }
  }

  // ---------------------------------------------------------------- whole runs

  /** `start`: one import after another, each at the height above the tip. */
  ghost function Run(ix: Index, start: nat, srcs: seq<Source>): Index
    decreases |srcs|
  {
    if srcs == [] then ix else Run(Import(ix, start, srcs[0], NextHeight(ix, start)), start, srcs[1..])
  }

  ghost function RunStates(ix: Index, start: nat, srcs: seq<Source>): seq<Index>
    decreases |srcs|
  {
    if srcs == [] then [ix] else
      var height := NextHeight(ix, start);
      ImportStates(ix, start, srcs[0], height) + RunStates(Import(ix, start, srcs[0], height), start, srcs[1..])
  }

  ghost predicate AllLinked(states: seq<Index>, start: nat) {
    forall i :: 0 <= i < |states| ==> IsLinkedChain(states[i], start)
  }

  /**
   Every state reached by `start` is gap-free from `start` and hash-linked, for any sources that carry their heights.
   */
  lemma {:induction false} RunKeepsLinkedChain(ix: Index, start: nat, srcs: seq<Source>)
    requires IsLinkedChain(ix, start) && forall i :: 0 <= i < |srcs| ==> CarriesHeight(srcs[i])
    ensures AllLinked(RunStates(ix, start, srcs), start) && IsLinkedChain(Run(ix, start, srcs), start)
    decreases |srcs|
  {
    if srcs != [] {
      var ix' := StepKeepsLinkedChain(ix, start, srcs[0]);
      RunKeepsLinkedChain(ix', start, srcs[1..]);
    }
  }

  lemma StepKeepsLinkedChain(ix: Index, start: nat, src: Source) returns (ix': Index)
    requires IsLinkedChain(ix, start) && CarriesHeight(src)
    ensures ix' == Import(ix, start, src, NextHeight(ix, start))
    ensures AllLinked(ImportStates(ix, start, src, NextHeight(ix, start)), start) && IsLinkedChain(ix', start)
  {
    var next :| LinkedChain(ix, start, next);
    NextIsAboveTheTop(ix, start, next);
    ImportKeepsLinkedChain(ix, start, next, src, next);
    ix' := Import(ix, start, src, next);
    var states := ImportStates(ix, start, src, next);
    assert states[|states| - 1] == ix';
  }
}
