/** Over one fixed chain the importer ends up with exactly that chain. */
module Convergence {
  import opened Integers
  import opened Options
  import opened Chain
  import opened ForkWalk

  /** `c` is where the index and `s` part: equal below, different at `c` unless the index ends there. */
  ghost predicate ForkPoint(ix: Index, start: nat, next: nat, s: seq<Block>, c: nat) {
    && start <= c <= next <= |s|
    && AgreesBelow(ix, s, c)
    && (c < next ==> c in ix && ix[c] != s[c])
  }

  /** On the fork the walk is sent down, and at the fork point it stops. */
  lemma MismatchAboveForkPoint(ix: Index, start: nat, next: nat, s: seq<Block>, c: nat, h: nat)
    requires LinkedChain(ix, start, next) && ValidChain(s) && HashesAgree(ix, s) && ForkPoint(ix, start, next, s, c)
    requires start < h <= next < |s|
    ensures Mismatch(ix, h, s[h]) <==> h > c
  {
    assert h - 1 in ix;
    assert s[h].previous == Some(s[h - 1].hash);
    if h > c && ix[h - 1].hash == s[h - 1].hash {
      AgreementIsDownwardClosed(ix, start, next, s, h - 1);
    }
  }

  /** Every reset of the walk was forced above the fork point. */
  lemma WalkStaysAboveForkPoint(ix: Index, start: nat, next: nat, s: seq<Block>, src: Source, c: nat, w: WalkResult)
    requires LinkedChain(ix, start, next) && ValidChain(s) && HashesAgree(ix, s) && ForkPoint(ix, start, next, s, c)
    requires Serves(src, s) && next < |s| && IsWalk(ix, start, src, next, 0, w)
    ensures |w.resets| <= next - c
  {
    var n := |w.resets|;
    if n > 0 {
      assert w.resets[n - 1] == next - 1 - n && Forced(ix, src, next - (n - 1));
      MismatchAboveForkPoint(ix, start, next, s, c, next - (n - 1));
    }
  }

  /** How far the walk goes: to the fork point if that is at most 50 down, past the depth limit otherwise. */
  lemma WalkReachesForkPoint(ix: Index, start: nat, next: nat, s: seq<Block>, src: Source, c: nat, w: WalkResult)
    requires LinkedChain(ix, start, next) && ValidChain(s) && HashesAgree(ix, s) && ForkPoint(ix, start, next, s, c)
    requires Serves(src, s) && next < |s| && IsWalk(ix, start, src, next, 0, w)
    ensures next - c <= MAX_FORK_DEPTH ==> |w.resets| == next - c && w.outcome.Found? && w.outcome.fetched.block == s[c]
    ensures next - c > MAX_FORK_DEPTH ==> |w.resets| == MAX_FORK_DEPTH + 1 && w.outcome.DepthExceeded?
  {
    var n := |w.resets|;
    WalkStaysAboveForkPoint(ix, start, next, s, src, c, w);
    if w.outcome.Found? && next - n > start {
      MismatchAboveForkPoint(ix, start, next, s, c, next - n);
    }
  }

  /**
   One import over chain `s`, which is taller than the index: if the fork is at most 50 deep the index
   becomes exactly the blocks of `s` up to and including the fork point; otherwise the import gives up.
   */
  lemma ImportExtendsAgreement(ix: Index, start: nat, next: nat, s: seq<Block>, src: Source, c: nat)
    requires LinkedChain(ix, start, next) && ValidChain(s) && HashesAgree(ix, s) && ForkPoint(ix, start, next, s, c)
    requires Serves(src, s) && next < |s|
    ensures Import(ix, start, src, next) == Slice(s, start, c + 1) <==> next - c <= MAX_FORK_DEPTH
  {
    var w := Walk(ix, start, src, next, 0);
    WalkShape(ix, start, src, next, 0);
    AfterWalkOverChain(ix, start, next, s, src, c, w);
  }

  lemma AfterWalkOverChain(ix: Index, start: nat, next: nat, s: seq<Block>, src: Source, c: nat, w: WalkResult)
    requires LinkedChain(ix, start, next) && ValidChain(s) && HashesAgree(ix, s) && ForkPoint(ix, start, next, s, c)
    requires Serves(src, s) && next < |s| && IsWalk(ix, start, src, next, 0, w)
    ensures AfterWalk(ix, w) == Slice(s, start, c + 1) <==> next - c <= MAX_FORK_DEPTH
  {
    WalkReachesForkPoint(ix, start, next, s, src, c, w);
    AfterResets(ix, start, src, next, w, |w.resets|);
    if next - c <= MAX_FORK_DEPTH {
      CutThenSave(ix, start, next, s, c);
    } else {
      CutMissesForkPoint(ix, start, next, s, c, |w.resets|);
    }
  }

  lemma CutMissesForkPoint(ix: Index, start: nat, next: nat, s: seq<Block>, c: nat, n: nat)
    requires ForkPoint(ix, start, next, s, c) && c < |s|
    requires c < next
    ensures Cut(ix, next, n) != Slice(s, start, c + 1)
  {
    assert c in Slice(s, start, c + 1);
    assert c !in Cut(ix, next, n) || Cut(ix, next, n)[c] == ix[c];
  }

  lemma CutThenSave(ix: Index, start: nat, next: nat, s: seq<Block>, c: nat)
    requires LinkedChain(ix, start, next) && ValidChain(s) && HashesAgree(ix, s) && ForkPoint(ix, start, next, s, c)
    requires next < |s|
    ensures Save(Cut(ix, next, next - c), s[c]) == Slice(s, start, c + 1)
  {
    var cut := Cut(ix, next, next - c);
    assert forall h :: h in cut <==> start <= h < c;
    assert forall h :: h in cut ==> cut[h] == s[h] && cut[h].hash != s[c].hash;
  }

  ghost predicate HashesDistinct(s: seq<Block>) {
    forall i, j :: 0 <= i < |s| && 0 <= j < |s| && s[i].hash == s[j].hash ==> i == j
  }

  lemma SliceIsLinked(s: seq<Block>, start: nat, c: nat)
    requires ValidChain(s) && HashesDistinct(s) && start <= c <= |s|
    ensures LinkedChain(Slice(s, start, c), start, c) && HashesAgree(Slice(s, start, c), s)
  {
  }

  lemma PrefixStep(s: seq<Block>, start: nat, c: nat, src: Source)
    requires ValidChain(s) && HashesDistinct(s) && start <= c <= |s| && Serves(src, s)
    ensures var ix := Slice(s, start, c);
      Import(ix, start, src, NextHeight(ix, start)) == Slice(s, start, Min(c + 1, |s|))
  {
    var ix := Slice(s, start, c);
    SliceIsLinked(s, start, c);
    NextIsAboveTheTop(ix, start, c);
    if c < |s| {
      ImportExtendsAgreement(ix, start, c, s, src, c);
    } else {
      ShorterChainChangesNothing(ix, start, c, s, src);
    }
  }

  /** Once the index is a prefix of `s`, each import adds one block until it equals `s` up to its tip. */
  lemma {:induction false} PrefixGrowsToTip(s: seq<Block>, start: nat, c: nat, srcs: seq<Source>)
    requires ValidChain(s) && HashesDistinct(s) && start <= c <= |s|
    requires forall i :: 0 <= i < |srcs| ==> Serves(srcs[i], s)
    ensures Run(Slice(s, start, c), start, srcs) == Slice(s, start, Min(c + |srcs|, |s|))
    decreases |srcs|
  {
    if srcs != [] {
      PrefixStep(s, start, c, srcs[0]);
      PrefixGrowsToTip(s, start, Min(c + 1, |s|), srcs[1..]);
    }
  }

  /** Convergence: after the first import the index is a prefix of `s`, and it grows by one block an import. */
  lemma Converges(ix: Index, start: nat, next: nat, s: seq<Block>, c: nat, srcs: seq<Source>)
    requires LinkedChain(ix, start, next) && ValidChain(s) && HashesDistinct(s) && HashesAgree(ix, s)
    requires ForkPoint(ix, start, next, s, c) && next - c <= MAX_FORK_DEPTH && next < |s|
    requires srcs != [] && forall i :: 0 <= i < |srcs| ==> Serves(srcs[i], s)
    ensures Run(ix, start, srcs) == Slice(s, start, Min(c + |srcs|, |s|))
  {
    NextIsAboveTheTop(ix, start, next);
    ImportExtendsAgreement(ix, start, next, s, srcs[0], c);
    PrefixGrowsToTip(s, start, c + 1, srcs[1..]);
  }

  /** A source no taller than the index is never imported from: the fork, if any, stays until it grows. */
  lemma ShorterChainChangesNothing(ix: Index, start: nat, next: nat, s: seq<Block>, src: Source)
    requires Contiguous(ix, start, next) && Serves(src, s) && |s| <= next
    ensures Import(ix, start, src, NextHeight(ix, start)) == ix
  {
    NextIsAboveTheTop(ix, start, next);
    assert src(next).None?;
  }
}
