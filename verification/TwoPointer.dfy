/**
 * The two-pointer loop of RebalancedCluster on the balances alone: dst walks up from the
 * most deficient master, src walks down from the one with the largest surplus.
 */
module TwoPointer {
  import opened Basics
  import opened Nodes

  /** b has moved from start towards zero, and not past it. */
  predicate Towards(start: int, b: int) {
    if start <= 0 then start <= b <= 0 else 0 <= b <= start
  }

  /**
   * What holds whenever the loop guard is evaluated: everything outside dst..src is balanced,
   * everything strictly between is untouched, and the whole sums to zero.
   */
  ghost predicate Window(start: seq<int>, bs: seq<int>, dst: int, src: int) {
    && |bs| == |start| && Ascends(start) && Sum(bs) == 0
    && 0 <= dst <= src + 1 <= |bs|
    && (forall i :: 0 <= i < |bs| ==> Towards(start[i], bs[i]))
    && (forall i :: 0 <= i < |bs| && (i < dst || src < i) ==> bs[i] == 0)
    && (forall i :: dst < i < src ==> bs[i] == start[i])
  }

  lemma WindowAtStart(start: seq<int>)
    requires Ascends(start) && Sum(start) == 0
    ensures Window(start, start, 0, |start| - 1)
  {
  }

  /** The receiver has no surplus and the giver no deficit. */
  lemma EndsOpposed(start: seq<int>, bs: seq<int>, dst: int, src: int)
    requires Window(start, bs, dst, src) && dst < src
    ensures bs[dst] <= 0 <= bs[src]
  {
    assert start[dst] <= start[src];
    if bs[dst] > 0 {
      forall i | 0 <= i < |bs| ensures bs[i] >= 0 {
        assert i >= dst ==> start[dst] <= start[i];
      }
      SumDominates(bs, dst);
    }
    if bs[src] < 0 {
      forall i | 0 <= i < |bs| ensures bs[i] <= 0 {
        assert i <= src ==> start[i] <= start[src];
      }
      SumDominated(bs, src);
    }
  }

  function Moved(bs: seq<int>, dst: int, src: int): int
    requires 0 <= dst < |bs| && 0 <= src < |bs|
  {
    Min(Abs(bs[dst]), Abs(bs[src]))
  }

  function After(bs: seq<int>, dst: int, src: int): seq<int>
    requires 0 <= dst < src < |bs|
  {
    bs[dst := bs[dst] + Moved(bs, dst, src)][src := bs[src] - Moved(bs, dst, src)]
  }

  function NextDst(bs: seq<int>, dst: int, src: int): int
    requires 0 <= dst < src < |bs|
  {
    if After(bs, dst, src)[dst] == 0 then dst + 1 else dst
  }

  function NextSrc(bs: seq<int>, dst: int, src: int): int
    requires 0 <= dst < src < |bs|
  {
    if After(bs, dst, src)[src] == 0 then src - 1 else src
  }

  /** Each round balances an end, so the window shrinks and stays a window. */
  lemma WindowShrinks(start: seq<int>, bs: seq<int>, dst: int, src: int)
    requires Window(start, bs, dst, src) && dst < src
    ensures Window(start, After(bs, dst, src), NextDst(bs, dst, src), NextSrc(bs, dst, src))
    ensures NextSrc(bs, dst, src) - NextDst(bs, dst, src) < src - dst
    ensures Moved(bs, dst, src) > 0 ==> start[dst] < 0 < start[src] && Moved(bs, dst, src) <= bs[src]
  {
    EndsOpposed(start, bs, dst, src);
    MovedKeepsSum(bs, dst, src);
    AfterAt(bs, dst, src);
  }

  lemma MovedKeepsSum(bs: seq<int>, dst: int, src: int)
    requires 0 <= dst < src < |bs|
    ensures Sum(After(bs, dst, src)) == Sum(bs)
  {
    TransferKeepsSum(bs, After(bs, dst, src), dst, src, Moved(bs, dst, src));
  }

  lemma TransferKeepsSum(bs: seq<int>, next: seq<int>, dst: int, src: int, k: int)
    requires 0 <= dst < src < |bs| && next == bs[dst := bs[dst] + k][src := bs[src] - k]
    ensures Sum(next) == Sum(bs)
  {
    var mid := bs[dst := bs[dst] + k];
    SumUpdate(bs, dst, bs[dst] + k);
    assert mid[src] == bs[src];
    SumUpdate(mid, src, mid[src] - k);
  }

  /** The balances after a round between a receiver and a giver. */
  lemma AfterAt(bs: seq<int>, dst: int, src: int)
    requires 0 <= dst < src < |bs| && bs[dst] <= 0 <= bs[src]
    ensures var next, k := After(bs, dst, src), Moved(bs, dst, src);
      && |next| == |bs| && (forall i :: 0 <= i < |bs| && i != dst && i != src ==> next[i] == bs[i])
      && next[dst] == bs[dst] + k <= 0 <= bs[src] - k == next[src]
      && (next[dst] == 0 || next[src] == 0)
  {
  }

  lemma AllBalanced(start: seq<int>, bs: seq<int>, dst: int, src: int)
    requires Window(start, bs, dst, src) && dst >= src
    ensures forall i :: 0 <= i < |bs| ==> bs[i] == 0
  {
    if dst == src && dst < |bs| {
      SumUpdate(bs, dst, 0);
      SumConst(bs[dst := 0], 0);
    }
  }
}
