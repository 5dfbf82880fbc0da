/** The min-heap of out-of-order segments (pkg/tcpStack/earlyArrivals.go), with the sifting
    that Go's container/heap performs through the Less/Swap/Push/Pop interface. */
module EarlyArrivalHeap {
  import opened Words

  datatype EarlyArrival = EarlyArrival(startSeq: uint32, endSeq: uint32, data: seq<byte>)

  type Heap = seq<EarlyArrival>

  function Parent(j: nat): nat {
    if j == 0 then 0 else (j - 1) / 2
  }

  predicate ChildOf(i: nat, c: nat) {
    c == 2 * i + 1 || c == 2 * i + 2
  }

  predicate Less(h: Heap, i: nat, j: nat)
    requires i < |h| && j < |h|
  {
    h[i].startSeq < h[j].startSeq
  }

  function Swap(h: Heap, i: nat, j: nat): Heap
    requires i < |h| && j < |h|
  {
    h[i := h[j]][j := h[i]]
  }

  /** The order container/heap keeps on the first n cells. */
  ghost predicate IsHeap(h: Heap, n: nat)
    requires n <= |h|
  {
    forall i: nat, c: nat :: ChildOf(i, c) && c < n ==> h[i].startSeq <= h[c].startSeq
  }

  /** Sifts cell j towards the root. */
  function Up(h: Heap, j: nat): (r: Heap)
    requires j < |h|
    ensures |r| == |h|
    decreases j
  {
    var i := Parent(j);
    if i == j || !Less(h, j, i) then h else Up(Swap(h, i, j), i)
  }

  /** The smaller child of cell i among the first n cells. */
  function MinChild(h: Heap, i: nat, n: nat): nat
    requires 2 * i + 1 < n <= |h|
  {
    if 2 * i + 2 < n && Less(h, 2 * i + 2, 2 * i + 1) then 2 * i + 2 else 2 * i + 1
  }

  /** Sifts cell i away from the root among the first n cells. */
  function Down(h: Heap, i: nat, n: nat): (r: Heap)
    requires n <= |h|
    ensures |r| == |h|
    decreases n - i
  {
    if 2 * i + 1 >= n then h
    else
      var j := MinChild(h, i, n);
      if !Less(h, j, i) then h else Down(Swap(h, i, j), j, n)
  }

  /** heap.Push. */
  function PushHeap(h: Heap, x: EarlyArrival): Heap {
    Up(h + [x], |h|)
  }

  /** What heap.Pop leaves behind; what it returns is h[0]. */
  function PopHeap(h: Heap): Heap
    requires h != []
  {
    Down(Swap(h, 0, |h| - 1), 0, |h| - 1)[..|h| - 1]
  }

  // ---- sifting permutes ----

  lemma SwapPermutes(h: Heap, i: nat, j: nat)
    requires i < |h| && j < |h|
    ensures multiset(Swap(h, i, j)) == multiset(h)
  {
  }

  lemma {:induction false} UpPermutes(h: Heap, j: nat)
    requires j < |h|
    ensures multiset(Up(h, j)) == multiset(h)
    decreases j
  {
    var i := Parent(j);
    if i != j && Less(h, j, i) {
      SwapPermutes(h, i, j);
      UpPermutes(Swap(h, i, j), i);
    }
  }

  lemma {:induction false} DownPermutes(h: Heap, i: nat, n: nat)
    requires n <= |h|
    ensures multiset(Down(h, i, n)) == multiset(h)
    ensures Down(h, i, n)[n..] == h[n..]
    decreases n - i
  {
    if 2 * i + 1 < n {
      var j := MinChild(h, i, n);
      if Less(h, j, i) {
        SwapPermutes(h, i, j);
        DownPermutes(Swap(h, i, j), j, n);
      }
    }
  }

  // ---- sifting restores heap order ----

  /** Heap order holds except possibly above j, and j's children already fit under j's parent. */
  ghost predicate HeapExceptAbove(h: Heap, j: nat)
    requires j < |h|
  {
    && (forall i: nat, c: nat :: ChildOf(i, c) && c < |h| && c != j ==> h[i].startSeq <= h[c].startSeq)
    && (forall i: nat, c: nat :: ChildOf(i, j) && ChildOf(j, c) && c < |h| ==> h[i].startSeq <= h[c].startSeq)
  }

  lemma {:induction false} UpRestores(h: Heap, j: nat)
    requires j < |h| && HeapExceptAbove(h, j)
    ensures IsHeap(Up(h, j), |h|)
    decreases j
  {
    var i := Parent(j);
    if i != j {
      assert ChildOf(i, j);
      if Less(h, j, i) {
        UpRestores(Swap(h, i, j), i);
      }
    }
  }

  /** Heap order holds on the first n cells except possibly below i, and i's children already
      fit under i's parent. */
  ghost predicate HeapExceptBelow(h: Heap, i: nat, n: nat)
    requires n <= |h|
  {
    && (forall p: nat, c: nat :: ChildOf(p, c) && c < n && p != i ==> h[p].startSeq <= h[c].startSeq)
    && (forall p: nat, c: nat :: ChildOf(p, i) && ChildOf(i, c) && c < n ==> h[p].startSeq <= h[c].startSeq)
  }

  lemma DownStep(h: Heap, i: nat, n: nat, j: nat)
    requires n <= |h| && HeapExceptBelow(h, i, n) && 2 * i + 1 < n
    requires j == MinChild(h, i, n) && Less(h, j, i)
    ensures HeapExceptBelow(Swap(h, i, j), j, n)
  {
    var g := Swap(h, i, j);
    assert ChildOf(i, j);
    forall p: nat, c: nat | ChildOf(p, c) && c < n && p != j ensures g[p].startSeq <= g[c].startSeq {
      if c == i {
        assert ChildOf(p, i) && ChildOf(i, j);
      }
    }
  }

  lemma {:induction false} DownRestores(h: Heap, i: nat, n: nat)
    requires n <= |h| && HeapExceptBelow(h, i, n)
    ensures IsHeap(Down(h, i, n), n)
    decreases n - i
  {
    if 2 * i + 1 < n {
      var j := MinChild(h, i, n);
      if Less(h, j, i) {
        DownStep(h, i, n, j);
        DownRestores(Swap(h, i, j), j, n);
      } else {
        DownDone(h, i, n);
      }
    }
  }

  lemma DownDone(h: Heap, i: nat, n: nat)
    requires n <= |h| && HeapExceptBelow(h, i, n) && 2 * i + 1 < n && !Less(h, MinChild(h, i, n), i)
    ensures IsHeap(h, n)
  {
  }

  /** The root is a smallest element. */
  lemma {:induction false} RootIsMin(h: Heap, k: nat)
    requires IsHeap(h, |h|) && k < |h|
    ensures h[0].startSeq <= h[k].startSeq
    decreases k
  {
    if k > 0 {
      assert ChildOf(Parent(k), k);
      RootIsMin(h, Parent(k));
    }
  }

  lemma RootIsMinEverywhere(h: Heap)
    requires h != []
    ensures IsHeap(h, |h|) ==> forall k :: 0 <= k < |h| ==> h[0].startSeq <= h[k].startSeq
  {
    if IsHeap(h, |h|) {
      forall k | 0 <= k < |h| ensures h[0].startSeq <= h[k].startSeq {
        RootIsMin(h, k);
      }
    }
  }

  /** Pushing keeps the heap order and adds exactly one element. */
  lemma PushKeepsHeap(h: Heap, x: EarlyArrival)
    requires IsHeap(h, |h|)
    ensures var r := PushHeap(h, x);
      IsHeap(r, |r|) && multiset(r) == multiset(h) + multiset{x} && |r| == |h| + 1
  {
    UpPermutes(h + [x], |h|);
    UpRestores(h + [x], |h|);
  }

  /** Popping keeps the heap order, removes exactly one occurrence of the root, and the root
      was a smallest element. */
  lemma PopRemovesMin(h: Heap)
    requires h != [] && IsHeap(h, |h|)
    ensures var r := PopHeap(h);
      && IsHeap(r, |r|) && |r| == |h| - 1
      && multiset(h) == multiset(r) + multiset{h[0]}
      && (forall e :: e in h ==> h[0].startSeq <= e.startSeq)
  {
    var n := |h| - 1;
    var s := Swap(h, 0, n);
    SwappedRoot(h);
    DownRestores(s, 0, n);
    PopPermutes(h);
    forall e | e in h ensures h[0].startSeq <= e.startSeq {
      var k :| 0 <= k < |h| && h[k] == e;
      RootIsMin(h, k);
    }
  }

  lemma SwappedRoot(h: Heap)
    requires h != [] && IsHeap(h, |h|)
    ensures HeapExceptBelow(Swap(h, 0, |h| - 1), 0, |h| - 1)
  {
  }

  lemma PopPermutes(h: Heap)
    requires h != []
    ensures multiset(h) == multiset(PopHeap(h)) + multiset{h[0]}
  {
    var n := |h| - 1;
    var s := Swap(h, 0, n);
    SwapPermutes(h, 0, n);
    DownPermutes(s, 0, n);
    var d := Down(s, 0, n);
    assert d == d[..n] + d[n..] && d[n..] == s[n..] == [h[0]];
  }

  // ---- the class ----

  class EarlyArrivals {
    var segments: Heap

    constructor ()
      ensures segments == []
    {
      segments := [];
    }

    /** The first cell, without removing it. */
    function Peek(): (r: Option<EarlyArrival>)
      reads this
      ensures IsHeap(segments, |segments|) && r.Some? ==>
        forall k :: 0 <= k < |segments| ==> r.value.startSeq <= segments[k].startSeq
    {
      if |segments| == 0 then None else
        RootIsMinEverywhere(segments);
        Some(segments[0])
    }

    method SwapCells(i: nat, j: nat)
      requires i < |segments| && j < |segments|
      modifies this
      ensures segments == Swap(old(segments), i, j)
    {
      segments := segments[i := segments[j]][j := segments[i]];
    }

    /** heap.Push: append, then sift up. */
    method HeapPush(x: EarlyArrival)
      modifies this
      ensures segments == PushHeap(old(segments), x)
    {
      segments := segments + [x];
      var j: nat := |segments| - 1;
      while true
        invariant j < |segments|
        invariant Up(segments, j) == PushHeap(old(segments), x)
        decreases j
      {
        var i := Parent(j);
        if i == j || !Less(segments, j, i) {
          break;
        }
        SwapCells(i, j);
        j := i;
      }
    }

    /** heap.Pop: move the root to the end, sift the new root down, cut the end off. */
    method HeapPop() returns (item: EarlyArrival)
      requires segments != []
      modifies this
      ensures item == old(segments)[0] && segments == PopHeap(old(segments))
    {
      var n := |segments| - 1;
      SwapCells(0, n);
      var i := 0;
      ghost var sifted := Down(segments, 0, n);
      while true
        invariant i <= n && |segments| == n + 1 && segments[n] == old(segments)[0]
        invariant Down(segments, i, n) == sifted
        decreases n - i
      {
        var j1 := 2 * i + 1;
        if j1 >= n {
          break;
        }
        var j := j1;
        var j2 := j1 + 1;
        if j2 < n && Less(segments, j2, j1) {
          j := j2;
        }
        if !Less(segments, j, i) {
          break;
        }
        SwapCells(i, j);
        i := j;
      }
      item := segments[n];
      segments := segments[..n];
    }

    method PopMin() returns (item: Option<EarlyArrival>)
      modifies this
      ensures old(segments) == [] ==> item == None && segments == []
      ensures old(segments) != [] ==> item == Some(old(segments)[0]) && segments == PopHeap(old(segments))
    {
      if |segments| == 0 {
        return None;
      }
      var top := HeapPop();
      return Some(top);
    }

    /** Empty payloads are not stored. */
    method PushSegment(startSeq: uint32, data: seq<byte>)
      requires |data| < WORD
      modifies this
      ensures segments == if data == [] then old(segments)
        else PushHeap(old(segments), EarlyArrival(startSeq, Add32(startSeq, |data|), data))
    {
      if |data| == 0 {
        return;
      }
      HeapPush(EarlyArrival(startSeq, Add32(startSeq, |data|), data));
    }
  }
}
