/** The data preparation of one training step: the end-of-block symbol is
    inserted into the targets at every marker of the alignment, and each
    block's output length is read off the markers. */
module Training {
  import opened Markers
  import opened Expander
  import opened Driver

  /** The end-of-block symbol <e> of a vocabulary of the given size: the
      second-to-last index, as the code derives it from its vocabulary size. */
  function EndSymbol(vocab: nat): (e: int)
    ensures vocab >= 2 ==> 0 <= e < vocab
  {
    vocab - 2
  }

  /** Python's list.insert index: a negative index counts from the end, and the
      result is clamped to 0 .. n. */
  function InsertPoint(i: int, n: nat): (p: nat)
    ensures p <= n
    ensures 0 <= i <= n ==> p == i
    ensures i > n ==> p == n
    ensures -(n as int) <= i < 0 ==> p == i + n
    ensures i < -(n as int) ==> p == 0
  {
    if i < 0 then (if i + n < 0 then 0 else i + n)
    else if i > n then n
    else i
  }

  /** The list after Python's `s.insert(i, v)`. */
  function ListInsert<T>(s: seq<T>, i: int, v: T): (r: seq<T>)
    ensures |r| == |s| + 1
  {
    var p := InsertPoint(i, |s|);
    s[..p] + [v] + s[p..]
  }

  /** Before the insertion point nothing moves, at it is v, after it everything
      moves one place up. */
  lemma ListInsertAt<T>(s: seq<T>, i: int, v: T)
    ensures var p, r := InsertPoint(i, |s|), ListInsert(s, i, v);
            && (forall k :: 0 <= k < p ==> r[k] == s[k])
            && r[p] == v
            && (forall k :: p < k < |r| ==> r[k] == s[k - 1])
  {
  }

  /** Removing what an insertion put in gives the list back. */
  lemma ListInsertRemove<T>(s: seq<T>, i: int, v: T)
    ensures var p := InsertPoint(i, |s|);
            var r := ListInsert(s, i, v);
            r[p] == v && r[..p] + r[p + 1..] == s
  {
    var p := InsertPoint(i, |s|);
    var r := ListInsert(s, i, v);
    assert r[..p] + r[p + 1..] == s;
  }

  /** How many markers are at most j, i.e. how many markers precede target j. */
  function CountUpTo(a: seq<int>, j: int): (c: nat)
    ensures c <= |a|
  {
    if a == [] then 0 else CountUpTo(a[..|a| - 1], j) + (if a[|a| - 1] <= j then 1 else 0)
  }

  /** The markers are sorted and each is a target index 0 .. T. */
  predicate MarkersInRange(a: seq<int>, targetsLength: int) {
    Sorted(a) && forall k :: 0 <= k < |a| ==> 0 <= a[k] <= targetsLength
  }

  /** Markers a[m..] all beyond j: no more than m markers are at most j. */
  lemma {:induction false} CountAtMost(a: seq<int>, j: int, m: nat)
    requires m <= |a| && forall k :: m <= k < |a| ==> a[k] > j
    ensures CountUpTo(a, j) <= m
    decreases |a|
  {
    if |a| > m {
      CountAtMost(a[..|a| - 1], j, m);
    }
  }

  /** Markers a[..m] all at most j: at least m markers are at most j. */
  lemma {:induction false} CountAtLeast(a: seq<int>, j: int, m: nat)
    requires m <= |a| && forall k :: 0 <= k < m ==> a[k] <= j
    ensures CountUpTo(a, j) >= m
    decreases |a|
  {
    if |a| > m {
      CountAtLeast(a[..|a| - 1], j, m);
    } else if m > 0 {
      CountAtLeast(a[..|a| - 1], j, m - 1);
    }
  }

  /** Marker slots and target slots never collide: marker k sits at a[k] + k and
      target j at j + CountUpTo(a, j). */
  lemma MarkerSlotsDisjoint(a: seq<int>, targetsLength: int, k: int, j: int)
    requires MarkersInRange(a, targetsLength) && 0 <= k < |a| && 0 <= j < targetsLength
    ensures a[k] + k != j + CountUpTo(a, j)
  {
    if j < a[k] {
      CountAtMost(a, j, k);
    } else {
      CountAtLeast(a, j, k + 1);
    }
  }

  /** After the first i insertions: marker k (k < i) at a[k] + k, and target j
      after the CountUpTo(a[..i], j) markers inserted before it. */
  predicate MarkerSlots(targets: seq<int>, a: seq<int>, eob: int, i: int, cur: seq<int>)
    requires MarkersInRange(a, |targets|) && 0 <= i <= |a| && |cur| == |targets| + i
  {
    && (forall k :: 0 <= k < i ==> cur[a[k] + k] == eob)
    && (forall j :: 0 <= j < |targets| ==> cur[j + CountUpTo(a[..i], j)] == targets[j])
  }

  /** More markers precede a later target. */
  lemma {:induction false} CountMonotone(a: seq<int>, j1: int, j2: int)
    requires j1 <= j2
    ensures CountUpTo(a, j1) <= CountUpTo(a, j2)
  {
    if a != [] {
      CountMonotone(a[..|a| - 1], j1, j2);
    }
  }

  /** The targets keep their order: target slots strictly increase with the target index. */
  lemma TargetSlotsIncreasing(a: seq<int>, j1: int, j2: int)
    requires j1 < j2
    ensures j1 + CountUpTo(a, j1) < j2 + CountUpTo(a, j2)
  {
    CountMonotone(a, j1, j2);
  }

  /** r is the targets with <e> inserted at the markers a: marker k at a[k] + k,
      and target j after the CountUpTo(a, j) markers that precede it. */
  predicate WithMarkers(targets: seq<int>, a: seq<int>, eob: int, r: seq<int>)
    requires MarkersInRange(a, |targets|)
  {
    && |r| == |targets| + |a|
    && (forall k :: 0 <= k < |a| ==> r[a[k] + k] == eob)
    && (forall j :: 0 <= j < |targets| ==> r[j + CountUpTo(a, j)] == targets[j])
  }

  /** One insertion of the marker loop keeps the marker and target slots. */
  lemma InsertMarkerStep(targets: seq<int>, a: seq<int>, eob: int, i: int, cur: seq<int>)
    requires MarkersInRange(a, |targets|) && 0 <= i < |a| && |cur| == |targets| + i
    requires MarkerSlots(targets, a, eob, i, cur)
    ensures MarkerSlots(targets, a, eob, i + 1, ListInsert(cur, a[i] + i, eob))
  {
    var p := a[i] + i;
    var next := ListInsert(cur, p, eob);
    assert InsertPoint(p, |cur|) == p;
    ListInsertAt(cur, p, eob);
    assert a[..i + 1][..i] == a[..i];
    forall j | 0 <= j < |targets| ensures next[j + CountUpTo(a[..i + 1], j)] == targets[j] {
      if j < a[i] {
        assert CountUpTo(a[..i + 1], j) == CountUpTo(a[..i], j);
      } else {
        CountAtLeast(a[..i], j, i);
      }
    }
  }

  /** Inserts the end-of-block symbol eob into the targets after the first e
      targets for every marker e, shifting each later insertion by the number
      of symbols already inserted. */
  method InsertMarkers(targets: seq<int>, alignment: seq<int>, eob: int) returns (expanded: seq<int>)
    ensures |expanded| == |targets| + |alignment|
    ensures MarkersInRange(alignment, |targets|) ==> WithMarkers(targets, alignment, eob, expanded)
  {
    ghost var ok := MarkersInRange(alignment, |targets|);
    expanded := targets;
    var offset := 0;
    for i := 0 to |alignment|
      invariant offset == i && |expanded| == |targets| + i
      invariant ok ==> MarkerSlots(targets, alignment, eob, i, expanded)
    {
      var e := alignment[i];
      if ok {
        InsertMarkerStep(targets, alignment, eob, i, expanded);
      }
      expanded := ListInsert(expanded, e + offset, eob);
      offset := offset + 1;
    }
    if ok {
      SlotsComplete(targets, alignment, eob, expanded);
    }
  }

  /** Once every marker has been inserted, the slots are those of WithMarkers. */
  lemma SlotsComplete(targets: seq<int>, a: seq<int>, eob: int, cur: seq<int>)
    requires MarkersInRange(a, |targets|) && |cur| == |targets| + |a|
    requires MarkerSlots(targets, a, eob, |a|, cur)
    ensures WithMarkers(targets, a, eob, cur)
  {
    assert a[..|a|] == a;
  }

  /** The lengths before marker k: the previous marker plus one <e> per earlier block. */
  lemma {:induction false} LengthsPrefixSum(a: seq<int>, lengths: seq<int>, k: nat)
    requires |lengths| == |a| && k <= |a|
    requires forall i :: 0 <= i < |a| ==> lengths[i] == a[i] - Prev(a, i) + 1
    ensures Sum(lengths[..k]) == Prev(a, k) + k
  {
    if k > 0 {
      LengthsPrefixSum(a, lengths, k - 1);
      assert lengths[..k][..k - 1] == lengths[..k - 1];
    }
  }

  /** The number of outputs of each block: its new targets plus the <e>, with
      the markers read after a leading 0. */
  method BlockLengths(alignment: seq<int>) returns (lengths: seq<int>)
    ensures |lengths| == |alignment|
    ensures forall k :: 0 <= k < |alignment| ==> lengths[k] == alignment[k] - Prev(alignment, k) + 1
    ensures Sum(lengths) == End(alignment) + |alignment|
  {
    var padded := [0] + alignment;
    lengths := [];
    for i := 1 to |padded|
      invariant |lengths| == i - 1
      invariant forall k :: 0 <= k < i - 1 ==> lengths[k] == alignment[k] - Prev(alignment, k) + 1
    {
      lengths := lengths + [padded[i] - padded[i - 1] + 1];
    }
    LengthsPrefixSum(alignment, lengths, |alignment|);
    assert lengths[..|alignment|] == lengths;
  }

  /** Where block k starts in the expanded targets: the lengths of the blocks before it. */
  function BlockStart(lengths: seq<int>, k: nat): int
    requires k <= |lengths|
  {
    Sum(lengths[..k])
  }

  /** What one training step feeds the network: the alignment, the targets with
      <e> inserted and the number of outputs of every block. */
  datatype TrainingData = TrainingData(alignment: seq<int>, targets: seq<int>, lengths: seq<int>)

  /** The data of one training step, or the alignment's error. */
  method ApplyTrainingStep<E(!new), S(!new)>(cfg: Config<E, S>, inputLength: nat, blockSize: nat,
                                             zeroEnc: E, zeroTrans: S)
    returns (r: Result<TrainingData>)
    requires ValidConfig(cfg)
    ensures var spec := AlignmentSpec(cfg, inputLength, blockSize, zeroEnc, zeroTrans);
            && (r.Ok? <==> spec.Ok?)
            && (r.Err? ==> r.error == spec.error)
            && (r.Ok? ==> r.value.alignment == spec.value)
    ensures r.Ok? ==>
              var T, a, d := |cfg.targets|, r.value.alignment, r.value;
              && |a| == |d.lengths| == inputLength / blockSize
              && MarkersInRange(a, T)
              && WithMarkers(cfg.targets, a, EndSymbol(cfg.vocab), d.targets)
              && (forall k :: 0 <= k < |a| ==> 1 <= d.lengths[k] <= cfg.maxWidth + 1)
              && (forall k :: 1 <= k <= |a| ==> BlockStart(d.lengths, k) == a[k - 1] + k)
              && Sum(d.lengths) == |d.targets|
  {
    var alignment := GetAlignment(cfg, inputLength, blockSize, zeroEnc, zeroTrans);
    if alignment.Err? {
      return Err(alignment.error);
    }
    AlignmentSpecOk(cfg, inputLength, blockSize, zeroEnc, zeroTrans);
    var a := alignment.value;
    StaircaseSorted(a, cfg.maxWidth);
    var expanded := InsertMarkers(cfg.targets, a, EndSymbol(cfg.vocab));
    var lengths := BlockLengths(a);
    forall k | 1 <= k <= |a| ensures BlockStart(lengths, k) == a[k - 1] + k {
      LengthsPrefixSum(a, lengths, k);
    }
    return Ok(TrainingData(a, expanded, lengths));
  }
}
