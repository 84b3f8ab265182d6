/** One round of the alignment search: every surviving alignment is extended by
    every legal number of outputs for the new block, each extension is scored
    by the transducer, and dominated candidates are pruned. */
module Expander {
  import opened Markers
  import opened Alignments
  import opened Pruning

  /** What one transducer run over a block gives back: one score row per
      output step, the new transducer state and the new encoder state. */
  datatype OracleResult<E, S> = OracleResult(outputs: seq<seq<int>>, transState: S, encState: E)

  /** The transducer run: (block index, encoder state, transducer state, width). */
  type Oracle<!E, !S> = (nat, E, S, nat) -> OracleResult<E, S>

  /** The fixed inputs of one search: the target symbols, the largest number of
      outputs per block, the vocabulary size and the transducer. */
  datatype Config<!E, !S> = Config(targets: seq<int>, maxWidth: nat, vocab: nat, oracle: Oracle<E, S>)

  /** Targets are vocabulary indices and the transducer returns one row of
      vocabulary scores per requested output step. */
  ghost predicate ValidConfig<E(!new), S(!new)>(cfg: Config<E, S>) {
    && (forall j :: 0 <= j < |cfg.targets| ==> 0 <= cfg.targets[j] < cfg.vocab)
    && (forall b, e, s, w :: |cfg.oracle(b, e, s, w).outputs| == w)
    && (forall b, e, s, w, i :: 0 <= i < w ==> |cfg.oracle(b, e, s, w).outputs[i]| == cfg.vocab)
  }

  /** One transducer run of the configuration's transducer. The method
      contracts name the run through this function rather than through
      `cfg.oracle` directly, which keeps their verification conditions small. */
  function Transduce<E, S>(cfg: Config<E, S>, b: nat, enc: E, s: S, width: nat): OracleResult<E, S> {
    cfg.oracle(b, enc, s, width)
  }

  function Max(a: int, b: int): int { if a < b then b else a }
  function Min(a: int, b: int): int { if a < b then a else b }

  /** Smallest new target index for an alignment at x in block b of B: enough
      targets must be placed that the remaining B - b blocks of at most w outputs
      can still reach the end. The code's product (B - b + 1) * w is Capacity. */
  function MinIndex(x: nat, targetsLength: nat, w: nat, totalBlocks: nat, b: nat): (r: nat)
    ensures r == Max(x, targetsLength - Capacity(totalBlocks - b, w))
  {
    x + w + Max(-(w as int), targetsLength - (Capacity(totalBlocks - b + 1, w) + x))
  }

  /** Largest new target index: at most w outputs, and never past the end of the targets. */
  function MaxIndex(x: nat, targetsLength: nat, w: nat): (r: int)
    ensures r == Min(x + w, targetsLength)
  {
    x + w + Min(0, targetsLength - (x + w))
  }

  /** Every index in the range moves by 0 .. w outputs, stays within the targets
      and leaves the rest reachable. */
  lemma CandidateBounds(x: nat, targetsLength: nat, w: nat, totalBlocks: nat, b: nat, index: int)
    requires MinIndex(x, targetsLength, w, totalBlocks, b) <= index <= MaxIndex(x, targetsLength, w)
    ensures 0 <= index - x <= w
    ensures targetsLength - (totalBlocks - b) * w <= index <= targetsLength
  {
    CapacityIsProduct(totalBlocks - b, w);
  }

  /** The range is non-empty exactly when the alignment is neither past the end
      nor too far behind to finish in the blocks that remain. */
  lemma RangeNonEmpty(x: nat, targetsLength: nat, w: nat, totalBlocks: nat, b: nat)
    requires b <= totalBlocks
    ensures MinIndex(x, targetsLength, w, totalBlocks, b) <= MaxIndex(x, targetsLength, w)
        <==> targetsLength - (totalBlocks - b + 1) * w <= x <= targetsLength
  {
    CapacityIsProduct(totalBlocks - b + 1, w);
    CapacityIsProduct(totalBlocks - b, w);
  }

  /** The candidate made from parent p by placing targets up to `index` in block b. */
  ghost function Child<E(!new), S(!new)>(cfg: Config<E, S>, b: nat, enc: E, p: AlignmentValue<S>, index: nat): AlignmentValue<S>
    requires ValidConfig(cfg) && p.position.x <= index <= |cfg.targets|
  {
    var width := index - p.position.x;
    var out := Transduce(cfg, b, enc, p.transState, width);
    Inserted(p, index, b, out.outputs, cfg.targets, width, out.transState)
  }

  /** The children of p for indices lo .. hi - 1, in index order. */
  ghost function ChildrenRange<E(!new), S(!new)>(cfg: Config<E, S>, b: nat, enc: E, p: AlignmentValue<S>, lo: nat, hi: int)
    : (r: seq<AlignmentValue<S>>)
    requires ValidConfig(cfg) && p.position.x <= lo && (hi <= lo || hi <= |cfg.targets| + 1)
    ensures |r| == Max(0, hi - lo)
    decreases hi - lo
  {
    if hi <= lo then [] else ChildrenRange(cfg, b, enc, p, lo, hi - 1) + [Child(cfg, b, enc, p, hi - 1)]
  }

  /** acc followed by the children of p for indices lo .. hi - 1, built by
      appending one child at a time. */
  ghost function ChildrenOnto<E(!new), S(!new)>(cfg: Config<E, S>, b: nat, enc: E, p: AlignmentValue<S>,
                                                acc: seq<AlignmentValue<S>>, lo: nat, hi: int): seq<AlignmentValue<S>>
    requires ValidConfig(cfg) && p.position.x <= lo && (hi <= lo || hi <= |cfg.targets| + 1)
    decreases hi - lo
  {
    if hi <= lo then acc else ChildrenOnto(cfg, b, enc, p, acc + [Child(cfg, b, enc, p, lo)], lo + 1, hi)
  }

  lemma {:induction false} ChildrenOntoRange<E(!new), S(!new)>(cfg: Config<E, S>, b: nat, enc: E, p: AlignmentValue<S>,
                                                               acc: seq<AlignmentValue<S>>, lo: nat, hi: int)
    requires ValidConfig(cfg) && p.position.x <= lo && (hi <= lo || hi <= |cfg.targets| + 1)
    ensures ChildrenOnto(cfg, b, enc, p, acc, lo, hi) == acc + ChildrenRange(cfg, b, enc, p, lo, hi)
    decreases hi - lo
  {
    if hi > lo {
      ChildrenOntoRange(cfg, b, enc, p, acc + [Child(cfg, b, enc, p, lo)], lo + 1, hi);
      ChildrenRangeCons(cfg, b, enc, p, lo, hi);
    }
  }

  lemma {:induction false} ChildrenRangeCons<E(!new), S(!new)>(cfg: Config<E, S>, b: nat, enc: E, p: AlignmentValue<S>,
                                                               lo: nat, hi: int)
    requires ValidConfig(cfg) && p.position.x <= lo < hi <= |cfg.targets| + 1
    ensures ChildrenRange(cfg, b, enc, p, lo, hi) == [Child(cfg, b, enc, p, lo)] + ChildrenRange(cfg, b, enc, p, lo + 1, hi)
    decreases hi - lo
  {
    if hi - 1 > lo {
      ChildrenRangeCons(cfg, b, enc, p, lo, hi - 1);
    }
  }

  /** Element k of the range is the child at index lo + k. */
  lemma {:induction false} ChildrenRangeAt<E(!new), S(!new)>(cfg: Config<E, S>, b: nat, enc: E, p: AlignmentValue<S>,
                                                             lo: nat, hi: int, k: int)
    requires ValidConfig(cfg) && p.position.x <= lo && hi <= |cfg.targets| + 1 && 0 <= k < hi - lo
    ensures ChildrenRange(cfg, b, enc, p, lo, hi)[k] == Child(cfg, b, enc, p, lo + k)
    decreases hi - lo
  {
    if k < hi - 1 - lo {
      ChildrenRangeAt(cfg, b, enc, p, lo, hi - 1, k);
    }
  }

  /** All candidates grown from one parent in block b. */
  ghost function Expand<E(!new), S(!new)>(cfg: Config<E, S>, totalBlocks: nat, b: nat, enc: E, p: AlignmentValue<S>)
    : seq<AlignmentValue<S>>
    requires ValidConfig(cfg)
  {
    var T := |cfg.targets|;
    ChildrenRange(cfg, b, enc, p, MinIndex(p.position.x, T, cfg.maxWidth, totalBlocks, b),
                  MaxIndex(p.position.x, T, cfg.maxWidth) + 1)
  }

  /** The candidates of a round: parent by parent, and index by index within a parent. */
  ghost function ExpandAll<E(!new), S(!new)>(cfg: Config<E, S>, totalBlocks: nat, b: nat, enc: E, ps: seq<AlignmentValue<S>>)
    : seq<AlignmentValue<S>>
    requires ValidConfig(cfg)
  {
    if ps == [] then []
    else ExpandAll(cfg, totalBlocks, b, enc, ps[..|ps| - 1]) + Expand(cfg, totalBlocks, b, enc, ps[|ps| - 1])
  }

  /** The encoder state after expanding parent p, given the state before it:
      the one returned by p's last transducer run (the widest of its range),
      or the state before when p's range is empty. */
  ghost function ParentEnc<E(!new), S(!new)>(cfg: Config<E, S>, totalBlocks: nat, b: nat, enc: E,
                                             p: AlignmentValue<S>, encIn: E): E
  {
    var hi := MaxIndex(p.position.x, |cfg.targets|, cfg.maxWidth);
    if InRange(cfg, totalBlocks, b, p, hi) then Transduce(cfg, b, enc, p.transState, hi - p.position.x).encState
    else encIn
  }

  /** The encoder state a round hands on: the one returned by the round's last
      transducer run, or the incoming state when the round ran none. */
  ghost function BlockEnc<E(!new), S(!new)>(cfg: Config<E, S>, totalBlocks: nat, b: nat, enc: E, ps: seq<AlignmentValue<S>>): E
  {
    if ps == [] then enc
    else ParentEnc(cfg, totalBlocks, b, enc, ps[|ps| - 1], BlockEnc(cfg, totalBlocks, b, enc, ps[..|ps| - 1]))
  }

  /** One whole round: the pruned candidates and the encoder state handed on. */
  ghost function BlockStep<E(!new), S(!new)>(cfg: Config<E, S>, totalBlocks: nat, b: nat, enc: E, ps: seq<AlignmentValue<S>>)
    : (seq<AlignmentValue<S>>, E)
    requires ValidConfig(cfg)
  {
    (Prune(ExpandAll(cfg, totalBlocks, b, enc, ps)), BlockEnc(cfg, totalBlocks, b, enc, ps))
  }

  /** Index `index` is in the legal range of an alignment at p in block b of totalBlocks. */
  predicate InRange<E, S>(cfg: Config<E, S>, totalBlocks: nat, b: nat, p: AlignmentValue<S>, index: int) {
    MinIndex(p.position.x, |cfg.targets|, cfg.maxWidth, totalBlocks, b) <= index
      <= MaxIndex(p.position.x, |cfg.targets|, cfg.maxWidth)
  }

  /** The candidates of a round are exactly the members of the parents' expansions. */
  lemma {:induction false} ExpandAllMembers<E(!new), S(!new)>(cfg: Config<E, S>, totalBlocks: nat, b: nat,
                                                              enc: E, ps: seq<AlignmentValue<S>>)
    requires ValidConfig(cfg)
    ensures forall c :: c in ExpandAll(cfg, totalBlocks, b, enc, ps) <==>
              exists k :: 0 <= k < |ps| && c in Expand(cfg, totalBlocks, b, enc, ps[k])
  {
    if ps != [] {
      var n := |ps| - 1;
      ExpandAllMembers(cfg, totalBlocks, b, enc, ps[..n]);
      forall c | c in ExpandAll(cfg, totalBlocks, b, enc, ps)
        ensures exists k :: 0 <= k < |ps| && c in Expand(cfg, totalBlocks, b, enc, ps[k])
      {
        if c in ExpandAll(cfg, totalBlocks, b, enc, ps[..n]) {
          var k :| 0 <= k < n && c in Expand(cfg, totalBlocks, b, enc, ps[..n][k]);
          assert ps[..n][k] == ps[k];
        }
      }
      forall c, k | 0 <= k < |ps| && c in Expand(cfg, totalBlocks, b, enc, ps[k])
        ensures c in ExpandAll(cfg, totalBlocks, b, enc, ps)
      {
        if k < n {
          assert ps[..n][k] == ps[k];
        }
      }
    }
  }

  /** The expansion of one parent holds the child at every index of its range and nothing else. */
  lemma ExpandChildren<E(!new), S(!new)>(cfg: Config<E, S>, totalBlocks: nat, b: nat, enc: E, p: AlignmentValue<S>)
    requires ValidConfig(cfg)
    ensures forall index :: InRange(cfg, totalBlocks, b, p, index) ==>
              Child(cfg, b, enc, p, index) in Expand(cfg, totalBlocks, b, enc, p)
    ensures forall c :: c in Expand(cfg, totalBlocks, b, enc, p) ==>
              exists index :: InRange(cfg, totalBlocks, b, p, index) && c == Child(cfg, b, enc, p, index)
  {
    var x, T, W := p.position.x, |cfg.targets|, cfg.maxWidth;
    var lo, hi := MinIndex(x, T, W, totalBlocks, b), MaxIndex(x, T, W) + 1;
    var cs := Expand(cfg, totalBlocks, b, enc, p);
    forall index | InRange(cfg, totalBlocks, b, p, index) ensures Child(cfg, b, enc, p, index) in cs {
      ChildrenRangeAt(cfg, b, enc, p, lo, hi, index - lo);
    }
    forall c | c in cs ensures exists index :: InRange(cfg, totalBlocks, b, p, index) && c == Child(cfg, b, enc, p, index) {
      var j :| 0 <= j < |cs| && cs[j] == c;
      ChildrenRangeAt(cfg, b, enc, p, lo, hi, j);
      assert InRange(cfg, totalBlocks, b, p, lo + j);
    }
  }

  /** Every child of every parent, at every index of the parent's range, is a candidate. */
  lemma ExpandAllHasEveryChild<E(!new), S(!new)>(cfg: Config<E, S>, totalBlocks: nat, b: nat,
                                                 enc: E, ps: seq<AlignmentValue<S>>)
    requires ValidConfig(cfg)
    ensures forall k, index :: 0 <= k < |ps| && InRange(cfg, totalBlocks, b, ps[k], index) ==>
              Child(cfg, b, enc, ps[k], index) in ExpandAll(cfg, totalBlocks, b, enc, ps)
  {
    ExpandAllMembers(cfg, totalBlocks, b, enc, ps);
    forall k, index | 0 <= k < |ps| && InRange(cfg, totalBlocks, b, ps[k], index)
      ensures Child(cfg, b, enc, ps[k], index) in ExpandAll(cfg, totalBlocks, b, enc, ps)
    {
      ExpandChildren(cfg, totalBlocks, b, enc, ps[k]);
    }
  }

  /** Every candidate is the child of one of the parents at an index of that parent's range. */
  lemma ExpandAllOnlyChildren<E(!new), S(!new)>(cfg: Config<E, S>, totalBlocks: nat, b: nat,
                                                enc: E, ps: seq<AlignmentValue<S>>)
    requires ValidConfig(cfg)
    ensures forall c :: c in ExpandAll(cfg, totalBlocks, b, enc, ps) ==>
              exists k, index :: 0 <= k < |ps| && InRange(cfg, totalBlocks, b, ps[k], index) &&
                                 c == Child(cfg, b, enc, ps[k], index)
  {
    ExpandAllMembers(cfg, totalBlocks, b, enc, ps);
    forall c | c in ExpandAll(cfg, totalBlocks, b, enc, ps)
      ensures exists k, index :: 0 <= k < |ps| && InRange(cfg, totalBlocks, b, ps[k], index) &&
                                 c == Child(cfg, b, enc, ps[k], index)
    {
      var k :| 0 <= k < |ps| && c in Expand(cfg, totalBlocks, b, enc, ps[k]);
      ExpandChildren(cfg, totalBlocks, b, enc, ps[k]);
      var index :| InRange(cfg, totalBlocks, b, ps[k], index) && c == Child(cfg, b, enc, ps[k], index);
    }
  }

  /** Removes, last candidate first, every candidate that another candidate at
      the same position beats strictly; the rest keep their order. */
  method PruneOverlapping<S>(cands: seq<Alignment<S>>) returns (kept: seq<Alignment<S>>)
    ensures Views(kept) == Prune(Views(cands))
  {
    ghost var all := Views(cands);
    kept := cands;
    var i := |cands|;
    while i > 0
      invariant 0 <= i <= |cands|
      invariant Views(kept) == all[..i] + KeepFrom(all[i..], all)
    {
      i := i - 1;
      var a := kept[i];
      var dominated := IsDominated(kept, a);
      PruneLoopStep(all, i, Views(kept));
      if dominated {
        ViewsRemove(kept, i);
        kept := kept[..i] + kept[i + 1..];
      }
    }
  }

  /** Scans all of `kept` for another candidate at a's position with a strictly larger score. */
  method IsDominated<S>(kept: seq<Alignment<S>>, a: Alignment<S>) returns (dominated: bool)
    ensures dominated <==> exists k :: 0 <= k < |kept| && Dominates(Views(kept)[k], a.View())
  {
    dominated := false;
    var j := 0;
    while j < |kept|
      invariant 0 <= j <= |kept|
      invariant dominated <==> exists k :: 0 <= k < j && Dominates(Views(kept)[k], a.View())
    {
      var o := kept[j];
      assert Views(kept)[j] == o.View();
      if o != a && o.position == a.position && o.logProb > a.logProb {
        dominated := true;
      }
      j := j + 1;
    }
  }

  lemma ExpandAllSnoc<E(!new), S(!new)>(cfg: Config<E, S>, totalBlocks: nat, b: nat, enc: E,
                                        ps: seq<AlignmentValue<S>>, i: int)
    requires ValidConfig(cfg) && 0 <= i < |ps|
    ensures ExpandAll(cfg, totalBlocks, b, enc, ps[..i + 1])
         == ExpandAll(cfg, totalBlocks, b, enc, ps[..i]) + Expand(cfg, totalBlocks, b, enc, ps[i])
    ensures BlockEnc(cfg, totalBlocks, b, enc, ps[..i + 1])
         == ParentEnc(cfg, totalBlocks, b, enc, ps[i], BlockEnc(cfg, totalBlocks, b, enc, ps[..i]))
  {
    assert ps[..i + 1][..i] == ps[..i];
  }

  /** A deep copy of `alignment` extended to target index `index` in block b,
      scored by one transducer run from the parent's state; also gives the
      encoder state that run returned. */
  method NewCandidate<E(!new), S(!new)>(cfg: Config<E, S>, b: nat, enc: E, alignment: Alignment<S>,
                                        ghost parent: AlignmentValue<S>, index: nat)
    returns (candidate: Alignment<S>, encOut: E)
    requires ValidConfig(cfg) && alignment.View() == parent && parent.position.x <= index <= |cfg.targets|
    ensures fresh(candidate) && candidate.View() == Child(cfg, b, enc, parent, index)
    ensures encOut == Transduce(cfg, b, enc, parent.transState, index - parent.position.x).encState
  {
    candidate := new Alignment.Copy(alignment);
    var width := index - candidate.position.x;
    var out := Transduce(cfg, b, enc, alignment.transState, width);
    encOut := out.encState;
    candidate.Insert(index, b, out.outputs, cfg.targets, width, out.transState);
  }

  /** The inner loop of a round: copies `alignment` once per index of its legal
      range, runs the transducer for that width from the parent's state, inserts
      and appends the copy to the candidates. The encoder state handed on is the
      one from the last run. */
  method ExpandParent<E(!new), S(!new)>(cfg: Config<E, S>, totalBlocks: nat, b: nat, enc: E,
                                        alignment: Alignment<S>, ghost parent: AlignmentValue<S>,
                                        cands: seq<Alignment<S>>, encIn: E)
    returns (cands': seq<Alignment<S>>, encNew: E)
    requires ValidConfig(cfg) && alignment.View() == parent
    ensures Views(cands') == Views(cands) + Expand(cfg, totalBlocks, b, enc, parent)
    ensures encNew == ParentEnc(cfg, totalBlocks, b, enc, parent, encIn)
  {
    var T, W := |cfg.targets|, cfg.maxWidth;
    var x := alignment.position.x;
    var minIndex := MinIndex(x, T, W, totalBlocks, b);
    var maxIndex := MaxIndex(x, T, W);
    cands', encNew := ExpandRange(cfg, b, enc, alignment, parent, minIndex, maxIndex + 1, cands, encIn);
  }

  /** The loop over the indices lo .. hi - 1 of one parent's range: each index
      appends that child, and the encoder state is the last run's. */
  method ExpandRange<E(!new), S(!new)>(cfg: Config<E, S>, b: nat, enc: E,
                                       alignment: Alignment<S>, ghost parent: AlignmentValue<S>,
                                       lo: nat, hi: int, cands: seq<Alignment<S>>, encIn: E)
    returns (cands': seq<Alignment<S>>, encNew: E)
    requires ValidConfig(cfg) && alignment.View() == parent
    requires parent.position.x <= lo && (hi <= lo || hi <= |cfg.targets| + 1)
    ensures Views(cands') == Views(cands) + ChildrenRange(cfg, b, enc, parent, lo, hi)
    ensures encNew == if lo < hi then Transduce(cfg, b, enc, parent.transState, hi - 1 - parent.position.x).encState
                      else encIn
  {
    cands', encNew := cands, encIn;
    ghost var target := Views(cands) + ChildrenRange(cfg, b, enc, parent, lo, hi);
    ChildrenOntoRange(cfg, b, enc, parent, Views(cands), lo, hi);
    var index := lo;
    while index < hi
      invariant lo <= index && (index <= hi || index == lo)
      invariant alignment.View() == parent
      invariant ChildrenOnto(cfg, b, enc, parent, Views(cands'), index, hi) == target
      invariant encNew == if lo < index then Transduce(cfg, b, enc, parent.transState, index - 1 - parent.position.x).encState
                          else encIn
    {
      var candidate;
      candidate, encNew := NewCandidate(cfg, b, enc, alignment, parent, index);
      ViewsAppend(cands', candidate);
      cands' := cands' + [candidate];
      index := index + 1;
    }
  }

  /** One round of the search over alignment objects: expand every parent in
      order, then prune. Parents are copied, never changed. */
  method RunNewBlock<E(!new), S(!new)>(cfg: Config<E, S>, totalBlocks: nat, b: nat, prev: seq<Alignment<S>>, enc: E)
    returns (next: seq<Alignment<S>>, encNew: E)
    requires ValidConfig(cfg)
    ensures (Views(next), encNew) == BlockStep(cfg, totalBlocks, b, enc, old(Views(prev)))
    ensures Views(prev) == old(Views(prev))
  {
    ghost var parents := Views(prev);
    var cands: seq<Alignment<S>> := [];
    encNew := enc;
    var i := 0;
    while i < |prev|
      invariant 0 <= i <= |prev|
      invariant Views(prev) == parents
      invariant Views(cands) == ExpandAll(cfg, totalBlocks, b, enc, parents[..i])
      invariant encNew == BlockEnc(cfg, totalBlocks, b, enc, parents[..i])
    {
      cands, encNew := ExpandParent(cfg, totalBlocks, b, enc, prev[i], parents[i], cands, encNew);
      ExpandAllSnoc(cfg, totalBlocks, b, enc, parents, i);
      i := i + 1;
    }
    assert parents[..|prev|] == parents;
    next := PruneOverlapping(cands);
  }
}
