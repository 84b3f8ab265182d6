/** The forced-alignment driver: splits the input into blocks, runs one search
    round per block starting from a single fresh alignment, and returns the
    marker list of the one alignment that survives the last round. */
module Driver {
  import opened Markers
  import opened Alignments
  import opened Pruning
  import opened Expander

  /** The ways the driver stops without an alignment. */
  datatype AlignError =
    | BlockSizeZero          // the block count divides by a block size of 0
    | InputNotBlockMultiple  // the input length is not a multiple of the block size
    | MaxWidthTooSmall       // the blocks cannot emit all targets at maxWidth outputs each
    | NoUniqueAlignment      // the last round did not leave exactly one alignment

  datatype Result<T> = Ok(value: T) | Err(error: AlignError)

  /** One round as a value: block index, encoder state and parents to the
      round's survivors and the encoder state it hands on. */
  type Step<!E, !S> = (nat, E, seq<AlignmentValue<S>>) -> (seq<AlignmentValue<S>>, E)

  /** The rounds of the search over totalBlocks blocks. */
  ghost function Round<E(!new), S(!new)>(cfg: Config<E, S>, totalBlocks: nat): Step<E, S>
    requires ValidConfig(cfg)
  {
    (b: nat, enc: E, ps: seq<AlignmentValue<S>>) => BlockStep(cfg, totalBlocks, b, enc, ps)
  }

  /** The candidates left after running rounds b .. totalBlocks on vs, enc. */
  ghost function Rounds<E, S>(step: Step<E, S>, totalBlocks: nat, b: nat, vs: seq<AlignmentValue<S>>, enc: E)
    : seq<AlignmentValue<S>>
    decreases totalBlocks + 1 - b
  {
    if b > totalBlocks then vs
    else
      var next := step(b, enc, vs);
      Rounds(step, totalBlocks, b + 1, next.0, next.1)
  }

  /** The alignments that survive all totalBlocks rounds from one fresh alignment. */
  ghost function Survivors<E(!new), S(!new)>(cfg: Config<E, S>, totalBlocks: nat, zeroEnc: E, zeroTrans: S)
    : seq<AlignmentValue<S>>
    requires ValidConfig(cfg)
  {
    Rounds(Round(cfg, totalBlocks), totalBlocks, 1, [InitialValue(zeroTrans)], zeroEnc)
  }

  /** What the driver returns for an input of inputLength steps split into
      blocks of blockSize steps. */
  ghost function AlignmentSpec<E(!new), S(!new)>(cfg: Config<E, S>, inputLength: nat, blockSize: nat,
                                                 zeroEnc: E, zeroTrans: S): Result<seq<int>>
    requires ValidConfig(cfg)
  {
    if blockSize == 0 then Err(BlockSizeZero)
    else
      var totalBlocks := inputLength / blockSize;
      if inputLength % blockSize != 0 then Err(InputNotBlockMultiple)
      else if cfg.maxWidth * totalBlocks < |cfg.targets| then Err(MaxWidthTooSmall)
      else
        var fin := Survivors(cfg, totalBlocks, zeroEnc, zeroTrans);
        if |fin| != 1 then Err(NoUniqueAlignment) else Ok(fin[0].locations)
  }

  /** An alignment after round b of totalBlocks: b markers forming a staircase
      of steps of at most maxWidth, ending at its position, which is within the
      targets and close enough to their end to finish in the remaining blocks. */
  ghost predicate FeasibleOne<E, S>(cfg: Config<E, S>, totalBlocks: nat, b: nat, v: AlignmentValue<S>) {
    var T, W := |cfg.targets|, cfg.maxWidth;
    && T - Capacity(totalBlocks - b, W) <= v.position.x <= T
    && |v.locations| == b
    && Staircase(v.locations, W)
    && Reachable(v.locations, T, W, totalBlocks)
    && End(v.locations) == v.position.x
    && (b >= 1 ==> v.position.block == b)
  }

  /** A non-empty round of feasible alignments. */
  ghost predicate Feasible<E, S>(cfg: Config<E, S>, totalBlocks: nat, b: nat, vs: seq<AlignmentValue<S>>) {
    vs != [] && forall v :: v in vs ==> FeasibleOne(cfg, totalBlocks, b, v)
  }

  /** A child of a feasible parent at an index of its legal range is feasible one round later. */
  lemma ChildFeasible<E(!new), S(!new)>(cfg: Config<E, S>, totalBlocks: nat, b: nat, enc: E,
                                        p: AlignmentValue<S>, index: int)
    requires ValidConfig(cfg) && 1 <= b <= totalBlocks
    requires FeasibleOne(cfg, totalBlocks, b - 1, p) && InRange(cfg, totalBlocks, b, p, index)
    ensures p.position.x <= index <= |cfg.targets|
    ensures FeasibleOne(cfg, totalBlocks, b, Child(cfg, b, enc, p, index))
  {
    var T, W := |cfg.targets|, cfg.maxWidth;
    assert Child(cfg, b, enc, p, index).locations == p.locations + [index];
    StaircaseSnoc(p.locations, W, index);
    assert totalBlocks - 1 - |p.locations| == totalBlocks - b;
    ReachableSnoc(p.locations, T, W, totalBlocks, index);
  }

  /** Expanding a feasible, non-empty set of parents gives a non-empty set of
      candidates that are all feasible one round later. */
  lemma ExpandAllFeasible<E(!new), S(!new)>(cfg: Config<E, S>, totalBlocks: nat, b: nat, enc: E,
                                            ps: seq<AlignmentValue<S>>)
    requires ValidConfig(cfg) && 1 <= b <= totalBlocks
    requires Feasible(cfg, totalBlocks, b - 1, ps)
    ensures Feasible(cfg, totalBlocks, b, ExpandAll(cfg, totalBlocks, b, enc, ps))
  {
    var T, W := |cfg.targets|, cfg.maxWidth;
    var cands := ExpandAll(cfg, totalBlocks, b, enc, ps);
    assert ps[0] in ps;
    var x := ps[0].position.x;
    assert totalBlocks - (b - 1) == totalBlocks - b + 1;
    CapacityIsProduct(totalBlocks - b + 1, W);
    RangeNonEmpty(x, T, W, totalBlocks, b);
    var lo := MinIndex(x, T, W, totalBlocks, b);
    ExpandAllHasEveryChild(cfg, totalBlocks, b, enc, ps);
    assert InRange(cfg, totalBlocks, b, ps[0], lo);
    assert Child(cfg, b, enc, ps[0], lo) in cands;
    ExpandAllOnlyChildren(cfg, totalBlocks, b, enc, ps);
    forall c | c in cands ensures FeasibleOne(cfg, totalBlocks, b, c) {
      var k, index :| 0 <= k < |ps| && InRange(cfg, totalBlocks, b, ps[k], index) &&
                      c == Child(cfg, b, enc, ps[k], index);
      assert ps[k] in ps;
      ChildFeasible(cfg, totalBlocks, b, enc, ps[k], index);
    }
  }

  /** A round run on a feasible, non-empty set of parents leaves a feasible,
      non-empty set of survivors. */
  lemma BlockStepFeasible<E(!new), S(!new)>(cfg: Config<E, S>, totalBlocks: nat, b: nat, enc: E,
                                            ps: seq<AlignmentValue<S>>)
    requires ValidConfig(cfg) && 1 <= b <= totalBlocks
    requires Feasible(cfg, totalBlocks, b - 1, ps)
    ensures Feasible(cfg, totalBlocks, b, Prune(ExpandAll(cfg, totalBlocks, b, enc, ps)))
  {
    var cands := ExpandAll(cfg, totalBlocks, b, enc, ps);
    ExpandAllFeasible(cfg, totalBlocks, b, enc, ps);
    PruneNonEmpty(cands);
    PruneMembers(cands);
  }

  /** A property of the candidates that every round b .. totalBlocks carries
      from its parents to its survivors holds after the last round. */
  lemma {:induction false} RoundsPreserve<E, S>(step: Step<E, S>, inv: (nat, seq<AlignmentValue<S>>) -> bool,
                                               totalBlocks: nat, b: nat, vs: seq<AlignmentValue<S>>, enc: E)
    requires 1 <= b <= totalBlocks + 1 && inv(b - 1, vs)
    requires forall k: nat, e, ws :: b <= k <= totalBlocks && inv(k - 1, ws) ==> inv(k, step(k, e, ws).0)
    ensures inv(totalBlocks, Rounds(step, totalBlocks, b, vs, enc))
    decreases totalBlocks + 1 - b
  {
    if b <= totalBlocks {
      var next := step(b, enc, vs);
      RoundsPreserve(step, inv, totalBlocks, b + 1, next.0, next.1);
    }
  }

  /** After at least one round, the candidates are the survivors of the last round. */
  lemma {:induction false} RoundsLast<E, S>(step: Step<E, S>, totalBlocks: nat, b: nat,
                                           vs: seq<AlignmentValue<S>>, enc: E)
    returns (encLast: E, parents: seq<AlignmentValue<S>>)
    requires 1 <= b <= totalBlocks
    ensures Rounds(step, totalBlocks, b, vs, enc) == step(totalBlocks, encLast, parents).0
    decreases totalBlocks + 1 - b
  {
    var next := step(b, enc, vs);
    if b == totalBlocks {
      encLast, parents := enc, vs;
    } else {
      encLast, parents := RoundsLast(step, totalBlocks, b + 1, next.0, next.1);
    }
  }

  /** Feasibility holds through every remaining round. */
  lemma RoundsFeasible<E(!new), S(!new)>(cfg: Config<E, S>, totalBlocks: nat, b: nat,
                                         vs: seq<AlignmentValue<S>>, enc: E)
    requires ValidConfig(cfg) && 1 <= b <= totalBlocks + 1
    requires Feasible(cfg, totalBlocks, b - 1, vs)
    ensures Feasible(cfg, totalBlocks, totalBlocks, Rounds(Round(cfg, totalBlocks), totalBlocks, b, vs, enc))
  {
    var step := Round(cfg, totalBlocks);
    var inv := (k: nat, ws: seq<AlignmentValue<S>>) => Feasible(cfg, totalBlocks, k, ws);
    forall k: nat, e, ws | b <= k <= totalBlocks && inv(k - 1, ws) ensures inv(k, step(k, e, ws).0) {
      BlockStepFeasible(cfg, totalBlocks, k, e, ws);
      assert step(k, e, ws).0 == Prune(ExpandAll(cfg, totalBlocks, k, e, ws));
    }
    RoundsPreserve(step, inv, totalBlocks, b, vs, enc);
  }

  /** When the checks at the start pass, at least one alignment survives; after
      the last of at least one round every survivor has placed all the targets
      in the last block, and all survivors have the same score. */
  lemma SurvivorsShape<E(!new), S(!new)>(cfg: Config<E, S>, totalBlocks: nat, zeroEnc: E, zeroTrans: S)
    requires ValidConfig(cfg) && cfg.maxWidth * totalBlocks >= |cfg.targets|
    ensures var fin := Survivors(cfg, totalBlocks, zeroEnc, zeroTrans);
            && Feasible(cfg, totalBlocks, totalBlocks, fin)
            && (forall v :: v in fin ==> v.position.x == |cfg.targets|)
            && (totalBlocks >= 1 ==> forall v :: v in fin ==> v.position == Position(|cfg.targets|, totalBlocks))
            && (totalBlocks >= 1 ==> forall v, u :: v in fin && u in fin ==> v.logProb == u.logProb)
  {
    var init := InitialValue(zeroTrans);
    CapacityIsProduct(totalBlocks, cfg.maxWidth);
    assert FeasibleOne(cfg, totalBlocks, 0, init);
    RoundsFeasible(cfg, totalBlocks, 1, [init], zeroEnc);
    if totalBlocks >= 1 {
      var encLast, parents := RoundsLast(Round(cfg, totalBlocks), totalBlocks, 1, [init], zeroEnc);
      PruneTiesOnly(ExpandAll(cfg, totalBlocks, totalBlocks, encLast, parents));
    }
  }

  /** Each error is returned exactly when its check fails, checked in source order. */
  lemma AlignmentSpecErrors<E(!new), S(!new)>(cfg: Config<E, S>, inputLength: nat, blockSize: nat,
                                              zeroEnc: E, zeroTrans: S)
    requires ValidConfig(cfg)
    ensures var r := AlignmentSpec(cfg, inputLength, blockSize, zeroEnc, zeroTrans);
            && (r == Err(BlockSizeZero) <==> blockSize == 0)
            && (blockSize > 0 ==> (r == Err(InputNotBlockMultiple) <==> inputLength % blockSize != 0))
            && (blockSize > 0 && inputLength % blockSize == 0 ==>
                  (r == Err(MaxWidthTooSmall) <==> cfg.maxWidth * (inputLength / blockSize) < |cfg.targets|))
  {
  }

  /** A returned alignment has one marker per block; the markers form a
      staircase of steps of at most maxWidth that ends at the last target, and
      every marker leaves the rest of the targets reachable. */
  lemma AlignmentSpecOk<E(!new), S(!new)>(cfg: Config<E, S>, inputLength: nat, blockSize: nat,
                                          zeroEnc: E, zeroTrans: S)
    requires ValidConfig(cfg)
    requires AlignmentSpec(cfg, inputLength, blockSize, zeroEnc, zeroTrans).Ok?
    ensures var m, T, W := AlignmentSpec(cfg, inputLength, blockSize, zeroEnc, zeroTrans).value,
                           |cfg.targets|, cfg.maxWidth;
            && blockSize > 0
            && |m| == inputLength / blockSize
            && Staircase(m, W)
            && Sorted(m)
            && End(m) == T
            && Reachable(m, T, W, inputLength / blockSize)
            && (forall k :: 0 <= k < |m| ==> 0 <= m[k] <= T)
  {
    var B := inputLength / blockSize;
    var fin := Survivors(cfg, B, zeroEnc, zeroTrans);
    SurvivorsShape(cfg, B, zeroEnc, zeroTrans);
    assert fin[0] in fin;
    var m := fin[0].locations;
    StaircaseSorted(m, cfg.maxWidth);
    if m != [] {
      forall k | 0 <= k < |m| ensures m[k] <= |cfg.targets| {
        assert m[k] <= m[|m| - 1];
      }
    }
  }

  /** The only other outcome is a tie: at least two complete alignments, all
      at the last target in the last block and all with the same score. */
  lemma AlignmentSpecAmbiguous<E(!new), S(!new)>(cfg: Config<E, S>, inputLength: nat, blockSize: nat,
                                                 zeroEnc: E, zeroTrans: S)
    requires ValidConfig(cfg)
    requires AlignmentSpec(cfg, inputLength, blockSize, zeroEnc, zeroTrans) == Err(NoUniqueAlignment)
    ensures blockSize > 0 && inputLength / blockSize >= 1
    ensures var B, T := inputLength / blockSize, |cfg.targets|;
            var fin := Survivors(cfg, B, zeroEnc, zeroTrans);
            && |fin| >= 2
            && (forall v :: v in fin ==> v.position == Position(T, B))
            && (forall v, u :: v in fin && u in fin ==> v.logProb == u.logProb)
  {
    var B := inputLength / blockSize;
    SurvivorsShape(cfg, B, zeroEnc, zeroTrans);
  }

  /** The alignment search over alignment objects: the checks in source order,
      then one round per block, then the uniqueness check. */
  method GetAlignment<E(!new), S(!new)>(cfg: Config<E, S>, inputLength: nat, blockSize: nat, zeroEnc: E, zeroTrans: S)
    returns (r: Result<seq<int>>)
    requires ValidConfig(cfg)
    ensures r == AlignmentSpec(cfg, inputLength, blockSize, zeroEnc, zeroTrans)
  {
    if blockSize == 0 {
      return Err(BlockSizeZero);
    }
    var totalBlocks := inputLength / blockSize;
    var first := new Alignment<S>(zeroTrans);
    var current := [first];
    var enc := zeroEnc;
    if inputLength % blockSize != 0 {
      return Err(InputNotBlockMultiple);
    }
    if cfg.maxWidth * totalBlocks < |cfg.targets| {
      return Err(MaxWidthTooSmall);
    }
    assert Views(current) == [InitialValue(zeroTrans)];
    var block := 1;
    while block <= totalBlocks
      invariant 1 <= block <= totalBlocks + 1
      invariant Rounds(Round(cfg, totalBlocks), totalBlocks, block, Views(current), enc) == Survivors(cfg, totalBlocks, zeroEnc, zeroTrans)
    {
      current, enc := RunNewBlock(cfg, totalBlocks, block, current, enc);
      block := block + 1;
    }
    if |current| != 1 {
      return Err(NoUniqueAlignment);
    }
    return Ok(current[0].locations);
  }
}
