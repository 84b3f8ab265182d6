/** Dominance pruning of one round's candidates: a candidate is dropped when
    another candidate at the same position has a strictly larger score. */
module Pruning {
  import opened Alignments

  ghost predicate Dominates<S>(o: AlignmentValue<S>, a: AlignmentValue<S>) {
    o.position == a.position && o.logProb > a.logProb
  }

  ghost predicate Dominated<S>(a: AlignmentValue<S>, all: seq<AlignmentValue<S>>) {
    exists o :: o in all && Dominates(o, a)
  }

  /** The elements of vs, in order, that nothing in `all` dominates. */
  ghost function KeepFrom<S>(vs: seq<AlignmentValue<S>>, all: seq<AlignmentValue<S>>): seq<AlignmentValue<S>> {
    if vs == [] then []
    else (if Dominated(vs[0], all) then [] else [vs[0]]) + KeepFrom(vs[1..], all)
  }

  /** The survivors of a round. */
  ghost function Prune<S>(cands: seq<AlignmentValue<S>>): seq<AlignmentValue<S>> {
    KeepFrom(cands, cands)
  }

  /** Order-preserving subsequence. */
  ghost predicate Subsequence<T>(r: seq<T>, s: seq<T>) {
    if r == [] then true
    else if s == [] then false
    else (r[0] == s[0] && Subsequence(r[1..], s[1..])) || Subsequence(r, s[1..])
  }

  lemma {:induction false} KeepFromMembers<S>(vs: seq<AlignmentValue<S>>, all: seq<AlignmentValue<S>>)
    ensures forall c :: c in KeepFrom(vs, all) <==> c in vs && !Dominated(c, all)
  {
    if vs != [] {
      KeepFromMembers(vs[1..], all);
      assert vs == [vs[0]] + vs[1..];
    }
  }

  lemma {:induction false} KeepFromSubsequence<S>(vs: seq<AlignmentValue<S>>, all: seq<AlignmentValue<S>>)
    ensures Subsequence(KeepFrom(vs, all), vs)
  {
    if vs != [] {
      KeepFromSubsequence(vs[1..], all);
      var rest := KeepFrom(vs[1..], all);
      if !Dominated(vs[0], all) {
        assert ([vs[0]] + rest)[1..] == rest;
      } else if rest != [] {
        assert KeepFrom(vs, all) == rest;
      }
    }
  }

  /** Every position group has a member whose score is the largest of the group. */
  lemma {:induction false} GroupMaximum<S>(all: seq<AlignmentValue<S>>, c: AlignmentValue<S>) returns (m: AlignmentValue<S>)
    requires c in all
    ensures m in all && m.position == c.position
    ensures forall o :: o in all && o.position == c.position ==> o.logProb <= m.logProb
    ensures !Dominated(m, all)
  {
    var n := |all| - 1;
    var init, last := all[..n], all[n];
    assert all == init + [last];
    if d :| d in init && d.position == c.position {
      var best := GroupMaximum(init, d);
      m := if last.position == c.position && last.logProb > best.logProb then last else best;
    } else {
      m := last;
    }
  }

  /** A candidate survives iff it is a candidate that no other candidate at its
      position beats strictly. */
  lemma PruneMembers<S>(cands: seq<AlignmentValue<S>>)
    ensures forall c :: c in Prune(cands) <==> c in cands && !Dominated(c, cands)
  {
    KeepFromMembers(cands, cands);
  }

  /** The survivors are an order-preserving subsequence of the candidates. */
  lemma PruneSubsequence<S>(cands: seq<AlignmentValue<S>>)
    ensures Subsequence(Prune(cands), cands)
  {
    KeepFromSubsequence(cands, cands);
  }

  /** Every position that has a candidate keeps a survivor with the group's largest score. */
  lemma PruneKeepsGroupMaximum<S>(cands: seq<AlignmentValue<S>>)
    ensures forall c :: c in cands ==>
              exists m :: m in Prune(cands) && m.position == c.position && m.logProb >= c.logProb
  {
    KeepFromMembers(cands, cands);
    forall c | c in cands
      ensures exists m :: m in Prune(cands) && m.position == c.position && m.logProb >= c.logProb
    {
      var m := GroupMaximum(cands, c);
      assert m in Prune(cands);
    }
  }

  /** Survivors at the same position have equal scores: only ties survive together. */
  lemma PruneTiesOnly<S>(cands: seq<AlignmentValue<S>>)
    ensures forall a, b :: a in Prune(cands) && b in Prune(cands) && a.position == b.position ==>
              a.logProb == b.logProb
  {
    KeepFromMembers(cands, cands);
    forall a, b | a in Prune(cands) && b in Prune(cands) && a.position == b.position
      ensures a.logProb == b.logProb
    {
      assert !Dominates(b, a) && !Dominates(a, b);
    }
  }

  /** Pruning leaves a non-empty round non-empty. */
  lemma PruneNonEmpty<S>(cands: seq<AlignmentValue<S>>)
    requires cands != []
    ensures Prune(cands) != []
  {
    PruneKeepsGroupMaximum(cands);
    assert cands[0] in cands;
  }

  /** Dominance against a partly pruned list is dominance against the whole list:
      the group maximum of every position is never removed. */
  lemma DominatedPartlyPruned<S>(all: seq<AlignmentValue<S>>, i: int, v: AlignmentValue<S>)
    requires 0 <= i <= |all|
    ensures Dominated(v, all[..i] + KeepFrom(all[i..], all)) <==> Dominated(v, all)
  {
    var cur := all[..i] + KeepFrom(all[i..], all);
    if Dominated(v, cur) {
      var o :| o in cur && Dominates(o, v);
      if o !in all[..i] {
        assert o in KeepFrom(all[i..], all);
        KeepFromMembers(all[i..], all);
        assert o in all[i..];
      }
      assert o in all;
    }
    if Dominated(v, all) {
      var o :| o in all && Dominates(o, v);
      var m := GroupMaximum(all, o);
      var k :| 0 <= k < |all| && all[k] == m;
      if k < i {
        assert all[..i][k] == m;
      } else {
        assert all[i..][k - i] == m;
        KeepFromMembers(all[i..], all);
        assert m in KeepFrom(all[i..], all);
      }
      assert m in cur;
      assert Dominates(m, v);
    }
  }

  /** One step of the pruning loop on values: whether candidate i is dominated
      can be read off the partly pruned list, and removing it when it is
      extends the pruned suffix by one. */
  lemma PruneLoopStep<S>(all: seq<AlignmentValue<S>>, i: int, cur: seq<AlignmentValue<S>>)
    requires 0 <= i < |all|
    requires cur == all[..i + 1] + KeepFrom(all[i + 1..], all)
    ensures (exists k :: 0 <= k < |cur| && Dominates(cur[k], all[i])) <==> Dominated(all[i], all)
    ensures all[..i] + KeepFrom(all[i..], all) == if Dominated(all[i], all) then cur[..i] + cur[i + 1..] else cur
  {
    DominatedByIndex(all[i], cur);
    DominatedPartlyPruned(all, i + 1, all[i]);
    KeepFromUnfold(all, i);
  }

  lemma DominatedByIndex<S>(v: AlignmentValue<S>, cur: seq<AlignmentValue<S>>)
    ensures (exists k :: 0 <= k < |cur| && Dominates(cur[k], v)) <==> Dominated(v, cur)
  {
    if exists k :: 0 <= k < |cur| && Dominates(cur[k], v) {
      var k :| 0 <= k < |cur| && Dominates(cur[k], v);
      assert cur[k] in cur;
    }
  }

  lemma KeepFromUnfold<S>(all: seq<AlignmentValue<S>>, i: int)
    requires 0 <= i < |all|
    ensures var cur := all[..i + 1] + KeepFrom(all[i + 1..], all);
            all[..i] + KeepFrom(all[i..], all) == if Dominated(all[i], all) then cur[..i] + cur[i + 1..] else cur
  {
    var rest := KeepFrom(all[i + 1..], all);
    var cur := all[..i + 1] + rest;
    assert all[i..][1..] == all[i + 1..];
    assert KeepFrom(all[i..], all) == (if Dominated(all[i], all) then [] else [all[i]]) + rest;
    assert all[..i + 1] == all[..i] + [all[i]];
    assert cur[..i] == all[..i];
    assert cur[i + 1..] == rest;
  }
}
