/** One candidate path of the forced-alignment search: where it stands, its
    accumulated score, the markers it has placed and the transducer state to
    resume from. Scores are integers standing for log-probabilities. */
module Alignments {

  /** (x, block): x targets placed so far, block the last block consumed. */
  datatype Position = Position(x: nat, block: nat)

  /** The value of an alignment at one moment. */
  datatype AlignmentValue<S> = AlignmentValue(
    position: Position,
    logProb: int,
    locations: seq<int>,
    transState: S)

  /** A fresh alignment: position (0, 1), score 0, no markers, the zero state. */
  function InitialValue<S>(zero: S): (a: AlignmentValue<S>)
    ensures a.position == Position(0, 1) && a.logProb == 0 && a.locations == [] && a.transState == zero
  {
    AlignmentValue(Position(0, 1), 0, [], zero)
  }

  /** The per-step score rows can be looked up for targets start .. start + width - 1. */
  predicate Scorable(outputs: seq<seq<int>>, targets: seq<int>, start: int, width: nat) {
    && 0 <= start && start + width <= |targets|
    && width <= |outputs|
    && forall j :: start <= j < start + width ==> 0 <= targets[j] < |outputs[j - start]|
  }

  /** Score of step i's output row at the target it must produce, summed over the width. */
  function StepScores(outputs: seq<seq<int>>, targets: seq<int>, start: int, width: nat): int
    requires Scorable(outputs, targets, start, width)
  {
    if width == 0 then 0
    else StepScores(outputs, targets, start, width - 1) + outputs[width - 1][targets[start + width - 1]]
  }

  /** Scoring a block of width w1 + w2 is scoring its first w1 steps and then the
      remaining w2 steps against the rows and targets that follow. */
  lemma {:induction false} StepScoresSplit(outputs: seq<seq<int>>, targets: seq<int>, start: int, w1: nat, w2: nat)
    requires Scorable(outputs, targets, start, w1 + w2)
    ensures Scorable(outputs, targets, start, w1)
    ensures Scorable(outputs[w1..], targets, start + w1, w2)
    ensures StepScores(outputs, targets, start, w1 + w2)
         == StepScores(outputs, targets, start, w1) + StepScores(outputs[w1..], targets, start + w1, w2)
  {
    assert Scorable(outputs[w1..], targets, start + w1, w2) by {
      forall j | start + w1 <= j < start + w1 + w2 ensures 0 <= targets[j] < |outputs[w1..][j - (start + w1)]| {
        assert outputs[w1..][j - (start + w1)] == outputs[j - start];
      }
    }
    if w2 > 0 {
      StepScoresSplit(outputs, targets, start, w1, w2 - 1);
      assert outputs[w1..][w2 - 1] == outputs[w1 + w2 - 1];
    }
  }

  /** The value after inserting a block that ends at target index `index`. */
  function Inserted<S>(a: AlignmentValue<S>, index: nat, blockIndex: nat, outputs: seq<seq<int>>,
                       targets: seq<int>, width: nat, newState: S): AlignmentValue<S>
    requires Scorable(outputs, targets, index - width, width)
  {
    AlignmentValue(Position(index, blockIndex),
                   a.logProb + StepScores(outputs, targets, index - width, width),
                   a.locations + [index],
                   newState)
  }

  /** A mutable alignment record; the search copies it before inserting into it. */
  class Alignment<S> {
    var position: Position
    var logProb: int
    var locations: seq<int>
    var transState: S

    ghost function View(): AlignmentValue<S>
      reads this
    {
      AlignmentValue(position, logProb, locations, transState)
    }

    constructor (zero: S)
      ensures View() == InitialValue(zero)
    {
      position := Position(0, 1);
      logProb := 0;
      locations := [];
      transState := zero;
    }

    /** The deep copy made of a parent before it is extended. */
    constructor Copy(other: Alignment<S>)
      ensures View() == other.View()
    {
      position := other.position;
      logProb := other.logProb;
      locations := other.locations;
      transState := other.transState;
    }

    /** Sums the step scores of the last `width` targets up to the current position. */
    method SumProbabilities(outputs: seq<seq<int>>, targets: seq<int>, width: nat) returns (prob: int)
      requires Scorable(outputs, targets, position.x - width, width)
      ensures prob == StepScores(outputs, targets, position.x - width, width)
    {
      var start := position.x - width;
      prob := 0;
      var i := 0;
      while i < width
        invariant 0 <= i <= width
        invariant prob == StepScores(outputs, targets, start, i)
      {
        prob := prob + outputs[i][targets[start + i]];
        i := i + 1;
      }
    }

    /** Appends the marker, moves to (index, blockIndex), adds the scores of the
        `width` targets ending at index and takes over the new transducer state. */
    method Insert(index: nat, blockIndex: nat, outputs: seq<seq<int>>, targets: seq<int>,
                  width: nat, newState: S)
      requires Scorable(outputs, targets, index - width, width)
      modifies this
      ensures View() == Inserted(old(View()), index, blockIndex, outputs, targets, width, newState)
    {
      locations := locations + [index];
      position := Position(index, blockIndex);
      var sum := SumProbabilities(outputs, targets, width);
      logProb := logProb + sum;
      transState := newState;
    }
  }

  /** The values of a list of alignment objects, in order. */
  ghost function Views<S>(s: seq<Alignment<S>>): (r: seq<AlignmentValue<S>>)
    reads s
    ensures |r| == |s| && forall k :: 0 <= k < |s| ==> r[k] == s[k].View()
  {
    seq(|s|, k requires 0 <= k < |s| reads s => s[k].View())
  }

  lemma ViewsRemove<S>(s: seq<Alignment<S>>, i: int)
    requires 0 <= i < |s|
    ensures Views(s[..i] + s[i + 1..]) == Views(s)[..i] + Views(s)[i + 1..]
  {
  }

  lemma ViewsAppend<S>(s: seq<Alignment<S>>, a: Alignment<S>)
    ensures Views(s + [a]) == Views(s) + [a.View()]
  {
  }

  /** The insertion scenario of the alignment record's own test, with scores in
      thousandths of a nat (ln 0.7 = -357, ln 0.1 = -2303, ln 0.2 = -1609,
      ln 0.6 = -511) over the targets [1, 1, 1, 1, 1]: the second insertion
      adds its own increment to the first, so the total is their sum. */
  method InsertScenario() returns (first: int, total: int, locations: seq<int>, position: Position)
    ensures first == -357 - 2303
    ensures total == first + (-357 - 2303 - 2303)
    ensures locations == [2, 5] && position == Position(5, 2)
  {
    var a := new Alignment<int>(0);
    var targets := [1, 1, 1, 1, 1];
    a.Insert(2, 1, [[-2303, -357, -1609], [-1609, -2303, -357]], targets, 2, 0);
    first := a.logProb;
    a.Insert(5, 2, [[-1609, -357, -2303], [-1204, -2303, -511], [-1609, -2303, -357]], targets, 3, 0);
    total, locations, position := a.logProb, a.locations, a.position;
  }
}
