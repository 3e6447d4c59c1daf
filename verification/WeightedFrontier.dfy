/**
 The weighted frontier of src/scheduler.rs. Weights and draws are real numbers; the weight curve, a constant of the
 source, is a field, so that also the fallbacks for weights that sum to zero are part of the model.
 */
module WeightedFrontier {
  import opened Wrappers
  import opened Common

  type Entry = (string, nat)

  /** The curve of the source: 1.0, 0.7, 0.5, 0.3, 0.15. */
  const DEFAULT_WEIGHTS := [1.0, 0.7, 0.5, 0.3, 0.15]

  /** Anything deeper than the curve has its last weight. */
  function WeightAt(curve: seq<real>, depth: nat): real
  {
    if depth < |curve| then curve[depth] else if curve == [] then 0.15 else curve[|curve| - 1]
  }

  function Weights(curve: seq<real>, entries: seq<Entry>): seq<real>
  {
    seq(|entries|, i requires 0 <= i < |entries| => WeightAt(curve, entries[i].1))
  }

  /** The weights of the source by depth: start URLs count most, and everything from depth 4 on counts the same. */
  lemma DefaultWeightsAre(entries: seq<Entry>, i: nat)
    requires i < |entries|
    ensures var depth := entries[i].1;
            Weights(DEFAULT_WEIGHTS, entries)[i] ==
              if depth == 0 then 1.0
              else if depth == 1 then 0.7
              else if depth == 2 then 0.5
              else if depth == 3 then 0.3
              else 0.15
  {
  }

  /** With any curve an entry deeper than it has its last weight, and without one every entry has 0.15. */
  lemma WeightsAre(curve: seq<real>, entries: seq<Entry>, i: nat)
    requires i < |entries|
    ensures Weights(curve, entries)[i] ==
            if curve == [] then 0.15
            else curve[if entries[i].1 < |curve| then entries[i].1 else |curve| - 1]
  {
  }

  function Sum(w: seq<real>): real
  {
    if w == [] then 0.0 else Sum(w[..|w| - 1]) + w[|w| - 1]
  }

  /** The first entry whose cumulative weight reaches the pick; the first entry if none does. */
  function Pick(w: seq<real>, i: nat, pick: real): nat
    requires i <= |w|
    decreases |w| - i
  {
    if i == |w| then 0 else if pick <= w[i] then i else Pick(w, i + 1, pick - w[i])
  }

  function PickOf(draw: real, total: real): real
  {
    draw * total
  }

  function Chosen(w: seq<real>, draw: real): nat
  {
    if Sum(w) <= 0.0 then 0 else Pick(w, 0, PickOf(draw, Sum(w)))
  }

  class Frontier {
    const curve: seq<real>
    var entries: seq<Entry>

    constructor (curve: seq<real>)
      ensures this.curve == curve && entries == []
    {
      this.curve, this.entries := curve, [];
    }

    method Push(key: string, depth: nat)
      modifies this
      ensures entries == old(entries) + [(key, depth)]
    {
      entries := entries + [(key, depth)];
    }

    /** A key exactly when there is one; its entry alone is removed and the others keep their order. */
    method PopWeighted(draw: real) returns (key: Option<string>)
      modifies this
      ensures key.None? <==> old(entries) == []
      ensures old(entries) == [] ==> entries == []
      ensures old(entries) != [] ==>
        var i := Chosen(Weights(curve, old(entries)), draw);
        i < |old(entries)| && key == Some(old(entries)[i].0) && entries == Remove(old(entries), i)
    {
      if entries == [] {
        return None;
      }
      ghost var w := Weights(curve, entries);
      var total := 0.0;
      for i := 0 to |entries|
        invariant entries == old(entries) && total == Sum(w[..i])
      {
        assert w[..i + 1][..i] == w[..i];
        total := total + WeightAt(curve, entries[i].1);
      }
      assert w[..|entries|] == w;
      if total <= 0.0 {
        key := Some(entries[0].0);
        entries := entries[1..];
        return;
      }
      var pick := PickOf(draw, total);
      ghost var chosen := Chosen(w, draw);
      assert chosen == Pick(w, 0, pick);
      for i := 0 to |entries|
        invariant entries == old(entries) && chosen == Pick(w, i, pick)
      {
        var wi := WeightAt(curve, entries[i].1);
        if pick <= wi {
          key := Some(entries[i].0);
          entries := entries[..i] + entries[i + 1..];
          return;
        }
        pick := pick - wi;
      }
      key := Some(entries[0].0);
      entries := entries[1..];
    }
  }

  // ----- which entry it is -----

  lemma {:induction false} PickIs(w: seq<real>, i: nat, pick: real)
    requires i <= |w|
    ensures var k := Pick(w, i, pick);
      if pick <= Sum(w) - Sum(w[..i]) && i < |w| then
        i <= k < |w| && pick <= Sum(w[..k + 1]) - Sum(w[..i]) && (k > i ==> pick > Sum(w[..k]) - Sum(w[..i]))
      else true
    decreases |w| - i
  {
    if i < |w| {
      assert w[..i + 1][..i] == w[..i];
      if i + 1 == |w| {
        assert w[..|w|] == w;
      } else {
        PickIs(w, i + 1, pick - w[i]);
      }
    }
  }

  lemma {:induction false} SumGrows(w: seq<real>, i: nat, j: nat)
    requires i <= j <= |w| && forall k | 0 <= k < |w| :: w[k] >= 0.0
    ensures Sum(w[..i]) <= Sum(w[..j])
  {
    if i < j {
      SumGrows(w, i, j - 1);
      assert w[..j][..j - 1] == w[..j - 1];
    }
  }

  lemma PickIffInterval(w: seq<real>, pick: real, k: nat)
    requires (forall i | 0 <= i < |w| :: w[i] >= 0.0) && pick <= Sum(w) && k < |w|
    ensures k == Pick(w, 0, pick) <==> pick <= Sum(w[..k + 1]) && (k == 0 || pick > Sum(w[..k]))
  {
    hide Pick;
    var c := Pick(w, 0, pick);
    assert w[..0] == [] && Sum([]) == 0.0;
    PickIs(w, 0, pick);
    if c < k {
      SumGrows(w, c + 1, k);
    } else if k < c {
      SumGrows(w, k + 1, c);
    }
  }

  lemma PartOf(draw: real, total: real)
    requires total > 0.0 && 0.0 <= draw <= 1.0
    ensures 0.0 <= PickOf(draw, total) <= total && (PickOf(draw, total) == 0.0 ==> draw == 0.0)
  {
  }

  lemma PickIsProduct(draw: real, total: real)
    ensures PickOf(draw, total) == draw * total
  {
  }

  /** If the weights do not sum to more than zero, it is the first entry. */
  lemma NoWeightTakesFirst(w: seq<real>, draw: real)
    requires Sum(w) <= 0.0
    ensures Chosen(w, draw) == 0
  {
  }

  /** For a draw between 0 and 1 it is the entry whose interval of the cumulative weights holds the pick, and no
      other. */
  lemma ChosenIffInterval(w: seq<real>, draw: real, k: nat)
    requires Sum(w) > 0.0 && (forall i | 0 <= i < |w| :: w[i] >= 0.0) && 0.0 <= draw <= 1.0 && k < |w|
    ensures k == Chosen(w, draw) <==>
            draw * Sum(w) <= Sum(w[..k + 1]) && (k == 0 || draw * Sum(w) > Sum(w[..k]))
  {
    hide Pick, Sum, PickOf;
    PickIsProduct(draw, Sum(w));
    PartOf(draw, Sum(w));
    PickIffInterval(w, PickOf(draw, Sum(w)), k);
  }

  /** So a weightless entry is picked only in front and by a draw of zero. */
  lemma WeightlessIsNotPicked(w: seq<real>, draw: real, k: nat)
    requires Sum(w) > 0.0 && (forall i | 0 <= i < |w| :: w[i] >= 0.0) && 0.0 <= draw <= 1.0
    requires k < |w| && w[k] == 0.0 && Chosen(w, draw) == k
    ensures k == 0 && draw == 0.0
  {
    hide PickOf;
    ChosenIffInterval(w, draw, k);
    PartOf(draw, Sum(w));
    PickIsProduct(draw, Sum(w));
    assert w[..k + 1][..k] == w[..k] && w[..0] == [];
  }

  lemma {:induction false} SumIsLarge(w: seq<real>)
    requires forall i | 0 <= i < |w| :: w[i] >= 0.15
    ensures Sum(w) >= 0.0 && (w != [] ==> Sum(w) > 0.0)
  {
    if w == [] {
    } else {
      SumIsLarge(w[..|w| - 1]);
    }
  }

  /** With the curve of the source no fallback is ever taken: the pick falls into the interval of one entry. */
  lemma DefaultPicksByWeight(entries: seq<Entry>, draw: real, k: nat)
    requires k < |entries| && 0.0 <= draw <= 1.0
    ensures var w := Weights(DEFAULT_WEIGHTS, entries);
      && Sum(w) > 0.0
      && (k == Chosen(w, draw) <==>
          draw * Sum(w) <= Sum(w[..k + 1]) && (k == 0 || draw * Sum(w) > Sum(w[..k])))
  {
    hide *;
    var w := Weights(DEFAULT_WEIGHTS, entries);
    DefaultWeightsAreLarge(entries);
    SumIsLarge(w);
    ChosenIffInterval(w, draw, k);
  }

  lemma DefaultWeightsAreLarge(entries: seq<Entry>)
    ensures var w := Weights(DEFAULT_WEIGHTS, entries);
            |w| == |entries| && forall i | 0 <= i < |w| :: w[i] >= 0.15
  {
  }

  // ----- over whole runs -----

  datatype Op = Push(key: string, depth: nat) | Pop(draw: real)

  /** The entries left and the keys handed out after a run of operations. */
  function Run(curve: seq<real>, ops: seq<Op>): (seq<Entry>, seq<string>)
  {
    if ops == [] then ([], [])
    else
      var (entries, popped) := Run(curve, ops[..|ops| - 1]);
      match ops[|ops| - 1]
      case Push(key, depth) => (entries + [(key, depth)], popped)
      case Pop(draw) =>
        var i := Chosen(Weights(curve, entries), draw);
        if i < |entries| then (Remove(entries, i), popped + [entries[i].0]) else (entries, popped)
  }

  function Pushed(ops: seq<Op>): multiset<string>
  {
    if ops == [] then multiset{}
    else Pushed(ops[..|ops| - 1]) + (if ops[|ops| - 1].Push? then multiset{ops[|ops| - 1].key} else multiset{})
  }

  function Keys(entries: seq<Entry>): seq<string>
  {
    seq(|entries|, i requires 0 <= i < |entries| => entries[i].0)
  }

  lemma RemoveConserves(entries: seq<Entry>, i: nat)
    requires i < |entries|
    ensures multiset(Keys(entries)) == multiset(Keys(Remove(entries, i))) + multiset{entries[i].0}
  {
    var k := Keys(entries);
    assert Keys(Remove(entries, i)) == k[..i] + k[i + 1..];
    assert k == k[..i] + ([k[i]] + k[i + 1..]);
  }

  lemma PushConserves(entries: seq<Entry>, key: string, depth: nat)
    ensures multiset(Keys(entries + [(key, depth)])) == multiset(Keys(entries)) + multiset{key}
  {
    assert Keys(entries + [(key, depth)]) == Keys(entries) + [key];
  }

  /** No key is lost or made up: the keys pushed are those handed out and those still in the frontier. */
  lemma {:induction false} RunConserves(curve: seq<real>, ops: seq<Op>)
    ensures var (entries, popped) := Run(curve, ops);
      Pushed(ops) == multiset(popped) + multiset(Keys(entries))
  {
    hide Chosen, Weights, Keys, Remove;
    if ops == [] {
      NoKeys();
    } else {
      RunConserves(curve, ops[..|ops| - 1]);
      var (entries, popped) := Run(curve, ops[..|ops| - 1]);
      match ops[|ops| - 1]
      case Push(key, depth) =>
        PushConserves(entries, key, depth);
      case Pop(draw) =>
        var i := Chosen(Weights(curve, entries), draw);
        if i < |entries| {
          RemoveConserves(entries, i);
        }
    }
  }

  lemma NoKeys()
    ensures Keys([]) == []
  {
  }
}
