/**
 * The smooth weighted round-robin that ROUND_ROBIN mode uses to choose the next
 * orchestrator. Every call adds each orchestrator's weight to its current weight,
 * picks the first largest one and charges it the total weight.
 */
module WeightedRoundRobin {
  import opened Prelude

  // ---------------------------------------------------------------------------
  // One call, as a function of the weights and the current weights
  // ---------------------------------------------------------------------------

  function Sum(s: seq<int>): int {
    if s == [] then 0 else Sum(s[..|s| - 1]) + s[|s| - 1]
  }

  /** The sum of the weights, W below. */
  function Total(w: seq<nat>): (t: int)
    ensures t == Sum(w) >= 0
  {
    SumAbove(w, 0);
    Sum(w)
  }

  function Zeros(n: nat): (z: seq<int>)
    ensures |z| == n && forall i :: 0 <= i < n ==> z[i] == 0
  {
    seq(n, _ => 0)
  }

  function Bumped(w: seq<nat>, cw: seq<int>): (b: seq<int>)
    requires |w| == |cw|
    ensures |b| == |w| && forall i :: 0 <= i < |w| ==> b[i] == cw[i] + w[i]
  {
    seq(|w|, i requires 0 <= i < |w| => cw[i] + w[i])
  }

  /** The leader among the first n entries: later entries must be strictly larger to replace it. */
  function Leader(b: seq<int>, n: nat): (r: Option<nat>)
    requires n <= |b|
    ensures r.Some? ==> r.value < n
  {
    if n == 0 then None
    else
      var prev := Leader(b, n - 1);
      if b[n - 1] > Highest(b, prev) then Some(n - 1) else prev
  }

  function Highest(b: seq<int>, leader: Option<nat>): int
    requires leader.Some? ==> leader.value < |b|
  {
    if leader.Some? then b[leader.value] else -1
  }

  function Advance(w: seq<nat>, cw: seq<int>): (r: seq<int>)
    requires |w| == |cw|
    ensures |r| == |w|
  {
    var b := Bumped(w, cw);
    var leader := Leader(b, |w|);
    if leader.None? then b else b[leader.value := b[leader.value] - Total(w)]
  }

  /** The current weights after m calls from the initial state. */
  function After(w: seq<nat>, m: nat): (r: seq<int>)
    ensures |r| == |w|
  {
    if m == 0 then Zeros(|w|) else Advance(w, After(w, m - 1))
  }

  /** Entry i holds the largest value, and no earlier entry holds it too. */
  ghost predicate FirstMaximum(b: seq<int>, i: nat) {
    && i < |b|
    && (forall j :: 0 <= j < |b| ==> b[j] <= b[i])
    && (forall j :: 0 <= j < i ==> b[j] < b[i])
  }

  /** The entry picked by call number m (the first call is number 0). */
  ghost function Pick(w: seq<nat>, m: nat): (i: nat)
    requires |w| > 0
    ensures i < |w|
    ensures Leader(Bumped(w, After(w, m)), |w|) == Some(i)
  {
    SomeoneIsPicked(w, m);
    Leader(Bumped(w, After(w, m)), |w|).value
  }

  /** How many of the calls from..to-1 pick entry i. */
  ghost function Picks(w: seq<nat>, i: nat, from: nat, until: nat): nat
    requires |w| > 0 && from <= until
    decreases until
  {
    if from == until then 0 else Picks(w, i, from, until - 1) + (if Pick(w, until - 1) == i then 1 else 0)
  }

  // ---------------------------------------------------------------------------
  // Arithmetic on sequences
  // ---------------------------------------------------------------------------

  lemma {:induction false} SumUpdate(s: seq<int>, i: nat, v: int)
    requires i < |s|
    ensures Sum(s[i := v]) == Sum(s) - s[i] + v
  {
    var last := |s| - 1;
    if i < last {
      SumUpdate(s[..last], i, v);
      assert s[i := v][..last] == s[..last][i := v];
    } else {
      assert s[i := v][..last] == s[..last];
    }
  }

  lemma {:induction false} SumBumped(w: seq<nat>, cw: seq<int>)
    requires |w| == |cw|
    ensures Sum(Bumped(w, cw)) == Sum(w) + Sum(cw)
  {
    if |w| > 0 {
      var last := |w| - 1;
      SumBumped(w[..last], cw[..last]);
      assert Bumped(w, cw)[..last] == Bumped(w[..last], cw[..last]);
    }
  }

  lemma {:induction false} SumZeros(n: nat)
    ensures Sum(Zeros(n)) == 0
  {
    if n > 0 {
      SumZeros(n - 1);
      assert Zeros(n)[..n - 1] == Zeros(n - 1);
    }
  }

  lemma {:induction false} SumAbove(s: seq<int>, low: int)
    requires forall j :: 0 <= j < |s| ==> s[j] >= low
    ensures Sum(s) >= |s| * low
  {
    if |s| > 0 {
      SumAbove(s[..|s| - 1], low);
    }
  }

  lemma {:induction false} SumBelow(s: seq<int>, high: int)
    requires forall j :: 0 <= j < |s| ==> s[j] <= high
    ensures Sum(s) <= |s| * high
  {
    if |s| > 0 {
      SumBelow(s[..|s| - 1], high);
    }
  }

  /** A sum bounds each of its members when the others are bounded below. */
  lemma {:induction false} MemberBelow(s: seq<int>, i: nat, low: int)
    requires i < |s|
    requires forall j :: 0 <= j < |s| ==> s[j] >= low
    ensures s[i] <= Sum(s) - (|s| - 1) * low
  {
    SumUpdate(s, i, low);
    SumAbove(s[i := low], low);
  }

  // ---------------------------------------------------------------------------
  // The pick
  // ---------------------------------------------------------------------------

  lemma {:induction false} LeaderIsFirstMaximum(b: seq<int>, n: nat)
    requires n <= |b|
    ensures Leader(b, n).None? <==> forall j :: 0 <= j < n ==> b[j] <= -1
    ensures Leader(b, n).Some? ==> FirstMaximum(b[..n], Leader(b, n).value) && b[Leader(b, n).value] > -1
  {
    if n > 0 {
      LeaderIsFirstMaximum(b, n - 1);
    }
  }

  /** From current weights that cancel out, a call always finds a leader, and they cancel out again. */
  lemma AdvanceEffect(w: seq<nat>, cw: seq<int>) returns (i: nat)
    requires |w| == |cw| > 0 && Sum(cw) == 0
    ensures Leader(Bumped(w, cw), |w|) == Some(i)
    ensures FirstMaximum(Bumped(w, cw), i)
    ensures Bumped(w, cw)[i] >= 0 && (Total(w) > 0 ==> Bumped(w, cw)[i] > 0)
    ensures forall j :: 0 <= j < |w| ==> Advance(w, cw)[j] == cw[j] + w[j] - (if j == i then Total(w) else 0)
    ensures Sum(Advance(w, cw)) == 0
  {
    hide Bumped, Leader, Sum, Total;
    var b := Bumped(w, cw);
    SumBumped(w, cw);
    assert Sum(b) == Total(w);
    LeaderIsFirstMaximum(b, |b|);
    assert b[..|b|] == b;
    if forall j :: 0 <= j < |b| ==> b[j] <= -1 {
      SumBelow(b, -1);
      assert false;
    }
    i := Leader(b, |b|).value;
    if b[i] <= 0 {
      SumBelow(b, 0);
    }
    SumUpdate(b, i, b[i] - Total(w));
  }

  lemma AdvanceIs(w: seq<nat>, cw: seq<int>, i: nat)
    requires |w| == |cw| && Leader(Bumped(w, cw), |w|) == Some(i)
    ensures forall j :: 0 <= j < |w| ==> Advance(w, cw)[j] == cw[j] + w[j] - (if j == i then Total(w) else 0)
  {
  }

  /** The current weights always add up to zero. */
  lemma {:induction false} Balanced(w: seq<nat>, m: nat)
    requires |w| > 0
    ensures Sum(After(w, m)) == 0
  {
    if m == 0 {
      SumZeros(|w|);
    } else {
      Balanced(w, m - 1);
      var i := AdvanceEffect(w, After(w, m - 1));
    }
  }

  /** On a non-empty list a call never comes back without a client. */
  lemma SomeoneIsPicked(w: seq<nat>, m: nat)
    requires |w| > 0
    ensures Leader(Bumped(w, After(w, m)), |w|).Some?
  {
    Balanced(w, m);
    var i := AdvanceEffect(w, After(w, m));
  }

  /**
   * Call m picks the first client whose raised weight is the largest, never one below zero, and
   * charges the total weight to that client alone.
   */
  lemma PickIsFirstMaximum(w: seq<nat>, m: nat)
    requires |w| > 0
    ensures FirstMaximum(Bumped(w, After(w, m)), Pick(w, m))
    ensures Bumped(w, After(w, m))[Pick(w, m)] >= 0
    ensures Total(w) > 0 ==> Bumped(w, After(w, m))[Pick(w, m)] > 0
    ensures forall j :: 0 <= j < |w| ==>
                          After(w, m + 1)[j] == After(w, m)[j] + w[j] - (if j == Pick(w, m) then Total(w) else 0)
  {
    Balanced(w, m);
    var i := AdvanceEffect(w, After(w, m));
  }

  // ---------------------------------------------------------------------------
  // Fairness
  // ---------------------------------------------------------------------------

  /** What a client has been given against what it has been charged: the key accounting identity. */
  lemma {:induction false} Accounting(w: seq<nat>, m: nat, i: nat)
    requires i < |w|
    ensures After(w, m)[i] == m * w[i] - Total(w) * Picks(w, i, 0, m)
    ensures Total(w) > 0 ==> After(w, m)[i] > -Total(w)
  {
    hide Advance, Bumped, Leader, Sum, Total, Pick;
    if m > 0 {
      Accounting(w, m - 1, i);
      var hit := AccountingStep(w, m - 1, i);
      NextProduct(m - 1, w[i]);
      NextProduct(Picks(w, i, 0, m - 1), Total(w));
    }
  }

  lemma AccountingStep(w: seq<nat>, m: nat, i: nat) returns (hit: bool)
    requires i < |w|
    ensures After(w, m + 1)[i] == After(w, m)[i] + w[i] - (if hit then Total(w) else 0)
    ensures Picks(w, i, 0, m + 1) == Picks(w, i, 0, m) + (if hit then 1 else 0)
    ensures hit && Total(w) > 0 ==> After(w, m)[i] + w[i] > 0
  {
    hit := Pick(w, m) == i;
    PickIsFirstMaximum(w, m);
  }

  lemma NextProduct(a: int, b: int)
    ensures (a + 1) * b == a * b + b
    ensures b * (a + 1) == b * a + b
  {
  }

  lemma Distribute(a: int, b: int, c: int)
    ensures a * b - a * c == a * (b - c)
  {
  }

  /**
   * Bounded unfairness at every prefix: after m calls every current weight lies strictly
   * between -W and (n-1)W, so client i has been picked less than one turn too often and
   * less than n-1 turns too rarely.
   */
  lemma {:induction false} BoundedUnfairness(w: seq<nat>, m: nat, i: nat)
    requires i < |w| && Total(w) > 0
    ensures Sum(After(w, m)) == 0
    ensures -Total(w) < After(w, m)[i]
    ensures |w| == 1 ==> After(w, m)[i] == 0
    ensures |w| >= 2 ==> After(w, m)[i] < (|w| - 1) * Total(w)
    ensures Total(w) * Picks(w, i, 0, m) < m * w[i] + Total(w)
    ensures |w| >= 2 ==> Total(w) * Picks(w, i, 0, m) > m * w[i] - (|w| - 1) * Total(w)
  {
    var cw := After(w, m);
    Balanced(w, m);
    Accounting(w, m, i);
    forall j | 0 <= j < |w| ensures cw[j] > -Total(w) {
      Accounting(w, m, j);
    }
    BelowTheRest(cw, i, Total(w));
  }

  lemma BelowTheRest(cw: seq<int>, i: nat, total: int)
    requires i < |cw| && Sum(cw) == 0
    requires forall j :: 0 <= j < |cw| ==> cw[j] > -total
    ensures |cw| == 1 ==> cw[i] == 0
    ensures |cw| >= 2 ==> cw[i] < (|cw| - 1) * total
  {
    MemberBelow(cw, i, 1 - total);
    Distribute(|cw| - 1, 1, total);
    if |cw| == 1 {
      assert cw[..0] == [];
    }
  }

  /** After exactly W calls every client has had exactly its weight in turns, and all is back to zero. */
  lemma {:induction false} FullRound(w: seq<nat>)
    requires |w| > 0
    ensures After(w, Total(w)) == Zeros(|w|)
    ensures forall i :: 0 <= i < |w| ==> Picks(w, i, 0, Total(w)) == w[i]
  {
    var cw := After(w, Total(w));
    if Total(w) > 0 {
      Balanced(w, Total(w));
      forall i | 0 <= i < |w| ensures cw[i] >= 0 && (cw[i] == 0 ==> Picks(w, i, 0, Total(w)) == w[i]) {
        RoundEntry(w, i);
      }
      forall i | 0 <= i < |w| ensures cw[i] == 0 {
        MemberBelow(cw, i, 0);
      }
    } else {
      forall i | 0 <= i < |w| ensures w[i] == 0 {
        MemberBelow(w, i, 0);
      }
    }
  }

  lemma RoundEntry(w: seq<nat>, i: nat)
    requires i < |w| && Total(w) > 0
    ensures After(w, Total(w))[i] >= 0
    ensures After(w, Total(w))[i] == 0 ==> Picks(w, i, 0, Total(w)) == w[i]
  {
    hide After, Total, Picks;
    Accounting(w, Total(w), i);
    Distribute(Total(w), w[i], Picks(w, i, 0, Total(w)));
    MultipleAbove(Total(w), w[i] - Picks(w, i, 0, Total(w)));
  }

  lemma MultipleAbove(total: int, k: int)
    requires total > 0
    ensures total * k > -total ==> total * k >= 0
    ensures total * k == 0 ==> k == 0
  {
    if k < 0 {
      assert total * k <= total * -1;
    }
    if k > 0 {
      assert total * k >= total * 1;
    }
  }

  /** The calls repeat with period W. */
  lemma {:induction false} Periodic(w: seq<nat>, m: nat)
    requires |w| > 0
    ensures After(w, m + Total(w)) == After(w, m)
    ensures Pick(w, m + Total(w)) == Pick(w, m)
  {
    hide Advance, Leader, Pick, Sum, Bumped, Total;
    if m == 0 {
      FullRound(w);
    } else {
      Periodic(w, m - 1);
      NextFollows(w, m - 1, m - 1 + Total(w));
    }
  }

  lemma AfterNext(w: seq<nat>, m: nat)
    requires m > 0
    ensures After(w, m) == Advance(w, After(w, m - 1))
  {
  }

  /** Equal current weights lead to equal current weights. */
  lemma NextFollows(w: seq<nat>, m: nat, n: nat)
    requires |w| > 0 && After(w, m) == After(w, n)
    ensures After(w, m + 1) == After(w, n + 1) && Pick(w, m + 1) == Pick(w, n + 1)
  {
  }

  lemma {:induction false} PicksFirst(w: seq<nat>, i: nat, from: nat, until: nat)
    requires |w| > 0 && from < until
    ensures Picks(w, i, from, until) == (if Pick(w, from) == i then 1 else 0) + Picks(w, i, from + 1, until)
    decreases until
  {
    if from + 1 < until {
      PicksFirst(w, i, from, until - 1);
    }
  }

  /** Exact fairness: ANY window of W consecutive calls picks client i exactly weight-many times. */
  lemma {:induction false} ExactFairness(w: seq<nat>, i: nat, from: nat)
    requires i < |w|
    ensures Picks(w, i, from, from + Total(w)) == w[i]
  {
    hide After, Pick, Total;
    if from == 0 {
      FullRound(w);
    } else {
      ExactFairness(w, i, from - 1);
      if Total(w) > 0 {
        SlideWindow(w, i, from - 1);
      }
    }
  }

  lemma SlideWindow(w: seq<nat>, i: nat, from: nat)
    requires |w| > 0 && Total(w) > 0
    ensures Picks(w, i, from + 1, from + 1 + Total(w)) == Picks(w, i, from, from + Total(w))
  {
    hide After, Pick, Total;
    Periodic(w, from);
    PicksFirst(w, i, from, from + Total(w));
    assert from + 1 + Total(w) - 1 == from + Total(w);
  }

  lemma {:induction false} SomePickInWindow(w: seq<nat>, i: nat, from: nat, until: nat) returns (m: nat)
    requires |w| > 0 && from <= until && Picks(w, i, from, until) > 0
    ensures from <= m < until && Pick(w, m) == i
    decreases until
  {
    hide Pick;
    if Pick(w, until - 1) == i {
      m := until - 1;
    } else {
      m := SomePickInWindow(w, i, from, until - 1);
    }
  }

  /** No client with a positive weight waits for W calls or more, wherever the waiting starts. */
  lemma NoStarvation(w: seq<nat>, i: nat, from: nat)
    requires i < |w| && w[i] > 0
    ensures exists m :: from <= m < from + Total(w) && Pick(w, m) == i
  {
    hide After, Pick, Total;
    ExactFairness(w, i, from);
    var m := SomePickInWindow(w, i, from, from + Total(w));
  }

  /**
   * A client of weight zero is ever picked exactly when all weights are zero and it is the first
   * in the list.
   */
  lemma ZeroWeightPickedIff(w: seq<nat>, i: nat)
    requires i < |w| && w[i] == 0
    ensures (exists m: nat :: Pick(w, m) == i) <==> Total(w) == 0 && i == 0
  {
    hide After, Pick, Total;
    if Total(w) > 0 {
      forall m: nat ensures Pick(w, m) != i {
        ExactFairness(w, i, m);
        PicksFirst(w, i, m, m + Total(w));
      }
    } else {
      forall m: nat ensures Pick(w, m) == 0 {
        AllZero(w, m);
      }
      assert Pick(w, 0) == 0;
    }
  }

  lemma {:induction false} AllZero(w: seq<nat>, m: nat)
    requires |w| > 0 && Total(w) == 0
    ensures After(w, m) == Zeros(|w|) && Pick(w, m) == 0
  {
    hide Bumped, Leader, Pick, Sum, Total, Advance;
    forall i | 0 <= i < |w| ensures w[i] == 0 {
      MemberBelow(w, i, 0);
    }
    if m > 0 {
      AllZero(w, m - 1);
      PickIsFirstMaximum(w, m - 1);
    }
    PickIsFirstMaximum(w, m);
    assert Bumped(w, After(w, m))[0] == 0;
  }

  /** One entry further. */
  lemma LeaderNext(b: seq<int>, k: nat)
    requires k <= |b|
    ensures Leader(b, 0) == None
    ensures k < |b| ==> Leader(b, k + 1) == if b[k] > Highest(b, Leader(b, k)) then Some(k) else Leader(b, k)
  {
  }

  // ---------------------------------------------------------------------------
  // The code: dictionaries whose current_weight is updated in place
  // ---------------------------------------------------------------------------

  class Orchestrator {
    const weight: nat
    var currentWeight: int

    constructor (weight: nat)
      ensures this.weight == weight && currentWeight == 0
    {
      this.weight := weight;
      currentWeight := 0;
    }
  }

  class ClientRing {
    const clients: seq<(Orchestrator, Transport)>
    const totalWeight: int
    ghost var calls: nat

    ghost function Entries(): set<Orchestrator> {
      set i | 0 <= i < |clients| :: clients[i].0
    }

    ghost function Weights(): (w: seq<nat>)
      ensures |w| == |clients|
    {
      seq(|clients|, i requires 0 <= i < |clients| => clients[i].0.weight)
    }

    /** The dictionaries hold these current weights. */
    ghost predicate Holds(cw: seq<int>)
      reads Entries()
    {
      |cw| == |clients| && forall i :: 0 <= i < |clients| ==> clients[i].0.currentWeight == cw[i]
    }

    ghost predicate Distinct() {
      forall i, j :: 0 <= i < j < |clients| ==> clients[i].0 != clients[j].0 && clients[i].1 != clients[j].1
    }

    ghost predicate Valid()
      reads this, Entries()
    {
      && Distinct()
      && totalWeight == Total(Weights())
      && Holds(After(Weights(), calls))
    }

    constructor (clients: seq<(Orchestrator, Transport)>)
      requires forall i, j :: 0 <= i < j < |clients| ==> clients[i].0 != clients[j].0 && clients[i].1 != clients[j].1
      modifies set i | 0 <= i < |clients| :: clients[i].0
      ensures Valid() && this.clients == clients && calls == 0
    {
      var total := 0;
      this.clients := clients;
      calls := 0;
      ghost var weights: seq<int> := seq(|clients|, i requires 0 <= i < |clients| => clients[i].0.weight);
      for k := 0 to |clients|
        invariant total == Sum(weights[..k])
        invariant forall i :: 0 <= i < k ==> clients[i].0.currentWeight == 0
      {
        clients[k].0.currentWeight := 0;
        total := total + clients[k].0.weight;
        assert weights[..k + 1][..k] == weights[..k];
      }
      totalWeight := total;
      new;
      assert weights[..|clients|] == weights;
      assert Weights() == weights;
    }

    /** First loop: every current weight grows by its weight; the first largest one is selected. */
    method Raise(ghost cw: seq<int>) returns (selected: Option<Transport>)
      requires Distinct() && Holds(cw)
      modifies Entries()
      ensures Holds(Bumped(Weights(), cw))
      ensures var leader := Leader(Bumped(Weights(), cw), |clients|);
              selected == if leader.Some? then Some(clients[leader.value].1) else None
    {
      hide Sum, Total, Advance, After, Bumped, Leader;
      selected := None;
      var highestWeight := -1;
      ghost var b := Bumped(Weights(), cw);
      LeaderNext(b, 0);
      ghost var leader: Option<nat> := None;
      for k := 0 to |clients|
        invariant forall i :: 0 <= i < k ==> clients[i].0.currentWeight == b[i]
        invariant forall i :: k <= i < |clients| ==> clients[i].0.currentWeight == cw[i]
        invariant leader == Leader(b, k)
        invariant selected == if leader.Some? then Some(clients[leader.value].1) else None
        invariant highestWeight == Highest(b, leader)
      {
        var (o, client) := clients[k];
        LeaderNext(b, k);
        o.currentWeight := o.currentWeight + o.weight;
        if o.currentWeight > highestWeight {
          highestWeight := o.currentWeight;
          selected := Some(client);
          leader := Some(k);
        }
      }
    }

    /** Second loop: the entry whose transport was selected pays the total weight. */
    method Charge(selected: Transport, ghost picked: nat, ghost b: seq<int>)
      requires Distinct() && Holds(b) && picked < |clients| && clients[picked].1 == selected
      modifies Entries()
      ensures forall i :: 0 <= i < |clients| ==>
                            clients[i].0.currentWeight == b[i] - (if i == picked then totalWeight else 0)
    {
      for k := 0 to |clients|
        invariant Holds(b) && k <= picked
      {
        if clients[k].1 == selected {
          clients[k].0.currentWeight := clients[k].0.currentWeight - totalWeight;
          break;
        }
      }
    }

    /** Returns the client that the specification picks for this call, or None on an empty list. */
    method GetNextClient() returns (selected: Option<Transport>)
      requires Valid()
      modifies this`calls, Entries()
      ensures Valid()
      ensures calls == if |clients| == 0 then old(calls) else old(calls) + 1
      ensures selected == if |clients| == 0 then None else Some(clients[Pick(Weights(), old(calls))].1)
    {
      hide Advance, Leader, Bumped, Total, Picks;
      if |clients| == 0 {
        return None;
      }
      ghost var w, cw := Weights(), After(Weights(), calls);
      ghost var picked := Pick(w, calls);
      selected := Raise(cw);
      if selected.Some? {
        Charge(selected.value, picked, Bumped(w, cw));
      }
      AdvanceIs(w, cw, picked);
      calls := calls + 1;
      AfterNext(w, calls);
    }
  }
}
