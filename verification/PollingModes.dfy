/**
 * One round of the polling loop in each of the three modes: which orchestrators are asked, given
 * what the state checks and the polls on the way come to.
 */
module PollingModes {
  import opened Prelude

  datatype Mode = Waterfall | RoundRobin | Failover

  /**
   * The round asks exactly the first k orchestrators: it ends before one when the worker is busy,
   * and, if it stops at a task, after one that had a task.
   */
  ghost predicate AsksFirst(stopAtTask: bool, busy: seq<bool>, found: seq<bool>, k: nat)
    requires |busy| == |found|
  {
    && k <= |busy|
    && (forall i :: 0 <= i < k ==> !busy[i])
    && (stopAtTask ==> forall i :: 0 <= i < k - 1 ==> !found[i])
    && (k < |busy| ==> busy[k] || (stopAtTask && k > 0 && found[k - 1]))
  }

  /**
   * busy[i] is what the check before orchestrator i says, found[i] whether its poll brings a task,
   * next the choice of the weighted round-robin.
   */
  method PollRound(mode: Mode, next: Option<nat>, busy: seq<bool>, found: seq<bool>)
    returns (asked: seq<nat>, any: bool)
    requires |busy| == |found| && (next.Some? ==> next.value < |found|)
    ensures mode == RoundRobin ==> asked == if next.Some? then [next.value] else []
    ensures mode != RoundRobin ==> AsksFirst(mode == Waterfall, busy, found, |asked|)
    ensures mode != RoundRobin ==> forall i :: 0 <= i < |asked| ==> asked[i] == i
    ensures forall i :: 0 <= i < |asked| ==> asked[i] < |found|
    ensures any <==> exists i :: 0 <= i < |asked| && found[asked[i]]
  {
    asked, any := [], false;
    if mode == RoundRobin {
      if next.Some? {
        asked, any := [next.value], found[next.value];
        assert asked[0] == next.value;
      }
      return;
    }
    for k := 0 to |busy|
      invariant |asked| == k && forall i :: 0 <= i < k ==> asked[i] == i && !busy[i]
      invariant mode == Waterfall ==> !any && forall i :: 0 <= i < k ==> !found[i]
      invariant any <==> exists i :: 0 <= i < k && found[asked[i]]
    {
      if busy[k] {
        return;
      }
      asked := asked + [k];
      if found[k] {
        any := true;
        assert found[asked[k]];
        if mode == Waterfall {
          return;
        }
      }
    }
  }

  /**
   * FAILOVER asks every orchestrator until the worker is busy. It asks the same ones as a loop
   * that goes on only when the previous one had no task exactly if none but the last had one;
   * otherwise it asks more.
   */
  lemma FailoverGoesOn(busy: seq<bool>, found: seq<bool>, asked: nat, documented: nat)
    requires |busy| == |found|
    requires AsksFirst(false, busy, found, asked) && AsksFirst(true, busy, found, documented)
    ensures documented <= asked
    ensures documented == asked <==> forall i :: 0 <= i < asked - 1 ==> !found[i]
  {
    if documented < asked {
      assert found[documented - 1];
    }
  }
}
