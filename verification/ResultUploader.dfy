/**
 * The background uploader: it takes results from a FIFO queue one at a time and sends each with
 * bounded retries. The orchestrators' answers, in the order of the send calls, are an arbitrary
 * given function.
 */
module ResultUploader {
  import opened Prelude

  /** A reply ends the attempts for a result whether or not the orchestrator wanted it. */
  datatype Answer = Accepted | Ignored | RateLimited(retryAfter: real) | Failed {
    predicate Reply() {
      Accepted? || Ignored?
    }
  }

  datatype Policy = Policy(maxRetries: nat, initialDelay: real)

  /** The attempts made for one result: `attempts` send calls starting with call number `first`. */
  datatype Block = Block(first: nat, attempts: nat, sleeps: seq<real>) {
    function End(): nat {
      first + attempts
    }

    predicate Has(n: int) {
      first <= n < End()
    }
  }

  // ---------------------------------------------------------------------------
  // What one block looks like
  // ---------------------------------------------------------------------------

  function BaseDelay(p: Policy, k: nat): real {
    p.initialDelay * Pow2(k)
  }

  lemma NextBaseDelay(p: Policy, k: nat)
    ensures BaseDelay(p, k + 1) == BaseDelay(p, k) * 2.0
  {
  }

  /** The pause after the k-th failure: a 429 waits for Retry-After if that is longer. */
  function PauseAfter(p: Policy, a: Answer, k: nat): real {
    if a.RateLimited? then Max(a.retryAfter, BaseDelay(p, k)) else BaseDelay(p, k)
  }

  ghost predicate ProperBlock(p: Policy, answers: nat -> Answer, b: Block) {
    && b.attempts <= p.maxRetries
    // only the last attempt can be answered, and only an answer ends the block early
    && (forall n: nat :: b.Has(n) && n < b.End() - 1 ==> !answers(n).Reply())
    && (b.attempts < p.maxRetries ==> b.attempts >= 1 && answers(b.End() - 1).Reply())
    // a pause follows every failure but a last one that is not a 429
    && |b.sleeps| == (if b.attempts > 0 && !answers(b.End() - 1).RateLimited? then b.attempts - 1 else b.attempts)
    && (forall k :: 0 <= k < |b.sleeps| ==> b.sleeps[k] == PauseAfter(p, answers(b.first + k), k))
  }

  /** The pauses of a block: initial * 2^k after the k-th failure, or the Retry-After of a 429 if that is longer. */
  lemma PausesAre(p: Policy, answers: nat -> Answer, b: Block, k: nat)
    requires ProperBlock(p, answers, b) && k < |b.sleeps|
    ensures answers(b.first + k).Failed? || answers(b.first + k).RateLimited?
    ensures var base, answer := p.initialDelay * Pow2(k), answers(b.first + k);
            && (answer.Failed? ==> b.sleeps[k] == base)
            && (answer.RateLimited? ==> b.sleeps[k] == if answer.retryAfter > base then answer.retryAfter else base)
  {
    assert b.Has(b.first + k);
  }

  /** The description is complete: policy, answers and first call determine the block. */
  lemma BlockIsDetermined(p: Policy, answers: nat -> Answer, b: Block, c: Block)
    requires ProperBlock(p, answers, b) && ProperBlock(p, answers, c) && b.first == c.first
    ensures b == c
  {
    if b.attempts < c.attempts {
      assert c.Has(b.End() - 1);
    }
    if c.attempts < b.attempts {
      assert b.Has(c.End() - 1);
    }
    assert |b.sleeps| == |c.sleeps|;
    forall k | 0 <= k < |b.sleeps| ensures b.sleeps[k] == c.sleeps[k] {
    }
  }

  // ---------------------------------------------------------------------------
  // How long a block sleeps
  // ---------------------------------------------------------------------------

  function Total(s: seq<real>): real {
    if s == [] then 0.0 else Total(s[..|s| - 1]) + s[|s| - 1]
  }

  lemma Doubling(a: real, k: nat)
    ensures a * (Pow2(k + 1) - 1.0) == a * (Pow2(k) - 1.0) + a * Pow2(k)
  {
    var x := Pow2(k);
    assert a * (2.0 * x - 1.0) == a * (x - 1.0) + a * x;
  }

  lemma PowZero()
    ensures Pow2(0) == 1.0
  {
  }

  lemma {:induction false} DoublingTotal(p: Policy, s: seq<real>, n: nat)
    requires |s| == n
    requires forall k :: 0 <= k < n ==> s[k] >= BaseDelay(p, k)
    ensures Total(s) >= p.initialDelay * (Pow2(n) - 1.0)
    ensures (forall k :: 0 <= k < n ==> s[k] == BaseDelay(p, k)) ==> Total(s) == p.initialDelay * (Pow2(n) - 1.0)
  {
    hide Pow2;
    if n > 0 {
      DoublingTotal(p, s[..n - 1], n - 1);
      Doubling(p.initialDelay, n - 1);
    } else {
      assert Pow2(0) == 1.0 by {
        PowZero();
      }
    }
  }

  /** r failures of the ordinary kind sleep initial * (2^(r-1) - 1) in total. */
  lemma GivingUpOnErrors(p: Policy, answers: nat -> Answer, b: Block)
    requires ProperBlock(p, answers, b) && p.maxRetries >= 1
    requires forall n: nat :: b.Has(n) ==> answers(n).Failed?
    ensures b.attempts == p.maxRetries
    ensures Total(b.sleeps) == p.initialDelay * (Pow2(p.maxRetries - 1) - 1.0)
  {
    assert b.Has(b.End() - 1);
    forall k | 0 <= k < |b.sleeps| ensures b.sleeps[k] == BaseDelay(p, k) {
      assert b.Has(b.first + k);
    }
    DoublingTotal(p, b.sleeps, p.maxRetries - 1);
  }

  /** r answers of 429 sleep at least initial * (2^r - 1): a 429 on the last attempt still sleeps. */
  lemma GivingUpOnRateLimits(p: Policy, answers: nat -> Answer, b: Block)
    requires ProperBlock(p, answers, b) && p.maxRetries >= 1
    requires forall n: nat :: b.Has(n) ==> answers(n).RateLimited?
    ensures b.attempts == p.maxRetries
    ensures Total(b.sleeps) >= p.initialDelay * (Pow2(p.maxRetries) - 1.0)
  {
    SleepsOfRateLimits(p, answers, b);
    hide *;
    DoublingTotal(p, b.sleeps, p.maxRetries);
  }

  lemma SleepsOfRateLimits(p: Policy, answers: nat -> Answer, b: Block)
    requires ProperBlock(p, answers, b) && p.maxRetries >= 1
    requires forall n: nat :: b.Has(n) ==> answers(n).RateLimited?
    ensures b.attempts == |b.sleeps| == p.maxRetries
    ensures forall k :: 0 <= k < |b.sleeps| ==> b.sleeps[k] >= BaseDelay(p, k)
  {
    hide BaseDelay;
    assert b.Has(b.End() - 1);
    forall k | 0 <= k < |b.sleeps| ensures b.sleeps[k] >= BaseDelay(p, k) {
      assert b.Has(b.first + k);
    }
  }

  // ---------------------------------------------------------------------------
  // The order of all send calls
  // ---------------------------------------------------------------------------

  /** Blocks follow each other without gap or overlap. */
  ghost predicate Consecutive(p: Policy, answers: nat -> Answer, blocks: seq<Block>) {
    forall k :: 0 <= k < |blocks| ==>
                  ProperBlock(p, answers, blocks[k]) && blocks[k].first == Calls(blocks[..k])
  }

  /** How many send calls the blocks made. */
  function Calls(blocks: seq<Block>): nat {
    if blocks == [] then 0 else Calls(blocks[..|blocks| - 1]) + blocks[|blocks| - 1].attempts
  }

  /** For each send call, the position in the queue's history of the result it carried. */
  function Sent(blocks: seq<Block>): (s: seq<nat>)
    ensures |s| == Calls(blocks)
  {
    if blocks == [] then []
    else Sent(blocks[..|blocks| - 1]) + seq(blocks[|blocks| - 1].attempts, _ => |blocks| - 1)
  }

  /** The last block comes after all the others. */
  lemma SentSplit(blocks: seq<Block>)
    requires blocks != []
    ensures var init := blocks[..|blocks| - 1];
            && Calls(blocks) == Calls(init) + blocks[|blocks| - 1].attempts
            && forall n :: 0 <= n < Calls(blocks) ==>
                             Sent(blocks)[n] == if n < Calls(init) then Sent(init)[n] else |blocks| - 1
  {
  }

  lemma ConsecutivePrefix(p: Policy, answers: nat -> Answer, blocks: seq<Block>)
    requires Consecutive(p, answers, blocks) && blocks != []
    ensures Consecutive(p, answers, blocks[..|blocks| - 1])
    ensures ProperBlock(p, answers, blocks[|blocks| - 1])
    ensures blocks[|blocks| - 1].first == Calls(blocks[..|blocks| - 1])
  {
    assert forall j :: 0 <= j < |blocks| - 1 ==> blocks[..|blocks| - 1][..j] == blocks[..j];
  }

  /**
   * Results are sent in the order of the queue and never interleave; after a reply the result is
   * not sent again; and every result is attempted between once and maxRetries times.
   */
  lemma {:induction false} SentInOrder(p: Policy, answers: nat -> Answer, blocks: seq<Block>)
    requires Consecutive(p, answers, blocks)
    ensures forall n :: 0 <= n < Calls(blocks) ==> Sent(blocks)[n] < |blocks|
    ensures forall n, m :: 0 <= n < m < Calls(blocks) ==> Sent(blocks)[n] <= Sent(blocks)[m]
    ensures forall n, m :: 0 <= n < m < Calls(blocks) && answers(n).Reply() ==> Sent(blocks)[n] < Sent(blocks)[m]
  {
    if blocks != [] {
      hide Sent, Calls, Consecutive;
      var init, b := blocks[..|blocks| - 1], blocks[|blocks| - 1];
      ConsecutivePrefix(p, answers, blocks);
      SentInOrder(p, answers, init);
      SentSplit(blocks);
      forall n, m | 0 <= n < m < Calls(blocks)
        ensures Sent(blocks)[n] <= Sent(blocks)[m]
        ensures answers(n).Reply() ==> Sent(blocks)[n] < Sent(blocks)[m]
      {
        assert b.first <= n ==> b.Has(n) && n < b.End() - 1;
        assert m < Calls(init) ==> Sent(init)[n] <= Sent(init)[m];
      }
    }
  }

  /** Result number k is sent by exactly the calls of its own block: none if and only if no attempt is allowed. */
  lemma {:induction false} AttemptsOf(p: Policy, answers: nat -> Answer, blocks: seq<Block>, k: nat)
    requires Consecutive(p, answers, blocks) && k < |blocks|
    ensures forall n :: 0 <= n < Calls(blocks) ==> (Sent(blocks)[n] == k <==> blocks[k].Has(n))
    ensures blocks[k].End() <= Calls(blocks)
    ensures blocks[k].attempts <= p.maxRetries
    ensures blocks[k].attempts == 0 <==> p.maxRetries == 0
  {
    hide Sent, Calls, Consecutive;
    var init := blocks[..|blocks| - 1];
    ConsecutivePrefix(p, answers, blocks);
    SentInOrder(p, answers, init);
    SentSplit(blocks);
    if k < |init| {
      AttemptsOf(p, answers, init, k);
    }
  }

  lemma {:induction false} AppendBlock(p: Policy, answers: nat -> Answer, blocks: seq<Block>, b: Block)
    requires Consecutive(p, answers, blocks)
    requires ProperBlock(p, answers, b) && b.first == Calls(blocks)
    ensures Consecutive(p, answers, blocks + [b])
    ensures Calls(blocks + [b]) == b.End()
  {
    assert forall k :: 0 <= k <= |blocks| ==> (blocks + [b])[..k] == blocks[..k];
    assert (blocks + [b])[..|blocks|] == blocks;
  }

  // ---------------------------------------------------------------------------
  // The code
  // ---------------------------------------------------------------------------

  /** Sends one result; `first` numbers the send calls made so far. */
  method Deliver(p: Policy, answers: nat -> Answer, first: nat) returns (attempts: nat, sleeps: seq<real>)
    ensures ProperBlock(p, answers, Block(first, attempts, sleeps))
  {
    var delay := p.initialDelay;
    attempts, sleeps := 0, [];
    for attempt := 0 to p.maxRetries
      invariant attempts == attempt == |sleeps|
      invariant delay == BaseDelay(p, attempt)
      invariant forall n :: first <= n < first + attempt ==> !answers(n).Reply()
      invariant forall k :: 0 <= k < attempt ==> sleeps[k] == PauseAfter(p, answers(first + k), k)
      invariant attempt == p.maxRetries > 0 ==> answers(first + attempt - 1).RateLimited?
    {
      var answer := answers(first + attempt);
      NextBaseDelay(p, attempt);
      attempts := attempt + 1;
      match answer {
        case Accepted => break;
        case Ignored => break;
        case RateLimited(retryAfter) =>
          sleeps := sleeps + [Max(retryAfter, delay)];
          delay := delay * 2.0;
        case Failed =>
          if attempt == p.maxRetries - 1 {
            break;
          }
          sleeps := sleeps + [delay];
          delay := delay * 2.0;
      }
    }
  }

  /** Each send call carried the result whose turn it was. */
  ghost predicate Carried<Item(!new)>(sent: seq<Item>, enqueued: seq<Item>, blocks: seq<Block>) {
    && |sent| == Calls(blocks) && |blocks| <= |enqueued|
    && (forall n :: 0 <= n < |sent| ==> Sent(blocks)[n] < |enqueued| && sent[n] == enqueued[Sent(blocks)[n]])
  }

  lemma CarriedKept<Item(!new)>(sent: seq<Item>, enqueued: seq<Item>, blocks: seq<Block>, more: seq<Item>)
    requires Carried(sent, enqueued, blocks)
    ensures Carried(sent, enqueued + more, blocks)
  {
    hide Sent, Calls;
  }

  lemma CarriedNext<Item(!new)>(sent: seq<Item>, enqueued: seq<Item>, blocks: seq<Block>, b: Block)
    requires Carried(sent, enqueued, blocks) && |blocks| < |enqueued|
    ensures Carried(sent + seq(b.attempts, _ => enqueued[|blocks|]), enqueued, blocks + [b])
  {
    assert (blocks + [b])[..|blocks|] == blocks;
    SentSplit(blocks + [b]);
    hide Sent, Calls;
  }

  class QueueWorker<Item(==, !new)> {
    const policy: Policy
    const answers: nat -> Answer
    var resultQueue: seq<Item>
    var calls: nat
    var sent: seq<Item>       // what each send call carried
    var tasksDone: nat
    ghost var enqueued: seq<Item>
    ghost var blocks: seq<Block>

    /** Everything ever enqueued has had its block, in order, or is still waiting. */
    ghost predicate Valid()
      reads this
    {
      && Consecutive(policy, answers, blocks)
      && calls == Calls(blocks)
      && tasksDone == |blocks| <= |enqueued|
      && resultQueue == enqueued[|blocks|..]
      && Carried(sent, enqueued, blocks)
    }

    constructor (policy: Policy, answers: nat -> Answer)
      ensures Valid() && this.policy == policy && this.answers == answers && enqueued == [] && blocks == []
    {
      this.policy, this.answers := policy, answers;
      resultQueue, calls, sent, tasksDone := [], 0, [], 0;
      enqueued, blocks := [], [];
    }

    method Put(item: Item)
      requires Valid()
      modifies this
      ensures Valid()
      ensures enqueued == old(enqueued) + [item] && blocks == old(blocks)
      ensures resultQueue == old(resultQueue) + [item] && sent == old(sent)
    {
      CarriedKept(sent, enqueued, blocks, [item]);
      resultQueue := resultQueue + [item];
      enqueued := enqueued + [item];
    }

    /**
     * One round of the worker: takes the oldest result, gives it its block of attempts and marks
     * it done. Results put meanwhile are the arrivals.
     */
    method ServeOne(arrivals: seq<Item>) returns (item: Item)
      requires Valid() && resultQueue != []
      modifies this
      ensures Valid()
      ensures item == old(enqueued[|blocks|])
      ensures enqueued == old(enqueued) + arrivals
      ensures |blocks| == |old(blocks)| + 1 && blocks[..|old(blocks)|] == old(blocks)
      ensures var b := blocks[|old(blocks)|];
              && b.first == old(calls) && calls == b.End() && ProperBlock(policy, answers, b)
              && sent == old(sent) + seq(b.attempts, _ => item)
      ensures old(resultQueue) == [item] + old(resultQueue[1..]) && resultQueue == old(resultQueue[1..]) + arrivals
      ensures tasksDone == old(tasksDone) + 1
    {
      hide Consecutive, Calls, ProperBlock, Carried;
      item := resultQueue[0];
      resultQueue := resultQueue[1..];
      var attempts, sleeps := Deliver(policy, answers, calls);
      ghost var b := Block(calls, attempts, sleeps);
      AppendBlock(policy, answers, blocks, b);
      CarriedNext(sent, enqueued, blocks, b);
      blocks := blocks + [b];
      calls := calls + attempts;
      sent := sent + seq(attempts, _ => item);
      CarriedKept(sent, enqueued, blocks, arrivals);
      resultQueue := resultQueue + arrivals;
      enqueued := enqueued + arrivals;
      tasksDone := tasksDone + 1;
    }
  }
}
