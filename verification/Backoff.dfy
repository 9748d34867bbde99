/**
 * Exponential backoff, the per-client polling gate built on it, and the registration retry loop.
 * Times and delays are reals; a Retry-After value (section 10.2.3 of RFC 9110) is given as parsed.
 */
module Backoff {
  import opened Prelude

  datatype Limits = Limits(initial: real, maxDelay: real, floor: real) {
    ghost predicate Sane() {
      initial >= 0.0 && maxDelay >= 0.0
    }
  }

  /** Status 429 (section 4 of RFC 6585) with the parsed Retry-After, 0 when absent; or a network failure. */
  datatype Failure = RateLimited(retryAfter: real) | NetworkError {
    /** No usable Retry-After: the worker computes the delay itself. */
    predicate Computed() {
      NetworkError? || retryAfter <= 0.0
    }
  }

  function CalculateBackoff(c: Limits, current: real, isRateLimit: bool): real {
    var newVal := Min(Max(current * 2.0, c.initial), c.maxDelay);
    if isRateLimit then Max(newVal, c.floor) else newVal
  }

  function NextDelay(c: Limits, current: real, f: Failure): real {
    if f.Computed() then CalculateBackoff(c, current, f.RateLimited?) else f.retryAfter
  }

  /** The delay in force after a run of failures that started with the given delay. */
  function DelayAfter(c: Limits, start: real, fs: seq<Failure>): real {
    if fs == [] then start else NextDelay(c, DelayAfter(c, start, fs[..|fs| - 1]), fs[|fs| - 1])
  }

  /** A Retry-After is obeyed to the letter after any history, below the floor or above the maximum as it may be. */
  lemma RetryAfterIsObeyed(c: Limits, start: real, fs: seq<Failure>, seconds: real)
    requires seconds > 0.0
    ensures DelayAfter(c, start, fs + [RateLimited(seconds)]) == seconds
  {
    assert (fs + [RateLimited(seconds)])[..|fs|] == fs;
  }

  /** A computed delay is twice the current, at least the initial one, capped, and after a 429 at least the floor. */
  lemma ComputedDelay(c: Limits, start: real, fs: seq<Failure>, f: Failure)
    requires f.NetworkError? || f.retryAfter <= 0.0
    ensures var current, next := DelayAfter(c, start, fs), DelayAfter(c, start, fs + [f]);
            var capped := if 2.0 * current <= c.initial && c.initial <= c.maxDelay then c.initial
                          else if c.initial <= 2.0 * current <= c.maxDelay then 2.0 * current
                          else c.maxDelay;
            next == if f.RateLimited? && capped < c.floor then c.floor else capped
  {
    assert (fs + [f])[..|fs|] == fs;
  }

  // ---------------------------------------------------------------------------
  // Closed forms over failure runs of any length
  // ---------------------------------------------------------------------------

  /** A delay that started at a, doubled k times and never exceeded the cap. */
  function Doubled(a: real, k: nat, cap: real): real {
    Min(a * Pow2(k), cap)
  }

  lemma DoubledAgain(a: real, k: nat, cap: real)
    requires a >= 0.0 && cap >= 0.0
    ensures Min(Max(Doubled(a, k, cap) * 2.0, a), cap) == Doubled(a, k + 1, cap)
    ensures Doubled(a, 0, cap) == Min(a, cap)
    ensures Doubled(a, k, cap) >= Min(a, cap)
  {
    var x := a * Pow2(k);
    assert a * Pow2(k + 1) == 2.0 * x;
    assert x >= a;
  }

  /** k+1 consecutive network failures from a clear state. */
  lemma {:induction false} NetworkRun(c: Limits, fs: seq<Failure>, k: nat)
    requires c.Sane() && |fs| == k + 1
    requires forall j :: 0 <= j < |fs| ==> fs[j].NetworkError?
    ensures DelayAfter(c, 0.0, fs) == Doubled(c.initial, k, c.maxDelay)
  {
    if k == 0 {
      assert fs[..0] == [];
      DoubledAgain(c.initial, 0, c.maxDelay);
    } else {
      NetworkRun(c, fs[..k], k - 1);
      DoubledAgain(c.initial, k - 1, c.maxDelay);
    }
  }

  /** k+1 consecutive 429 answers without Retry-After from a clear state, whatever the order of floor and maximum. */
  lemma {:induction false} RateLimitRun(c: Limits, fs: seq<Failure>, k: nat)
    requires c.Sane() && |fs| == k + 1
    requires forall j :: 0 <= j < |fs| ==> fs[j].RateLimited? && fs[j].Computed()
    ensures DelayAfter(c, 0.0, fs) ==
            if c.floor <= c.maxDelay then Doubled(Max(c.initial, c.floor), k, c.maxDelay) else c.floor
  {
    if k == 0 {
      assert fs[..0] == [];
      DoubledAgain(Max(c.initial, c.floor), 0, c.maxDelay);
    } else {
      RateLimitRun(c, fs[..k], k - 1);
      DoubledAgain(Max(c.initial, c.floor), k - 1, c.maxDelay);
    }
  }

  /** The k-th wait between registration attempts that fail for a reason other than rate limiting. */
  lemma {:induction false} RegistrationRun(c: Limits, fs: seq<Failure>, k: nat)
    requires c.Sane() && |fs| == k >= 1
    requires forall j :: 0 <= j < |fs| ==> fs[j].NetworkError?
    ensures DelayAfter(c, c.initial, fs) == Doubled(c.initial, k, c.maxDelay)
  {
    DoubledAgain(c.initial, k - 1, c.maxDelay);
    if k == 1 {
      assert fs[..0] == [];
    } else {
      RegistrationRun(c, fs[..k - 1], k - 1);
    }
  }

  /** Whatever happened before, huge Retry-After values included, one computed delay is back in range. */
  lemma BackInRange(c: Limits, start: real, fs: seq<Failure>, f: Failure)
    requires f.Computed()
    ensures Min(c.initial, c.maxDelay) <= DelayAfter(c, start, fs + [f]) <= Max(c.maxDelay, c.floor)
    ensures f.RateLimited? ==> DelayAfter(c, start, fs + [f]) >= c.floor
  {
    assert (fs + [f])[..|fs|] == fs;
  }

  // ---------------------------------------------------------------------------
  // The polling gate
  // ---------------------------------------------------------------------------

  /** What the worker remembers per client: its last backoff and the time before which it must not poll. */
  datatype Gate = Gate(backoffs: map<Transport, real>, nextPoll: map<Transport, real>) {
    predicate Open(client: Transport, now: real) {
      !(now < Get(nextPoll, client, 0.0))
    }
  }

  datatype Reply = Answered | Refused(failure: Failure) | OtherError

  /** One call of poll_task: issued at begin, settled at end. */
  datatype Call = Call(client: Transport, begin: real, end: real, reply: Reply)

  function Settle(c: Limits, g: Gate, call: Call): Gate {
    match call.reply
    case Answered => Gate(g.backoffs - {call.client}, g.nextPoll - {call.client})
    case OtherError => g
    case Refused(f) =>
      var delay := NextDelay(c, Get(g.backoffs, call.client, 0.0), f);
      Gate(g.backoffs[call.client := delay], g.nextPoll[call.client := call.end + delay])
  }

  function GateAfter(c: Limits, calls: seq<Call>): Gate {
    if calls == [] then Gate(map[], map[])
    else Settle(c, GateAfter(c, calls[..|calls| - 1]), calls[|calls| - 1])
  }

  /**
   * The calls that the single polling loop can make: one after the other, and each only through an
   * open gate. Nothing is said about the order of clients or about idle time.
   */
  ghost predicate Legal(c: Limits, calls: seq<Call>) {
    forall k :: 0 <= k < |calls| ==> LegalCall(c, calls, k)
  }

  ghost predicate LegalCall(c: Limits, calls: seq<Call>, k: nat)
    requires k < |calls|
  {
    && calls[k].begin <= calls[k].end
    && (k > 0 ==> calls[k - 1].end <= calls[k].begin)
    && GateAfter(c, calls[..k]).Open(calls[k].client, calls[k].begin)
  }

  function CallsTo(client: Transport, calls: seq<Call>): seq<Call> {
    if calls == [] then []
    else
      var rest := CallsTo(client, calls[..|calls| - 1]);
      if calls[|calls| - 1].client == client then rest + [calls[|calls| - 1]] else rest
  }

  /** 429 without a usable Retry-After. */
  ghost predicate Throttled(call: Call) {
    call.reply.Refused? && call.reply.failure.RateLimited? && call.reply.failure.Computed()
  }

  /** The time that n floors take. */
  function Floors(n: nat, floor: real): real {
    n as real * floor
  }

  lemma OneMore(n: nat, floor: real)
    ensures Floors(n + 1, floor) == Floors(n, floor) + floor
    ensures Floors(0, floor) == 0.0
  {
  }

  /** After the calls i..j, all to the client being throttled, its gate is closed for one floor per call. */
  lemma {:induction false} GateClosed(c: Limits, calls: seq<Call>, client: Transport, i: nat, j: nat)
    requires Legal(c, calls) && i <= j < |calls| && calls[i].client == client
    requires forall k :: i <= k <= j && calls[k].client == client ==> Throttled(calls[k])
    ensures client in GateAfter(c, calls[..j + 1]).nextPoll
    ensures GateAfter(c, calls[..j + 1]).nextPoll[client]
         >= calls[i].begin + Floors(|CallsTo(client, calls[i..j + 1])|, c.floor)
    decreases j
  {
    hide Floors;
    var n := |CallsTo(client, calls[i..j])|;
    assert GateAfter(c, calls[..j + 1]) == Settle(c, GateAfter(c, calls[..j]), calls[j]) by {
      assert calls[..j + 1][..j] == calls[..j];
    }
    assert |CallsTo(client, calls[i..j + 1])| == n + (if calls[j].client == client then 1 else 0) by {
      assert calls[i..j + 1][..j - i] == calls[i..j];
    }
    assert LegalCall(c, calls, j);
    OneMore(n, c.floor);
    if i < j {
      GateClosed(c, calls, client, i, j - 1);
    } else {
      assert calls[i..j] == [];
    }
  }

  /**
   * Retry-storm bound: while every answer of a client is a 429 without Retry-After, N calls to it
   * take a time of at least (N-1) floors, whatever the other clients and the polling loop do.
   */
  lemma RetryStormBound(c: Limits, calls: seq<Call>, client: Transport, i: nat, j: nat)
    requires Legal(c, calls) && i <= j < |calls|
    requires calls[i].client == calls[j].client == client
    requires forall k :: i <= k <= j && calls[k].client == client ==> Throttled(calls[k])
    ensures |CallsTo(client, calls[i..j + 1])| >= 1
    ensures calls[j].begin - calls[i].begin >= Floors(|CallsTo(client, calls[i..j + 1])| - 1, c.floor)
  {
    assert calls[i..j + 1][..j - i] == calls[i..j];
    if i < j {
      GateClosed(c, calls, client, i, j - 1);
      assert LegalCall(c, calls, j);
    } else {
      assert calls[i..j] == [];
    }
  }

  /** Isolation: a client's backoff and gate depend on the calls made to that client alone. */
  lemma {:induction false} Isolation(c: Limits, calls: seq<Call>, client: Transport)
    ensures var all, own := GateAfter(c, calls), GateAfter(c, CallsTo(client, calls));
            && (client in all.backoffs <==> client in own.backoffs)
            && (client in all.nextPoll <==> client in own.nextPoll)
            && (client in all.backoffs ==> all.backoffs[client] == own.backoffs[client])
            && (client in all.nextPoll ==> all.nextPoll[client] == own.nextPoll[client])
  {
    if calls != [] {
      var rest := calls[..|calls| - 1];
      Isolation(c, rest, client);
      if calls[|calls| - 1].client == client {
        assert CallsTo(client, calls)[..|CallsTo(client, rest)|] == CallsTo(client, rest);
      }
    }
  }

  /** The refusals of this client since its last answer; other errors are passed over. */
  function Refusals(client: Transport, calls: seq<Call>): seq<Failure> {
    if calls == [] then []
    else
      var before, last := Refusals(client, calls[..|calls| - 1]), calls[|calls| - 1];
      if last.client != client then before
      else match last.reply
        case Answered => []
        case OtherError => before
        case Refused(f) => before + [f]
  }

  /**
   * The gate and the closed forms fit together: a client's backoff is that of its run of refusals
   * since its last answer, its gate opens that long after the last refusal, and an answer clears
   * both.
   */
  lemma {:induction false} GateFollowsRefusals(c: Limits, calls: seq<Call>, client: Transport)
    ensures var g, fs := GateAfter(c, calls), Refusals(client, calls);
            && Get(g.backoffs, client, 0.0) == DelayAfter(c, 0.0, fs)
            && (client in g.backoffs <==> fs != []) && (client in g.nextPoll <==> fs != [])
            && (fs != [] ==> exists k :: 0 <= k < |calls| && calls[k].client == client
                                         && calls[k].reply == Refused(fs[|fs| - 1])
                                         && g.nextPoll[client] == calls[k].end + DelayAfter(c, 0.0, fs))
  {
    if calls != [] {
      var rest, last := calls[..|calls| - 1], calls[|calls| - 1];
      GateFollowsRefusals(c, rest, client);
      var fs := Refusals(client, calls);
      if last.client == client && last.reply.Refused? {
        assert fs[..|fs| - 1] == Refusals(client, rest);
      } else if fs != [] {
        var k :| 0 <= k < |rest| && rest[k].client == client && rest[k].reply == Refused(fs[|fs| - 1])
                 && GateAfter(c, rest).nextPoll[client] == rest[k].end + DelayAfter(c, 0.0, fs);
        assert calls[k] == rest[k];
      }
    }
  }

  /** The last refusal of this client, if it has had no answer since; other errors are passed over. */
  ghost predicate LastRefusal(client: Transport, calls: seq<Call>, k: nat) {
    && k < |calls| && calls[k].client == client && calls[k].reply.Refused?
    && forall j :: k < j < |calls| && calls[j].client == client ==> calls[j].reply.OtherError?
  }

  lemma LastRefusalNext(client: Transport, calls: seq<Call>, k: nat)
    requires calls != []
    ensures var rest, last := calls[..|calls| - 1], calls[|calls| - 1];
            LastRefusal(client, calls, k) <==>
            if last.client != client || last.reply.OtherError? then LastRefusal(client, rest, k)
            else last.reply.Refused? && k == |rest|
  {
    var rest, last := calls[..|calls| - 1], calls[|calls| - 1];
    if last.client == client && !last.reply.OtherError? && k < |rest| {
      assert calls[|rest|].client == client;
    }
    if LastRefusal(client, rest, k) && (last.client != client || last.reply.OtherError?) {
      forall j | k < j < |calls| && calls[j].client == client ensures calls[j].reply.OtherError? {
        assert j < |rest| ==> rest[j] == calls[j];
      }
    }
    if LastRefusal(client, calls, k) && k < |rest| {
      forall j | k < j < |rest| && rest[j].client == client ensures rest[j].reply.OtherError? {
        assert rest[j] == calls[j];
      }
    }
  }

  /** The gate is shut until its time exactly since the last refusal. */
  lemma {:induction false} GateSince(c: Limits, calls: seq<Call>, client: Transport, k: nat)
    ensures LastRefusal(client, calls, k) ==>
              var g := GateAfter(c, calls);
              client in g.nextPoll
              && g.nextPoll[client] == calls[k].end + DelayAfter(c, 0.0, Refusals(client, calls))
    ensures client in GateAfter(c, calls).nextPoll ==> exists j: nat :: LastRefusal(client, calls, j)
  {
    if calls != [] {
      var rest, last := calls[..|calls| - 1], calls[|calls| - 1];
      GateSince(c, rest, client, k);
      LastRefusalNext(client, calls, k);
      GateFollowsRefusals(c, rest, client);
      if last.client == client && last.reply.Refused? {
        LastRefusalNext(client, calls, |rest|);
        assert Refusals(client, calls)[..|Refusals(client, rest)|] == Refusals(client, rest);
      } else if client in GateAfter(c, calls).nextPoll {
        var j: nat :| LastRefusal(client, rest, j);
        LastRefusalNext(client, calls, j);
      }
    }
  }

  /**
   * When a client may be polled: at once if it was not refused since its last answer, and otherwise
   * from the end of the last refusal plus the backoff of the refusals since that answer.
   */
  lemma MayPollIff(c: Limits, calls: seq<Call>, client: Transport, now: real)
    requires now >= 0.0
    ensures GateAfter(c, calls).Open(client, now) <==>
            forall k: nat :: LastRefusal(client, calls, k) ==>
                               now >= calls[k].end + DelayAfter(c, 0.0, Refusals(client, calls))
  {
    hide GateAfter, DelayAfter, Refusals;
    forall k: nat {
      GateSince(c, calls, client, k);
    }
    if client in GateAfter(c, calls).nextPoll {
      var k: nat :| LastRefusal(client, calls, k);
    }
  }

  /** The refusals that count are those since the last answer, in order. */
  lemma {:induction false} RefusalsAre(client: Transport, calls: seq<Call>, call: Call)
    ensures Refusals(client, []) == []
    ensures Refusals(client, calls + [call]) ==
            if call.client != client || call.reply.OtherError? then Refusals(client, calls)
            else if call.reply.Answered? then []
            else Refusals(client, calls) + [call.reply.failure]
  {
    assert (calls + [call])[..|calls|] == calls;
  }

  /** The code: two dictionaries keyed by client, updated in place. */
  class PollGate {
    const limits: Limits
    var pollBackoffs: map<Transport, real>
    var nextPollTime: map<Transport, real>
    ghost var calls: seq<Call>

    ghost predicate Valid()
      reads this
    {
      Gate(pollBackoffs, nextPollTime) == GateAfter(limits, calls)
    }

    constructor (limits: Limits)
      ensures Valid() && this.limits == limits && calls == []
    {
      this.limits := limits;
      pollBackoffs, nextPollTime, calls := map[], map[], [];
    }

    /** The first test of a poll. */
    method MayPoll(client: Transport, now: real) returns (open: bool)
      requires Valid()
      ensures open == GateAfter(limits, calls).Open(client, now)
      ensures now >= 0.0 ==>
                (open <==> forall k: nat :: LastRefusal(client, calls, k) ==>
                                              now >= calls[k].end + DelayAfter(limits, 0.0, Refusals(client, calls)))
    {
      var next := if client in nextPollTime then nextPollTime[client] else 0.0;
      open := !(now < next);
      if now >= 0.0 {
        MayPollIff(limits, calls, client, now);
      }
    }

    /** What a settled call of poll_task leaves behind, on each of its three exits. */
    method Settled(call: Call)
      requires Valid()
      modifies this
      ensures Valid() && calls == old(calls) + [call]
      ensures call.reply == Answered ==>
                pollBackoffs == old(pollBackoffs) - {call.client} && nextPollTime == old(nextPollTime) - {call.client}
      ensures call.reply == OtherError ==> pollBackoffs == old(pollBackoffs) && nextPollTime == old(nextPollTime)
      ensures call.reply.Refused? ==>
                var f := call.reply.failure;
                var before := if call.client in old(pollBackoffs) then old(pollBackoffs)[call.client] else 0.0;
                var backoff := if f.RateLimited? && f.retryAfter > 0.0 then f.retryAfter
                               else CalculateBackoff(limits, before, f.RateLimited?);
                pollBackoffs == old(pollBackoffs)[call.client := backoff]
                && nextPollTime == old(nextPollTime)[call.client := call.end + backoff]
    {
      match call.reply {
        case Answered =>
          pollBackoffs := pollBackoffs - {call.client};
          nextPollTime := nextPollTime - {call.client};
        case OtherError =>
        case Refused(f) =>
          var currentBackoff := if call.client in pollBackoffs then pollBackoffs[call.client] else 0.0;
          var retryAfter := if f.RateLimited? then f.retryAfter else 0.0;
          var newBackoff;
          if retryAfter > 0.0 {
            newBackoff := retryAfter;
          } else {
            newBackoff := CalculateBackoff(limits, currentBackoff, f.RateLimited?);
          }
          pollBackoffs := pollBackoffs[call.client := newBackoff];
          nextPollTime := nextPollTime[call.client := call.end + newBackoff];
      }
      calls := calls + [call];
      assert calls[..|calls| - 1] == old(calls);
    }
  }

  // ---------------------------------------------------------------------------
  // Registration
  // ---------------------------------------------------------------------------

  /** The outcome of each attempt in turn; the worker shuts down after the last one. */
  function FailuresBefore(attempts: seq<Option<Failure>>, n: nat): (fs: seq<Failure>)
    requires n <= |attempts| && forall k :: 0 <= k < n ==> attempts[k].Some?
    ensures |fs| == n
  {
    seq(n, k requires 0 <= k < n => attempts[k].value)
  }

  /**
   * Registration stops at the first success and never because of failures; the wait after the
   * k-th failure is the backoff of the failures so far, starting from the initial delay.
   */
  method RegisterWithRetry(c: Limits, attempts: seq<Option<Failure>>) returns (registered: bool, waits: seq<real>)
    ensures |waits| <= |attempts|
    ensures forall k :: 0 <= k < |waits| ==> attempts[k].Some?
    ensures registered <==> |waits| < |attempts|
    ensures registered ==> attempts[|waits|].None?
    ensures forall k :: 0 <= k < |waits| ==>
                          waits[k] == DelayAfter(c, c.initial, FailuresBefore(attempts, k + 1))
    ensures forall k :: 0 <= k < |waits| && attempts[k].value.RateLimited? && attempts[k].value.retryAfter > 0.0 ==>
                          waits[k] == attempts[k].value.retryAfter
  {
    waits := [];
    registered := false;
    var delay := c.initial;
    var attempt := 0;
    while attempt < |attempts|
      invariant attempt == |waits| <= |attempts|
      invariant forall k :: 0 <= k < attempt ==> attempts[k].Some?
      invariant delay == DelayAfter(c, c.initial, FailuresBefore(attempts, attempt))
      invariant forall k :: 0 <= k < attempt ==>
                              waits[k] == DelayAfter(c, c.initial, FailuresBefore(attempts, k + 1))
    {
      if attempts[attempt].None? {
        return true, waits;
      }
      var f := attempts[attempt].value;
      var retryAfter := if f.RateLimited? then f.retryAfter else 0.0;
      if retryAfter > 0.0 {
        delay := retryAfter;
      } else {
        delay := CalculateBackoff(c, delay, f.RateLimited?);
      }
      assert FailuresBefore(attempts, attempt + 1)[..attempt] == FailuresBefore(attempts, attempt);
      waits := waits + [delay];
      attempt := attempt + 1;
    }
  }
}
