/**
 * Heartbeat throttling. A state change queues a send for every orchestrator; a send that comes too
 * soon after the last completed one arms at most one delayed heartbeat instead. The pure part
 * follows one client through every interleaving of its tasks; each step runs from one await to
 * the next.
 */
module HeartbeatDebounce {
  import opened Prelude

  /** A `_delayed_heartbeat` task: asleep until due, or awaiting its own send. */
  datatype Delayed = Sleeping(due: real) | Sending(version: nat)

  datatype Mark = Began(at: real) | Completed(at: real)

  datatype Loop = Loop(
    now: real,
    last: real,               // completion time of the last successful send, 0 at first
    flag: bool,               // the client is marked as debouncing
    queued: nat,              // sends created but not yet run
    delayed: seq<Delayed>,
    flights: seq<nat>,        // sends in progress, each with the number of changes it was built from
    changes: seq<real>,       // when each state change happened
    delivered: nat,           // changes covered by the sends that succeeded
    log: seq<Mark>)
  {
    predicate Cooling(cooldown: real) {
      now - last < cooldown
    }

    /** Nothing is on its way that could still carry a change. */
    predicate Idle() {
      queued == 0 && delayed == [] && flights == []
    }
  }

  datatype Event =
    | Tick(time: real)
    | Change
    | RunQueued
    | RunPeriodic
    | Land(i: nat)
    | Fail(i: nat)
    | Wake(j: nat)
    | LandDelayed(j: nat)
    | FailDelayed(j: nat)

  function Without<T>(s: seq<T>, i: nat): seq<T>
    requires i < |s|
  {
    s[..i] + s[i + 1..]
  }

  function Larger(a: nat, b: nat): nat {
    if a >= b then a else b
  }

  /** The code's reaction to a send that comes too soon: arm a delayed heartbeat unless one is armed. */
  function Debounce(cooldown: real, l: Loop): Loop {
    if l.flag then l
    else l.(flag := true, delayed := l.delayed + [Sleeping(l.now + (cooldown - (l.now - l.last)))])
  }

  function Attempt(cooldown: real, l: Loop): Loop {
    if l.Cooling(cooldown) then Debounce(cooldown, l)
    else l.(flights := l.flights + [|l.changes|], log := l.log + [Began(l.now)])
  }

  predicate Enabled(l: Loop, e: Event) {
    match e
    case Tick(t) => t >= l.now
    case Change => true
    case RunQueued => l.queued > 0
    case RunPeriodic => true
    case Land(i) => i < |l.flights|
    case Fail(i) => i < |l.flights|
    case Wake(j) => j < |l.delayed| && l.delayed[j].Sleeping? && l.delayed[j].due <= l.now
    case LandDelayed(j) => j < |l.delayed| && l.delayed[j].Sending?
    case FailDelayed(j) => j < |l.delayed| && l.delayed[j].Sending?
  }

  function Apply(cooldown: real, l: Loop, e: Event): Loop
    requires Enabled(l, e)
  {
    match e
    case Tick(t) => l.(now := t)
    case Change => l.(changes := l.changes + [l.now], queued := l.queued + 1)
    case RunQueued => Attempt(cooldown, l.(queued := l.queued - 1))
    case RunPeriodic => Attempt(cooldown, l)
    case Land(i) =>
      l.(last := l.now, flights := Without(l.flights, i), delivered := Larger(l.delivered, l.flights[i]),
         log := l.log + [Completed(l.now)])
    case Fail(i) => l.(flights := Without(l.flights, i))
    case Wake(j) =>
      if l.Cooling(cooldown) then
        var m := Debounce(cooldown, l);
        m.(flag := false, delayed := Without(m.delayed, j))
      else
        l.(delayed := l.delayed[j := Sending(|l.changes|)], log := l.log + [Began(l.now)])
    case LandDelayed(j) =>
      l.(last := l.now, flag := false, delayed := Without(l.delayed, j),
         delivered := Larger(l.delivered, l.delayed[j].version), log := l.log + [Completed(l.now)])
    case FailDelayed(j) => l.(flag := false, delayed := Without(l.delayed, j))
  }

  function Init(now: real): Loop {
    Loop(now, 0.0, false, 0, [], [], [], 0, [])
  }

  ghost predicate Legal(cooldown: real, l: Loop, es: seq<Event>)
    decreases |es|
  {
    es == [] || (Enabled(l, es[0]) && Legal(cooldown, Apply(cooldown, l, es[0]), es[1..]))
  }

  ghost function Run(cooldown: real, l: Loop, es: seq<Event>): Loop
    requires Legal(cooldown, l, es)
    decreases |es|
  {
    if es == [] then l else Run(cooldown, Apply(cooldown, l, es[0]), es[1..])
  }

  // ---------------------------------------------------------------------------
  // Every interleaving, overlapping and failing sends included
  // ---------------------------------------------------------------------------

  /** The flag is up exactly while one delayed heartbeat is alive, and there is never a second one. */
  ghost predicate OneDelayed(l: Loop) {
    |l.delayed| == if l.flag then 1 else 0
  }

  /** No send begins sooner than the cooldown after any send that completed before it. */
  ghost predicate Spaced(cooldown: real, log: seq<Mark>) {
    forall i, j :: 0 <= i < j < |log| && log[i].Completed? && log[j].Began? ==> log[j].at >= log[i].at + cooldown
  }

  ghost predicate Throttled(cooldown: real, l: Loop) {
    && OneDelayed(l)
    && l.last <= l.now
    && (forall i :: 0 <= i < |l.log| && l.log[i].Completed? ==> l.log[i].at <= l.last)
    && Spaced(cooldown, l.log)
  }

  lemma ThrottledStep(cooldown: real, l: Loop, e: Event)
    requires Throttled(cooldown, l) && Enabled(l, e)
    ensures Throttled(cooldown, Apply(cooldown, l, e))
  {
  }

  /** Holds in every reachable state, whatever the interleaving. */
  lemma {:induction false} AlwaysThrottled(cooldown: real, l: Loop, es: seq<Event>)
    requires Throttled(cooldown, l) && Legal(cooldown, l, es)
    ensures Throttled(cooldown, Run(cooldown, l, es))
    decreases |es|
  {
    if es != [] {
      ThrottledStep(cooldown, l, es[0]);
      AlwaysThrottled(cooldown, Apply(cooldown, l, es[0]), es[1..]);
    }
  }

  lemma ThrottleFromTheStart(cooldown: real, now: real, es: seq<Event>)
    requires now >= 0.0 && Legal(cooldown, Init(now), es)
    ensures var l := Run(cooldown, Init(now), es);
            (l.flag <==> |l.delayed| == 1) && (!l.flag <==> l.delayed == []) && Spaced(cooldown, l.log)
  {
    AlwaysThrottled(cooldown, Init(now), es);
  }

  /** The time kept is that of the latest completion, 0 if there was none; failures leave no trace in it. */
  ghost predicate LastIsLatest(l: Loop) {
    || (l.last == 0.0 && forall k :: 0 <= k < |l.log| ==> l.log[k].Began?)
    || exists k :: 0 <= k < |l.log| && l.log[k] == Completed(l.last)
                   && forall j :: k < j < |l.log| ==> l.log[j].Began?
  }

  lemma LastIsLatestStep(cooldown: real, l: Loop, e: Event)
    requires LastIsLatest(l) && Enabled(l, e)
    ensures LastIsLatest(Apply(cooldown, l, e))
  {
    var m := Apply(cooldown, l, e);
    if e.Land? || e.LandDelayed? {
      assert m.log[|l.log|] == Completed(m.last);
    } else if k :| 0 <= k < |l.log| && l.log[k] == Completed(l.last)
                   && forall j :: k < j < |l.log| ==> l.log[j].Began? {
      assert m.log[k] == Completed(m.last);
    }
  }

  lemma {:induction false} LastIsLatestRun(cooldown: real, l: Loop, es: seq<Event>)
    requires LastIsLatest(l) && Legal(cooldown, l, es)
    ensures LastIsLatest(Run(cooldown, l, es))
    decreases |es|
  {
    if es != [] {
      LastIsLatestStep(cooldown, l, es[0]);
      LastIsLatestRun(cooldown, Apply(cooldown, l, es[0]), es[1..]);
    }
  }

  /**
   * On every run a send that comes up goes ahead exactly if no completed send lies within the
   * cooldown before it; sends that failed or are still in progress do not count.
   */
  lemma GoesAheadIff(cooldown: real, now: real, es: seq<Event>, e: Event)
    requires now >= 0.0 && Legal(cooldown, Init(now), es) && Enabled(Run(cooldown, Init(now), es), e)
    requires e.RunQueued? || e.RunPeriodic? || e.Wake?
    ensures var l := Run(cooldown, Init(now), es);
            var m := Apply(cooldown, l, e);
            && (m.log == l.log + [Began(l.now)] || m.log == l.log)
            && (l.now >= cooldown ==>
                  (m.log == l.log + [Began(l.now)] <==>
                   forall k :: 0 <= k < |l.log| && l.log[k].Completed? ==> l.log[k].at + cooldown <= l.now))
  {
    var l := Run(cooldown, Init(now), es);
    AlwaysThrottled(cooldown, Init(now), es);
    LastIsLatestRun(cooldown, Init(now), es);
    hide Run, Legal;
    assert |l.log + [Began(l.now)]| != |l.log|;
  }

  /** What the log and the clock record of a step: beginnings and completions at the current time, and nothing else. */
  lemma LogIs(cooldown: real, l: Loop, e: Event)
    requires Enabled(l, e)
    ensures var m := Apply(cooldown, l, e);
            && (e.Land? || e.LandDelayed? ==> m.log == l.log + [Completed(l.now)] && m.last == l.now)
            && (!e.Land? && !e.LandDelayed? ==> m.last == l.last && (m.log == l.log || m.log == l.log + [Began(l.now)]))
            && (e.Fail? || e.FailDelayed? || e.Tick? || e.Change? ==> m.log == l.log)
            && m.now == (if e.Tick? then e.time else l.now)
            && m.changes == (if e.Change? then l.changes + [l.now] else l.changes)
  {
  }

  // ---------------------------------------------------------------------------
  // No change is lost: exactly which steps lose one, under every interleaving
  // ---------------------------------------------------------------------------

  /** A delayed heartbeat is asleep. */
  predicate Armed(l: Loop) {
    l.delayed != [] && l.delayed[0].Sleeping?
  }

  /** The flag is held by a delayed heartbeat that is sending something older than the last change. */
  predicate HeldByOlder(l: Loop) {
    l.delayed != [] && l.delayed[0].Sending? && l.delayed[0].version < |l.changes|
  }

  /** A send of everything so far is in progress, not counting the delayed heartbeat. */
  predicate Aboard(l: Loop) {
    |l.changes| in l.flights
  }

  /** If a change is undelivered, something on its way can still cover every change. */
  predicate Carried(l: Loop) {
    l.delivered < |l.changes| ==>
      l.queued > 0 || Armed(l) || Aboard(l) || (l.delayed != [] && !HeldByOlder(l))
  }

  /**
   * The steps that lose a change: a send fails, a delayed heartbeat wakes up within a new cooldown,
   * or the last queued send comes within the cooldown while the flag is held by an older send; each
   * only with nothing else on its way that covers the change.
   */
  predicate Loses(cooldown: real, l: Loop, e: Event)
    requires Enabled(l, e)
  {
    && l.delivered < |l.changes|
    && match e
       case Fail(i) => l.queued == 0 && (l.delayed == [] || HeldByOlder(l)) && |l.changes| !in Without(l.flights, i)
       case FailDelayed(_) => l.queued == 0 && !Aboard(l)
       case Wake(_) => l.Cooling(cooldown) && l.queued == 0 && !Aboard(l)
       case RunQueued => l.Cooling(cooldown) && l.queued == 1 && HeldByOlder(l) && !Aboard(l)
       case _ => false
  }

  /** The steps that put a lost change back on its way. */
  predicate Restores(cooldown: real, l: Loop, e: Event) {
    e.Change? || (e.RunPeriodic? && (!l.Cooling(cooldown) || !l.flag))
  }

  /** No heartbeat was built from, and none delivered, more changes than there were. */
  ghost predicate Sane(l: Loop) {
    && OneDelayed(l) && l.delivered <= |l.changes|
    && (forall v :: v in l.flights ==> v <= |l.changes|)
    && (l.delayed != [] && l.delayed[0].Sending? ==> l.delayed[0].version <= |l.changes|)
  }

  lemma Others(s: seq<nat>, i: nat)
    requires i < |s|
    ensures s[i] in s && forall v :: v in s <==> v == s[i] || v in Without(s, i)
  {
    assert s == s[..i] + [s[i]] + s[i + 1..];
  }

  lemma SaneStep(cooldown: real, l: Loop, e: Event)
    requires Sane(l) && Enabled(l, e)
    ensures Sane(Apply(cooldown, l, e))
  {
    if e.Land? || e.Fail? {
      Others(l.flights, e.i);
    }
    assert forall v :: v in l.flights + [|l.changes|] <==> v in l.flights || v == |l.changes|;
  }

  /** A step loses what was on its way exactly if it is a losing one, and exactly a restoring one regains it. */
  lemma CarriedIff(cooldown: real, l: Loop, e: Event)
    requires Sane(l) && Enabled(l, e)
    ensures Carried(Apply(cooldown, l, e)) <==> if Carried(l) then !Loses(cooldown, l, e) else Restores(cooldown, l, e)
  {
    var m := Apply(cooldown, l, e);
    if e.Land? || e.Fail? {
      Others(l.flights, e.i);
    } else if (e.RunQueued? || e.RunPeriodic?) && !l.Cooling(cooldown) {
      assert m.flights[|l.flights|] == |l.changes|;
    } else if e.Wake? || e.LandDelayed? || e.FailDelayed? {
      assert e.j == 0;
    }
  }

  /** Every state along the run has its undelivered changes on their way. */
  ghost predicate AlwaysCarried(cooldown: real, l: Loop, es: seq<Event>)
    requires Legal(cooldown, l, es)
    decreases |es|
  {
    Carried(l) && (es != [] ==> AlwaysCarried(cooldown, Apply(cooldown, l, es[0]), es[1..]))
  }

  ghost predicate LosesSomewhere(cooldown: real, l: Loop, es: seq<Event>)
    requires Legal(cooldown, l, es)
    decreases |es|
  {
    es != [] && (Loses(cooldown, l, es[0]) || LosesSomewhere(cooldown, Apply(cooldown, l, es[0]), es[1..]))
  }

  lemma {:induction false} NothingLostRun(cooldown: real, l: Loop, es: seq<Event>)
    requires Sane(l) && Carried(l) && Legal(cooldown, l, es)
    ensures AlwaysCarried(cooldown, l, es) <==> !LosesSomewhere(cooldown, l, es)
    ensures !LosesSomewhere(cooldown, l, es) ==> Carried(Run(cooldown, l, es))
    decreases |es|
  {
    if es != [] {
      hide Sane, Carried, Loses, Apply;
      SaneStep(cooldown, l, es[0]);
      CarriedIff(cooldown, l, es[0]);
      if Carried(Apply(cooldown, l, es[0])) {
        NothingLostRun(cooldown, Apply(cooldown, l, es[0]), es[1..]);
      } else {
        UncarriedNow(cooldown, Apply(cooldown, l, es[0]), es[1..]);
      }
    }
  }

  lemma UncarriedNow(cooldown: real, l: Loop, es: seq<Event>)
    requires Legal(cooldown, l, es) && !Carried(l)
    ensures !AlwaysCarried(cooldown, l, es)
  {
  }

  /**
   * Consolidated but not lost, under every interleaving, failing and overlapping sends included:
   * each change is at every moment delivered or on its way exactly if the run contains no losing
   * step; then, whenever nothing is on its way, everything is delivered.
   */
  lemma EveryChangeIsCovered(cooldown: real, now: real, es: seq<Event>)
    requires Legal(cooldown, Init(now), es)
    ensures AlwaysCarried(cooldown, Init(now), es) <==> !LosesSomewhere(cooldown, Init(now), es)
    ensures var l := Run(cooldown, Init(now), es);
            !LosesSomewhere(cooldown, Init(now), es) && l.Idle() ==> l.delivered == |l.changes|
  {
    NothingLostRun(cooldown, Init(now), es);
    SaneRun(cooldown, Init(now), es);
    hide LosesSomewhere, AlwaysCarried, Run, Legal;
  }

  lemma {:induction false} SaneRun(cooldown: real, l: Loop, es: seq<Event>)
    requires Sane(l) && Legal(cooldown, l, es)
    ensures Sane(Run(cooldown, l, es))
    decreases |es|
  {
    if es != [] {
      hide Sane, Apply;
      SaneStep(cooldown, l, es[0]);
      SaneRun(cooldown, Apply(cooldown, l, es[0]), es[1..]);
    }
  }

  // ---------------------------------------------------------------------------
  // Orderly runs contain no losing step
  // ---------------------------------------------------------------------------

  predicate InProgress(l: Loop) {
    l.flights != [] || (l.delayed != [] && l.delayed[0].Sending?)
  }

  /**
   * Sends succeed, none begins during another, and a due delayed heartbeat runs before other sends.
   * In prompt runs, besides, time stands still while a send is queued, due or in progress.
   */
  predicate Orderly(cooldown: real, prompt: bool, l: Loop, e: Event) {
    match e
    case Tick(t) => prompt ==> l.queued == 0 && !InProgress(l) && (Armed(l) ==> t <= l.delayed[0].due)
    case RunQueued => Free(cooldown, l)
    case RunPeriodic => Free(cooldown, l)
    case Fail(_) => false
    case FailDelayed(_) => false
    case _ => true
  }

  predicate Free(cooldown: real, l: Loop) {
    && (InProgress(l) ==> l.Cooling(cooldown))
    && (Armed(l) ==> l.now < l.delayed[0].due)
  }

  /** One send at a time, only after the cooldown; a pending delay is due at exactly its end. */
  ghost predicate InOrder(cooldown: real, l: Loop) {
    && Sane(l) && Carried(l) && l.last <= l.now
    && |l.flights| <= 1 && (l.flights != [] ==> l.delayed == [])
    && (InProgress(l) ==> !l.Cooling(cooldown))
    && (Armed(l) ==> l.delayed[0].due == l.last + cooldown)
  }

  /** An undelivered change is no older than the cooldown. */
  ghost predicate Recent(cooldown: real, l: Loop) {
    && (forall v :: l.delivered <= v < |l.changes| ==>
                      && l.last <= l.changes[v] <= l.now <= l.changes[v] + cooldown
                      && (l.delayed == [] ==> l.changes[v] == l.now)
                      && (l.delayed != [] && l.delayed[0].Sending? && l.delayed[0].version <= v ==>
                            l.changes[v] == l.now))
    && (Armed(l) ==> l.now <= l.last + cooldown)
  }

  lemma OrderlyStep(cooldown: real, prompt: bool, l: Loop, e: Event)
    requires InOrder(cooldown, l) && Enabled(l, e) && Orderly(cooldown, prompt, l, e)
    ensures InOrder(cooldown, Apply(cooldown, l, e)) && !Loses(cooldown, l, e)
  {
    SaneStep(cooldown, l, e);
    CarriedIff(cooldown, l, e);
  }

  lemma RecentStep(cooldown: real, l: Loop, e: Event)
    requires cooldown >= 0.0 && InOrder(cooldown, l) && Recent(cooldown, l)
    requires Enabled(l, e) && Orderly(cooldown, true, l, e)
    ensures Recent(cooldown, Apply(cooldown, l, e))
  {
  }

  ghost predicate OrderlyRun(cooldown: real, prompt: bool, l: Loop, es: seq<Event>)
    requires Legal(cooldown, l, es)
    decreases |es|
  {
    es != [] ==> Orderly(cooldown, prompt, l, es[0]) && OrderlyRun(cooldown, prompt, Apply(cooldown, l, es[0]), es[1..])
  }

  lemma {:induction false} OrderIsKept(cooldown: real, prompt: bool, l: Loop, es: seq<Event>)
    requires InOrder(cooldown, l) && Legal(cooldown, l, es) && OrderlyRun(cooldown, prompt, l, es)
    requires prompt ==> cooldown >= 0.0 && Recent(cooldown, l)
    ensures InOrder(cooldown, Run(cooldown, l, es)) && !LosesSomewhere(cooldown, l, es)
    ensures prompt ==> Recent(cooldown, Run(cooldown, l, es))
    decreases |es|
  {
    if es != [] {
      hide InOrder, Recent, Apply, Orderly, Loses;
      OrderlyStep(cooldown, prompt, l, es[0]);
      if prompt {
        RecentStep(cooldown, l, es[0]);
      }
      OrderIsKept(cooldown, prompt, Apply(cooldown, l, es[0]), es[1..]);
    }
  }

  /**
   * When sends succeed without overlapping and a due delayed heartbeat goes first, however long
   * sends take, no step loses a change and a pending delay is due at exactly the end of the
   * cooldown; if sends are prompt as well, no change waits longer than that.
   */
  lemma OrderlyRunsLoseNothing(cooldown: real, prompt: bool, now: real, es: seq<Event>)
    requires now >= 0.0 && cooldown >= 0.0
    requires Legal(cooldown, Init(now), es) && OrderlyRun(cooldown, prompt, Init(now), es)
    ensures !LosesSomewhere(cooldown, Init(now), es)
    ensures var l := Run(cooldown, Init(now), es);
            && Carried(l)
            && (l.Idle() ==> l.delivered == |l.changes|)
            && (forall j :: 0 <= j < |l.delayed| && l.delayed[j].Sleeping? ==> l.delayed[j].due == l.last + cooldown)
            && (prompt ==> forall v :: l.delivered <= v < |l.changes| ==> l.now - l.changes[v] <= cooldown)
  {
    OrderIsKept(cooldown, prompt, Init(now), es);
    hide LosesSomewhere, OrderlyRun, Run, Legal;
  }

  /**
   * What is on its way does arrive: a send either goes ahead and covers every change so far once it
   * lands, or it comes within the cooldown and leaves a delayed heartbeat pending; the delayed
   * heartbeat always goes ahead.
   */
  lemma PendingSendCovers(cooldown: real, prompt: bool, l: Loop, e: Event)
    requires InOrder(cooldown, l) && Enabled(l, e) && Orderly(cooldown, prompt, l, e)
    requires e.RunQueued? || e.RunPeriodic? || e.Wake?
    ensures var m := Apply(cooldown, l, e);
            if e.Wake? then
              m.delayed == [Sending(|l.changes|)] && Apply(cooldown, m, LandDelayed(0)).delivered == |l.changes|
            else if l.Cooling(cooldown) then
              m.delayed == [Sleeping(l.last + cooldown)] && m.now < l.last + cooldown
            else
              m.flights == [|l.changes|] && Apply(cooldown, m, Land(0)).delivered == |l.changes|
  {
  }

  // ---------------------------------------------------------------------------
  // Every kind of losing step does occur
  // ---------------------------------------------------------------------------

  /** After es the step e loses a change, and after the rest nothing is on its way that could make up for it. */
  ghost predicate CanLose(cooldown: real, l: Loop, es: seq<Event>, e: Event, rest: seq<Event>) {
    && Legal(cooldown, l, es)
    && var before := Run(cooldown, l, es);
    && Enabled(before, e) && Loses(cooldown, before, e)
    && Legal(cooldown, Apply(cooldown, before, e), rest)
    && var after := Run(cooldown, Apply(cooldown, before, e), rest);
    after.Idle() && after.delivered < |after.changes|
  }

  lemma First(cooldown: real, l: Loop, a: Event, es: seq<Event>, e: Event, rest: seq<Event>) returns (m: Loop)
    requires Enabled(l, a)
    ensures m == Apply(cooldown, l, a)
    ensures CanLose(cooldown, l, [a] + es, e, rest) <==> CanLose(cooldown, m, es, e, rest)
  {
    m := Apply(cooldown, l, a);
    assert ([a] + es)[1..] == es;
  }

  /** A losing step that leaves nothing on its way ends such a run. */
  lemma LosingStep(cooldown: real, l: Loop, e: Event)
    requires Sane(l) && Carried(l) && Enabled(l, e) && Loses(cooldown, l, e) && Apply(cooldown, l, e).Idle()
    ensures CanLose(cooldown, l, [], e, [])
  {
    CarriedIff(cooldown, l, e);
  }

  /** A failed send drops the change it carried: nothing is armed after it. */
  lemma FailedSendLosesAChange()
    ensures CanLose(2.0, Init(10.0), [Change] + ([RunQueued] + []), Fail(0), [])
  {
    var l := First(2.0, Init(10.0), Change, [RunQueued] + [], Fail(0), []);
    l := First(2.0, l, RunQueued, [], Fail(0), []);
    LosingStep(2.0, l, Fail(0));
  }

  /** Three steps at once. */
  lemma Three(cooldown: real, l: Loop, a: Event, b: Event, c: Event, es: seq<Event>, e: Event, rest: seq<Event>)
    returns (m: Loop)
    requires Enabled(l, a) && Enabled(Apply(cooldown, l, a), b)
    requires Enabled(Apply(cooldown, Apply(cooldown, l, a), b), c)
    ensures m == Apply(cooldown, Apply(cooldown, Apply(cooldown, l, a), b), c)
    ensures CanLose(cooldown, m, es, e, rest) ==> CanLose(cooldown, l, [a, b, c] + es, e, rest)
  {
    hide CanLose, Apply;
    m := First(cooldown, l, a, [b, c] + es, e, rest);
    m := First(cooldown, m, b, [c] + es, e, rest);
    m := First(cooldown, m, c, es, e, rest);
    assert [a] + ([b, c] + es) == [a, b, c] + es;
    assert [b] + ([c] + es) == [b, c] + es;
  }

  /** With two sends overlapping, the later completion makes the delayed heartbeat give up. */
  lemma OverlapLosesAChange()
    ensures CanLose(2.0, Init(10.0),
                    [Change, RunQueued, Change] + ([RunQueued, Land(0), Change]
                    + ([RunQueued, Tick(11.0), Land(0)] + ([Tick(12.0)] + []))), Wake(0), [])
  {
    var ends := [RunQueued, Tick(11.0), Land(0)] + ([Tick(12.0)] + []);
    var l1 := Three(2.0, Init(10.0), Change, RunQueued, Change, [RunQueued, Land(0), Change] + ends, Wake(0), []);
    assert l1.flights == [1] && l1.changes == [10.0, 10.0] && l1.last == 0.0;
    var l2 := Three(2.0, l1, RunQueued, Land(0), Change, ends, Wake(0), []);
    assert l2.flights == [2] && |l2.changes| == 3;
    OverlapEnds(l2);
  }

  lemma OverlapEnds(l: Loop)
    requires l.flights == [2] && |l.changes| == 3 && l.delivered == 1 && l.queued == 1
    requires l.now == l.last == 10.0 && !l.flag && l.delayed == []
    ensures CanLose(2.0, l, [RunQueued, Tick(11.0), Land(0)] + ([Tick(12.0)] + []), Wake(0), [])
  {
    hide CanLose;
    var l3 := Three(2.0, l, RunQueued, Tick(11.0), Land(0), [Tick(12.0)] + [], Wake(0), []);
    assert l3.flights == [] && l3.delayed == [Sleeping(12.0)] && l3.last == 11.0;
    var l4 := First(2.0, l3, Tick(12.0), [], Wake(0), []);
    LosingStep(2.0, l4, Wake(0));
  }

  /** A delayed heartbeat that runs after another send gives up although a change relied on it. */
  lemma LateWakeLosesAChange()
    ensures CanLose(2.0, Init(10.0),
                    [Change, RunQueued, Land(0)] + ([Change, RunQueued, Tick(13.0)]
                    + ([RunPeriodic, Land(0), Change] + ([RunQueued] + []))), Wake(0), [])
  {
    var ends := [RunPeriodic, Land(0), Change] + ([RunQueued] + []);
    var l1 := Three(2.0, Init(10.0), Change, RunQueued, Land(0), [Change, RunQueued, Tick(13.0)] + ends, Wake(0), []);
    assert l1.flights == [] && |l1.changes| == 1 && l1.last == 10.0;
    var l2 := Three(2.0, l1, Change, RunQueued, Tick(13.0), ends, Wake(0), []);
    assert l2.delayed == [Sleeping(12.0)] && l2.flights == [] && |l2.changes| == 2;
    LateWakeEnds(l2);
  }

  lemma LateWakeEnds(l: Loop)
    requires l.flights == [] && |l.changes| == 2 && l.delivered == 1 && l.queued == 0
    requires l.now == 13.0 && l.last == 10.0 && l.flag && l.delayed == [Sleeping(12.0)]
    ensures CanLose(2.0, l, [RunPeriodic, Land(0), Change] + ([RunQueued] + []), Wake(0), [])
  {
    hide CanLose;
    var l3 := Three(2.0, l, RunPeriodic, Land(0), Change, [RunQueued] + [], Wake(0), []);
    assert l3.flights == [] && l3.delivered == 2 && |l3.changes| == 3 && l3.last == 13.0;
    var l4 := First(2.0, l3, RunQueued, [], Wake(0), []);
    LosingStep(2.0, l4, Wake(0));
  }

  /** While a delayed heartbeat is being sent, a change that comes within a new cooldown arms nothing. */
  lemma HeldFlagLosesAChange()
    ensures CanLose(2.0, Init(10.0),
                    [Change, RunQueued, Land(0)] + ([Change, RunQueued, Tick(12.0)]
                    + ([Wake(0), RunPeriodic, Land(0)] + ([Change] + []))), RunQueued, [LandDelayed(0)])
  {
    var ends := [Wake(0), RunPeriodic, Land(0)] + ([Change] + []);
    var l1 := Three(2.0, Init(10.0), Change, RunQueued, Land(0),
                    [Change, RunQueued, Tick(12.0)] + ends, RunQueued, [LandDelayed(0)]);
    assert l1.flights == [] && |l1.changes| == 1 && l1.last == 10.0;
    var l2 := Three(2.0, l1, Change, RunQueued, Tick(12.0), ends, RunQueued, [LandDelayed(0)]);
    assert l2.delayed == [Sleeping(12.0)] && l2.flights == [] && |l2.changes| == 2;
    HeldFlagEnds(l2);
  }

  lemma HeldFlagEnds(l: Loop)
    requires l.flights == [] && |l.changes| == 2 && l.delivered == 1 && l.queued == 0
    requires l.now == 12.0 && l.last == 10.0 && l.flag && l.delayed == [Sleeping(12.0)]
    ensures CanLose(2.0, l, [Wake(0), RunPeriodic, Land(0)] + ([Change] + []), RunQueued, [LandDelayed(0)])
  {
    var l3 := Three(2.0, l, Wake(0), RunPeriodic, Land(0), [Change] + [], RunQueued, [LandDelayed(0)]);
    assert l3.flights == [] && l3.delayed == [Sending(2)] && |l3.changes| == 2 && l3.last == 12.0;
    var l4 := First(2.0, l3, Change, [], RunQueued, [LandDelayed(0)]);
    var l5 := Apply(2.0, l4, RunQueued);
    assert Loses(2.0, l4, RunQueued) && l5 == l4.(queued := 0);
    var l6 := Apply(2.0, l5, LandDelayed(0));
    assert Run(2.0, l5, [LandDelayed(0)]) == l6;
  }

  // ---------------------------------------------------------------------------
  // The code: two dictionaries keyed by client, and the tasks of the event loop
  // ---------------------------------------------------------------------------

  predicate Distinct(clients: seq<Transport>) {
    forall i, j :: 0 <= i < j < |clients| ==> clients[i] != clients[j]
  }

  function Members(clients: seq<Transport>): set<Transport> {
    set i | 0 <= i < |clients| :: clients[i]
  }

  /** Dictionaries and queued sends say what the machines of the clients say. */
  ghost predicate Agree(loops: map<Transport, Loop>, times: map<Transport, real>, flags: map<Transport, bool>,
                        sends: multiset<Transport>) {
    forall c :: c in loops ==>
                  && loops[c].last == Get(times, c, 0.0)
                  && loops[c].flag == Get(flags, c, false)
                  && loops[c].queued == sends[c]
  }

  lemma OthersDiffer(clients: seq<Transport>, k: nat)
    requires Distinct(clients) && k < |clients|
    ensures forall i :: 0 <= i < |clients| ==> clients[i] in Members(clients) && (i != k ==> clients[i] != clients[k])
  {
  }

  lemma IndexOf(clients: seq<Transport>)
    ensures forall c :: c in Members(clients) <==> exists i :: 0 <= i < |clients| && clients[i] == c
  {
  }

  lemma OneMoreClient(clients: seq<Transport>, k: nat)
    requires k < |clients|
    ensures multiset(clients[..k + 1]) == multiset(clients[..k]) + multiset{clients[k]}
  {
    assert clients[..k + 1] == clients[..k] + [clients[k]];
  }

  lemma ChangeAgrees(cooldown: real, loops: map<Transport, Loop>, times: map<Transport, real>,
                     flags: map<Transport, bool>, sends: multiset<Transport>, client: Transport)
    requires Agree(loops, times, flags, sends) && client in loops
    ensures Agree(loops[client := Apply(cooldown, loops[client], Change)], times, flags, sends + multiset{client})
  {
  }

  lemma AgreeAt(loops: map<Transport, Loop>, times: map<Transport, real>, flags: map<Transport, bool>,
                sends: multiset<Transport>, client: Transport)
    requires Agree(loops, times, flags, sends) && client in loops
    ensures loops[client].last == Get(times, client, 0.0) && loops[client].flag == Get(flags, client, false)
    ensures loops[client].queued == sends[client]
  {
  }

  /** What is true of this client, and unchanged for the others. */
  lemma AgreeAfter(loops: map<Transport, Loop>, times: map<Transport, real>, flags: map<Transport, bool>,
                   sends: multiset<Transport>, client: Transport, m: Loop,
                   newTimes: map<Transport, real>, newFlags: map<Transport, bool>, newSends: multiset<Transport>)
    requires Agree(loops, times, flags, sends) && client in loops
    requires m.last == Get(newTimes, client, 0.0) && m.flag == Get(newFlags, client, false)
    requires m.queued == newSends[client]
    requires forall c :: c != client ==> Get(newTimes, c, 0.0) == Get(times, c, 0.0)
    requires forall c :: c != client ==> Get(newFlags, c, false) == Get(flags, c, false)
    requires forall c :: c != client ==> newSends[c] == sends[c]
    ensures Agree(loops[client := m], newTimes, newFlags, newSends)
  {
  }

  /**
   * What a send that comes up may do: go ahead outside the cooldown, or inside it arm a heartbeat
   * for the rest of the cooldown, unless one is armed already.
   */
  ghost predicate Attempted(
    cooldown: real, times: map<Transport, real>, flags: map<Transport, bool>, client: Transport, now: real,
    proceed: bool, arm: Option<real>)
  {
    var last := if client in times then times[client] else 0.0;
    var armed := client in flags && flags[client];
    && (proceed <==> !(now - last < cooldown))
    && (arm.Some? <==> !proceed && !armed)
    && (arm.Some? ==> arm.value == cooldown - (now - last))
  }

  class HeartbeatSender {
    const clients: seq<Transport>
    const heartbeatCooldown: real
    var lastHeartbeatTimes: map<Transport, real>
    var debouncingFlags: map<Transport, bool>
    var queuedSends: multiset<Transport>      // send tasks created but not yet run
    ghost var loops: map<Transport, Loop>

    ghost predicate Valid()
      reads this
    {
      && Distinct(clients)
      && loops.Keys == Members(clients)
      && Agree(loops, lastHeartbeatTimes, debouncingFlags, queuedSends)
    }

    /** This client takes the step; no other client is touched. */
    twostate predicate Stepped(client: Transport, e: Event)
      reads this
    {
      && client in old(loops) && Enabled(old(loops[client]), e)
      && loops == old(loops)[client := Apply(heartbeatCooldown, old(loops[client]), e)]
    }

    constructor (clients: seq<Transport>, cooldown: real, ghost now: real)
      requires Distinct(clients)
      ensures Valid() && this.clients == clients && heartbeatCooldown == cooldown
      ensures forall c :: c in loops ==> loops[c] == Init(now)
    {
      this.clients, heartbeatCooldown := clients, cooldown;
      lastHeartbeatTimes, debouncingFlags, queuedSends := map[], map[], multiset{};
      loops := map i | 0 <= i < |clients| :: clients[i] := Init(now);
    }

    /** After a state change: one queued send for every client. */
    method ScheduleHeartbeatDebounce()
      requires Valid()
      modifies this`queuedSends, this`loops
      ensures Valid()
      ensures queuedSends == old(queuedSends) + multiset(clients)
      ensures forall c :: c in loops ==> loops[c] == Apply(heartbeatCooldown, old(loops[c]), Change)
    {
      hide Apply, Agree, Distinct, Members;
      IndexOf(clients);
      assert clients[..|clients|] == clients;
      for k := 0 to |clients|
        invariant Valid() && forall i :: 0 <= i < |clients| ==> clients[i] in loops
        invariant queuedSends == old(queuedSends) + multiset(clients[..k])
        invariant forall i :: 0 <= i < k ==>
                                loops[clients[i]] == Apply(heartbeatCooldown, old(loops[clients[i]]), Change)
        invariant forall i :: k <= i < |clients| ==> loops[clients[i]] == old(loops[clients[i]])
      {
        OthersDiffer(clients, k);
        OneMoreClient(clients, k);
        ChangeAgrees(heartbeatCooldown, loops, lastHeartbeatTimes, debouncingFlags, queuedSends, clients[k]);
        queuedSends := queuedSends + multiset{clients[k]};
        loops := loops[clients[k] := Apply(heartbeatCooldown, loops[clients[k]], Change)];
      }
    }

    /**
     * The synchronous start of a send: go ahead, or hand back the delay of a heartbeat to arm,
     * or neither when one is armed already.
     */
    method BeginSend(client: Transport, now: real) returns (proceed: bool, arm: Option<real>)
      modifies this`debouncingFlags
      ensures Attempted(heartbeatCooldown, lastHeartbeatTimes, old(debouncingFlags), client, now, proceed, arm)
      ensures debouncingFlags == if arm.Some? then old(debouncingFlags)[client := true] else old(debouncingFlags)
    {
      var lastTime := if client in lastHeartbeatTimes then lastHeartbeatTimes[client] else 0.0;
      var timeSinceLast := now - lastTime;
      proceed, arm := true, None;
      if timeSinceLast < heartbeatCooldown {
        proceed := false;
        var remaining := heartbeatCooldown - timeSinceLast;
        if !(if client in debouncingFlags then debouncingFlags[client] else false) {
          debouncingFlags := debouncingFlags[client := true];
          arm := Some(remaining);
        }
      }
    }

    /** A queued or periodic send runs up to its await; `arm` is the delay of the heartbeat it arms, if any. */
    method RunSend(client: Transport, now: real, queued: bool) returns (proceed: bool, arm: Option<real>)
      requires Valid() && client in loops && loops[client].now == now
      requires queued ==> client in queuedSends
      modifies this
      ensures Valid() && lastHeartbeatTimes == old(lastHeartbeatTimes)
      ensures queuedSends == if queued then old(queuedSends) - multiset{client} else old(queuedSends)
      ensures Stepped(client, if queued then RunQueued else RunPeriodic)
      ensures proceed <==> !old(loops[client]).Cooling(heartbeatCooldown)
      ensures Attempted(heartbeatCooldown, lastHeartbeatTimes, old(debouncingFlags), client, now, proceed, arm)
      ensures arm.Some? ==> loops[client].delayed == old(loops[client]).delayed + [Sleeping(now + arm.value)]
      ensures debouncingFlags == if arm.Some? then old(debouncingFlags)[client := true] else old(debouncingFlags)
    {
      hide Agree, Members, Distinct;
      AgreeAt(loops, lastHeartbeatTimes, debouncingFlags, queuedSends, client);
      if queued {
        queuedSends := queuedSends - multiset{client};
      }
      proceed, arm := BeginSend(client, now);
      ghost var m := Apply(heartbeatCooldown, loops[client], if queued then RunQueued else RunPeriodic);
      AgreeAfter(loops, old(lastHeartbeatTimes), old(debouncingFlags), old(queuedSends), client, m,
                 lastHeartbeatTimes, debouncingFlags, queuedSends);
      loops := loops[client := m];
    }

    /** A send in progress comes back; only a success is remembered. */
    method FinishSend(client: Transport, now: real, ghost i: nat, success: bool)
      requires Valid() && client in loops && loops[client].now == now && i < |loops[client].flights|
      modifies this
      ensures Valid() && Stepped(client, if success then Land(i) else Fail(i))
      ensures lastHeartbeatTimes == if success then old(lastHeartbeatTimes)[client := now] else old(lastHeartbeatTimes)
      ensures debouncingFlags == old(debouncingFlags) && queuedSends == old(queuedSends)
    {
      hide Agree, Members, Distinct;
      AgreeAt(loops, lastHeartbeatTimes, debouncingFlags, queuedSends, client);
      if success {
        lastHeartbeatTimes := lastHeartbeatTimes[client := now];
      }
      ghost var m := Apply(heartbeatCooldown, loops[client], if success then Land(i) else Fail(i));
      AgreeAfter(loops, old(lastHeartbeatTimes), old(debouncingFlags), old(queuedSends), client, m,
                 lastHeartbeatTimes, debouncingFlags, queuedSends);
      loops := loops[client := m];
    }

    /** A delayed heartbeat wakes up; if its send does not go ahead, its finally clause runs at once. */
    method WakeDelayed(client: Transport, now: real, ghost j: nat) returns (proceed: bool)
      requires Valid() && client in loops && loops[client].now == now
      requires Enabled(loops[client], Wake(j))
      modifies this
      ensures Valid() && Stepped(client, Wake(j))
      ensures proceed <==> !old(loops[client]).Cooling(heartbeatCooldown)
      ensures proceed <==>
              !(now - (if client in lastHeartbeatTimes then lastHeartbeatTimes[client] else 0.0) < heartbeatCooldown)
      ensures lastHeartbeatTimes == old(lastHeartbeatTimes) && queuedSends == old(queuedSends)
      ensures debouncingFlags == if proceed then old(debouncingFlags) else old(debouncingFlags)[client := false]
    {
      hide Agree, Members, Distinct;
      AgreeAt(loops, lastHeartbeatTimes, debouncingFlags, queuedSends, client);
      var arm;
      proceed, arm := BeginSend(client, now);
      if !proceed {
        debouncingFlags := debouncingFlags[client := false];
      }
      ghost var m := Apply(heartbeatCooldown, loops[client], Wake(j));
      AgreeAfter(loops, old(lastHeartbeatTimes), old(debouncingFlags), old(queuedSends), client, m,
                 lastHeartbeatTimes, debouncingFlags, queuedSends);
      loops := loops[client := m];
    }

    method FinishDelayed(client: Transport, now: real, ghost j: nat, success: bool)
      requires Valid() && client in loops && loops[client].now == now
      requires Enabled(loops[client], LandDelayed(j))
      modifies this
      ensures Valid() && Stepped(client, if success then LandDelayed(j) else FailDelayed(j))
      ensures lastHeartbeatTimes == if success then old(lastHeartbeatTimes)[client := now] else old(lastHeartbeatTimes)
      ensures debouncingFlags == old(debouncingFlags)[client := false] && queuedSends == old(queuedSends)
    {
      hide Agree, Members, Distinct;
      AgreeAt(loops, lastHeartbeatTimes, debouncingFlags, queuedSends, client);
      if success {
        lastHeartbeatTimes := lastHeartbeatTimes[client := now];
      }
      debouncingFlags := debouncingFlags[client := false];
      ghost var m := Apply(heartbeatCooldown, loops[client], if success then LandDelayed(j) else FailDelayed(j));
      AgreeAfter(loops, old(lastHeartbeatTimes), old(debouncingFlags), old(queuedSends), client, m,
                 lastHeartbeatTimes, debouncingFlags, queuedSends);
      loops := loops[client := m];
    }
  }
}
