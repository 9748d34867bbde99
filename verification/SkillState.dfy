/**
 * The three tiers of skills a worker reports: supported, available under the current load, and hot.
 */
module SkillState {
  import opened Prelude

  /** A registered skill; its type is the declared one, or its name when none was declared. */
  datatype Handler = Handler(name: string, skillType: string)

  datatype Status = Idle | Busy | Full

  datatype Report = Report(status: Status, supported: seq<Handler>, available: seq<Handler>, hot: seq<Handler>)

  /** What the report depends on besides the load counters. */
  datatype Conditions = Conditions(
    maxConcurrent: nat,
    limits: map<string, nat>,              // per skill type
    blocked: set<string>,                  // skills refused by the capacity checker
    dependencies: map<string, set<string>>,
    hotItems: set<string>)

  predicate IsAvailable(c: Conditions, byType: map<string, int>, h: Handler) {
    && !(h.skillType in c.limits && Get(byType, h.skillType, 0) >= c.limits[h.skillType])
    && h.name !in c.blocked
  }

  predicate IsHot(c: Conditions, h: Handler) {
    if h.name in c.dependencies then c.dependencies[h.name] != {} && c.dependencies[h.name] <= c.hotItems
    else h.name in c.hotItems
  }

  function AvailableOf(c: Conditions, byType: map<string, int>, handlers: seq<Handler>): seq<Handler> {
    if handlers == [] then []
    else
      var rest, h := AvailableOf(c, byType, handlers[..|handlers| - 1]), handlers[|handlers| - 1];
      if IsAvailable(c, byType, h) then rest + [h] else rest
  }

  function HotOf(c: Conditions, handlers: seq<Handler>): seq<Handler> {
    if handlers == [] then []
    else
      var rest, h := HotOf(c, handlers[..|handlers| - 1]), handlers[|handlers| - 1];
      if IsHot(c, h) then rest + [h] else rest
  }

  function CurrentState(c: Conditions, load: int, byType: map<string, int>, handlers: seq<Handler>): Report {
    if load >= c.maxConcurrent then Report(Full, handlers, [], [])
    else
      var available := AvailableOf(c, byType, handlers);
      Report(if available != [] then Idle else Busy, handlers, available, HotOf(c, available))
  }

  /** a can be obtained from b by leaving elements out. */
  ghost predicate Subsequence<T>(a: seq<T>, b: seq<T>) {
    if a == [] then true
    else if b == [] then false
    else
      || (a[|a| - 1] == b[|b| - 1] && Subsequence(a[..|a| - 1], b[..|b| - 1]))
      || Subsequence(a, b[..|b| - 1])
  }

  lemma {:induction false} AvailableIsSubsequence(c: Conditions, byType: map<string, int>, handlers: seq<Handler>)
    ensures Subsequence(AvailableOf(c, byType, handlers), handlers)
    ensures forall h :: h in AvailableOf(c, byType, handlers) <==> h in handlers && IsAvailable(c, byType, h)
  {
    if handlers != [] {
      var init := handlers[..|handlers| - 1];
      AvailableIsSubsequence(c, byType, init);
      assert handlers == init + [handlers[|handlers| - 1]];
      if IsAvailable(c, byType, handlers[|handlers| - 1]) {
        assert AvailableOf(c, byType, handlers)[..|AvailableOf(c, byType, init)|] == AvailableOf(c, byType, init);
      }
    }
  }

  lemma {:induction false} HotIsSubsequence(c: Conditions, handlers: seq<Handler>)
    ensures Subsequence(HotOf(c, handlers), handlers)
    ensures forall h :: h in HotOf(c, handlers) <==> h in handlers && IsHot(c, h)
  {
    if handlers != [] {
      var init := handlers[..|handlers| - 1];
      HotIsSubsequence(c, init);
      assert handlers == init + [handlers[|handlers| - 1]];
      if IsHot(c, handlers[|handlers| - 1]) {
        assert HotOf(c, handlers)[..|HotOf(c, init)|] == HotOf(c, init);
      }
    }
  }

  /**
   * The tiers are nested in the order of registration; a skill is available exactly if no limit
   * and no capacity check stands against it, and the status says whether any is.
   */
  lemma TiersAreNested(c: Conditions, load: int, byType: map<string, int>, handlers: seq<Handler>)
    ensures var r := CurrentState(c, load, byType, handlers);
            && Subsequence(r.hot, r.available) && Subsequence(r.available, r.supported)
            && r.supported == handlers
            && (forall h :: h in r.available <==>
                              && h in handlers && load < c.maxConcurrent && h.name !in c.blocked
                              && (h.skillType in c.limits ==>
                                    (if h.skillType in byType then byType[h.skillType] else 0) < c.limits[h.skillType]))
            && (forall h :: h in r.hot <==>
                              && h in r.available
                              && (h.name in c.dependencies ==>
                                    c.dependencies[h.name] != {} && c.dependencies[h.name] <= c.hotItems)
                              && (h.name !in c.dependencies ==> h.name in c.hotItems))
            && (r.status == Idle <==> r.available != [])
            && (r.status == Full <==> load >= c.maxConcurrent)
  {
    AvailableIsSubsequence(c, byType, handlers);
    HotIsSubsequence(c, AvailableOf(c, byType, handlers));
  }

  /** The code: one pass over the registered skills. */
  method GetCurrentState(c: Conditions, load: int, byType: map<string, int>, handlers: seq<Handler>) returns (r: Report)
    ensures r == CurrentState(c, load, byType, handlers)
  {
    if load >= c.maxConcurrent {
      return Report(Full, handlers, [], []);
    }
    var available, hot := [], [];
    for k := 0 to |handlers|
      invariant available == AvailableOf(c, byType, handlers[..k])
      invariant hot == HotOf(c, available)
    {
      var h := handlers[k];
      assert handlers[..k + 1][..k] == handlers[..k];
      var isAvailable := true;
      if h.skillType in c.limits {
        var current := if h.skillType in byType then byType[h.skillType] else 0;
        if current >= c.limits[h.skillType] {
          isAvailable := false;
        }
      }
      if isAvailable && h.name in c.blocked {
        isAvailable := false;
      }
      if isAvailable {
        assert (available + [h])[..|available|] == available;
        available := available + [h];
        var isHot := false;
        if h.name in c.dependencies {
          var deps := c.dependencies[h.name];
          if deps != {} && deps <= c.hotItems {
            isHot := true;
          }
        } else if h.name in c.hotItems {
          isHot := true;
        }
        if isHot {
          hot := hot + [h];
        }
      }
    }
    assert handlers[..|handlers|] == handlers;
    var status := if available != [] then Idle else Busy;
    r := Report(status, handlers, available, hot);
  }
}
