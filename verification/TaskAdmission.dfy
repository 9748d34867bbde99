/**
 * Task admission, load counters and the hand-over of results, as a transition system whose steps
 * run from one await to the next. There is one polling loop, which serves all three polling modes
 * here since nothing is assumed about the order in which it visits clients; tasks, registrations
 * and the result uploader interleave with it freely.
 */
module TaskAdmission {
  import opened Prelude
  import opened SkillState

  // ---------------------------------------------------------------------------
  // State
  // ---------------------------------------------------------------------------

  datatype ResultStatus = Success | Failure | Cancelled | Named(name: string)
  datatype ErrorCode =
    InvalidInput | Permanent | ContractViolation | IntegrityMismatch | Transient | OwnCode(code: string)
  datatype Verdict = Verdict(status: ResultStatus, code: Option<ErrorCode>)

  /** How the handler of a known skill came to an end. */
  datatype Body =
    | Returned(status: Option<ResultStatus>, violatesSchema: bool, error: Option<ErrorCode>)
    | ParamsRejected
    | WasCancelled
    | RaisedValueError
    | RaisedOther

  /** The result that stands before the try: that of a failed validation, which only a known skill has. */
  function Precheck(known: bool, inputValid: bool): Option<Verdict> {
    if known && !inputValid then Some(Verdict(Failure, Some(InvalidInput))) else None
  }

  /** The result that stands at the finally clause, if any, on each way through the try. */
  function Conclude(known: bool, before: Option<Verdict>, body: Body): Option<Verdict> {
    if before.Some? then before
    else if !known then Some(Verdict(Failure, Some(Permanent)))
    else match body
      case Returned(status, violates, error) =>
        if violates then Some(Verdict(Failure, Some(ContractViolation)))
        else Some(Verdict(if status.Some? then status.value else Success, error))
      case ParamsRejected => Some(Verdict(Failure, Some(InvalidInput)))
      case WasCancelled => Some(Verdict(Cancelled, None))
      case RaisedValueError => Some(Verdict(Failure, Some(IntegrityMismatch)))
      case RaisedOther => Some(Verdict(Failure, Some(Transient)))
  }

  /**
   * Created: not yet past the checks before the try. Running: inside it, with the skill type that
   * will be released and the result that stands already. Closing: in the finally clause, awaiting
   * the cleanup. Released: ended after giving back its slot. Lost: ended without reaching the end
   * of the finally clause.
   */
  datatype Phase =
    | Created
    | Running(releaseType: Option<string>, result: Option<Verdict>)
    | Closing(releaseType: Option<string>, result: Option<Verdict>)
    | Released(releaseType: Option<string>, result: Option<Verdict>)
    | Lost

  /** A task with the client it came from and the skill type that was counted when it was admitted. */
  datatype Task = Task(id: string, client: Transport, skill: string, counted: Option<string>, phase: Phase) {
    predicate InFlight() {
      phase.Created? || phase.Running? || phase.Closing?
    }
  }

  /** A result on its way to the client that the task came from; `task` is the order of admission. */
  datatype Delivery = Delivery(task: nat, client: Transport, taskId: string, verdict: Verdict)

  datatype Poll = Resting | Awaiting(client: Transport, offered: seq<string>)

  datatype State = State(
    handlers: seq<Handler>,
    load: int,
    byType: map<string, int>,
    active: map<string, nat>,
    tasks: seq<Task>,             // every task ever admitted
    poll: Poll,
    queue: seq<Delivery>,
    sending: Option<Delivery>,    // the result the uploader is working on
    finished: seq<Delivery>)
  {
    /** Every result handed over so far, in the order of the uploader. */
    function HandedOver(): seq<Delivery> {
      finished + (if sending.Some? then [sending.value] else []) + queue
    }
  }

  function TypeOf(handlers: seq<Handler>, name: string): Option<string> {
    if handlers == [] then None
    else if handlers[0].name == name then Some(handlers[0].skillType)
    else TypeOf(handlers[1..], name)
  }

  /** The type of a skill is that of its entry, and there is none for an unknown name. */
  lemma {:induction false} TypeOfIs(handlers: seq<Handler>, name: string)
    ensures TypeOf(handlers, name).None? <==> forall h :: h in handlers ==> h.name != name
    ensures TypeOf(handlers, name).Some? ==>
              exists k :: 0 <= k < |handlers| && handlers[k].name == name
                          && handlers[k].skillType == TypeOf(handlers, name).value
                          && forall j :: 0 <= j < k ==> handlers[j].name != name
  {
    if handlers != [] && handlers[0].name != name {
      TypeOfIs(handlers[1..], name);
      if k :| 0 <= k < |handlers[1..]| && handlers[1..][k].name == name
              && handlers[1..][k].skillType == TypeOf(handlers[1..], name).value
              && forall j :: 0 <= j < k ==> handlers[1..][j].name != name {
        assert handlers[k + 1].name == name;
        assert forall j :: 1 <= j < k + 1 ==> handlers[j] == handlers[1..][j - 1];
      }
      assert forall h :: h in handlers <==> h == handlers[0] || h in handlers[1..];
    }
  }

  /** Registration under a known name replaces the entry in place. */
  function Put(handlers: seq<Handler>, h: Handler): seq<Handler> {
    if handlers == [] then [h]
    else if handlers[0].name == h.name then [h] + handlers[1..]
    else [handlers[0]] + Put(handlers[1..], h)
  }

  function Names(handlers: seq<Handler>): seq<string> {
    seq(|handlers|, i requires 0 <= i < |handlers| => handlers[i].name)
  }

  function Add(m: map<string, int>, t: Option<string>, d: int): map<string, int> {
    if t.Some? then m[t.value := Get(m, t.value, 0) + d] else m
  }

  function Init(c: Conditions): State {
    State([], 0, map t | t in c.limits :: 0, map[], [], Resting, [], None, [])
  }

  // ---------------------------------------------------------------------------
  // Steps
  // ---------------------------------------------------------------------------

  datatype Event =
    | Register(handler: Handler)
    | BeginPoll(client: Transport, blocked: set<string>)
    | PollNothing                       // no task, or an error
    | PollTask(id: string, skill: string)
    | Start(i: nat, inputValid: bool)   // a task passes its checks, is validated and enters the try
    | Finish(i: nat, body: Body)
    | Close(i: nat)                     // the rest of the finally clause
    | Drop(i: nat)                      // rejected or cancelled before the try, or cut short in the finally clause
    | Fetch                             // the uploader takes a result
    | Uploaded                          // and is done with it

  predicate Enabled(c: Conditions, s: State, e: Event) {
    match e
    case Register(_) => true
    case BeginPoll(_, blocked) =>
      s.poll.Resting? && CurrentState(c.(blocked := blocked), s.load, s.byType, s.handlers).status == Idle
    case PollNothing => s.poll.Awaiting?
    case PollTask(_, _) => s.poll.Awaiting?
    case Start(i, _) => i < |s.tasks| && s.tasks[i].phase.Created?
    case Finish(i, _) => i < |s.tasks| && s.tasks[i].phase.Running?
    case Close(i) => i < |s.tasks| && s.tasks[i].phase.Closing?
    case Drop(i) => i < |s.tasks| && (s.tasks[i].phase.Created? || s.tasks[i].phase.Closing?)
    case Fetch => s.sending.None? && s.queue != []
    case Uploaded => s.sending.Some?
  }

  function DeliveryOf(t: Task, i: nat): Delivery
    requires (t.phase.Closing? || t.phase.Released?) && t.phase.result.Some?
  {
    Delivery(i, t.client, t.id, t.phase.result.value)
  }

  /** What the finally clause puts into the queue: a result, if one stands. */
  function Handed(t: Task, i: nat): seq<Delivery>
    requires t.phase.Closing? || t.phase.Released?
  {
    if t.phase.result.Some? then [DeliveryOf(t, i)] else []
  }

  function Apply(c: Conditions, s: State, e: Event): State
    requires Enabled(c, s, e)
  {
    match e
    case Register(h) =>
      s.(handlers := Put(s.handlers, h),
         byType := if h.skillType in s.byType then s.byType else s.byType[h.skillType := 0])
    case BeginPoll(client, blocked) =>
      s.(poll := Awaiting(client, Names(CurrentState(c.(blocked := blocked), s.load, s.byType, s.handlers).available)))
    case PollNothing => s.(poll := Resting)
    case PollTask(id, skill) =>
      var t := TypeOf(s.handlers, skill);
      s.(poll := Resting, load := s.load + 1, byType := Add(s.byType, t, 1),
         tasks := s.tasks + [Task(id, s.poll.client, skill, t, Created)],
         active := s.active[id := |s.tasks|])
    case Start(i, inputValid) =>
      var t := TypeOf(s.handlers, s.tasks[i].skill);
      s.(tasks := s.tasks[i := s.tasks[i].(phase := Running(t, Precheck(t.Some?, inputValid)))])
    case Finish(i, body) =>
      var t := s.tasks[i];
      s.(tasks := s.tasks[i := t.(phase := Closing(t.phase.releaseType,
                                                   Conclude(t.phase.releaseType.Some?, t.phase.result, body)))])
    case Close(i) =>
      var t := s.tasks[i];
      s.(tasks := s.tasks[i := t.(phase := Released(t.phase.releaseType, t.phase.result))],
         queue := s.queue + Handed(t, i), active := s.active - {t.id},
         load := s.load - 1, byType := Add(s.byType, t.phase.releaseType, -1))
    case Drop(i) => s.(tasks := s.tasks[i := s.tasks[i].(phase := Lost)])
    case Fetch => s.(sending := Some(s.queue[0]), queue := s.queue[1..])
    case Uploaded => s.(sending := None, finished := s.finished + [s.sending.value])
  }

  /** Assumptions about the environment that a statement may or may not need. */
  datatype Rules = Rules(
    noDrops: bool,      // no task is dropped
    quiet: bool,        // no registration changes the type of a skill between admission and start of one of its tasks
    freshIds: bool,     // an admitted task id is not in use
    honest: bool)       // a reply carries a skill that this poll offered, and whose type did not change meanwhile

  ghost predicate Allowed(r: Rules, s: State, e: Event) {
    && (r.noDrops ==> !e.Drop?)
    && (r.quiet && e.Register? ==>
          forall i :: 0 <= i < |s.tasks| && s.tasks[i].phase.Created? && s.tasks[i].skill == e.handler.name ==>
                        s.tasks[i].counted == Some(e.handler.skillType))
    && (r.freshIds && e.PollTask? ==> e.id !in s.active)
    && (r.honest && e.PollTask? ==> s.poll.Awaiting? && e.skill in s.poll.offered)
    && (r.honest && e.Register? && s.poll.Awaiting? && e.handler.name in s.poll.offered ==>
          TypeOf(s.handlers, e.handler.name) == Some(e.handler.skillType))
  }

  ghost predicate Legal(c: Conditions, r: Rules, s: State, es: seq<Event>)
    decreases |es|
  {
    es == [] || (Enabled(c, s, es[0]) && Allowed(r, s, es[0]) && Legal(c, r, Apply(c, s, es[0]), es[1..]))
  }

  ghost function Run(c: Conditions, r: Rules, s: State, es: seq<Event>): State
    requires Legal(c, r, s, es)
    decreases |es|
  {
    if es == [] then s else Run(c, r, Apply(c, s, es[0]), es[1..])
  }

  // ---------------------------------------------------------------------------
  // Counting tasks
  // ---------------------------------------------------------------------------

  datatype Kind =
    | AnyInFlight | AnyLost | AnyReleased
    | CountedAs(t: string) | ReleasedAs(t: string) | InFlightAs(t: string) | LostAs(t: string)

  predicate Is(k: Task, kind: Kind) {
    match kind
    case AnyInFlight => k.InFlight()
    case AnyLost => k.phase.Lost?
    case AnyReleased => k.phase.Released?
    case CountedAs(t) => k.counted == Some(t)
    case ReleasedAs(t) => k.phase.Released? && k.phase.releaseType == Some(t)
    case InFlightAs(t) => k.InFlight() && k.counted == Some(t)
    case LostAs(t) => k.phase.Lost? && k.counted == Some(t)
  }

  function Count(tasks: seq<Task>, kind: Kind): nat {
    if tasks == [] then 0
    else Count(tasks[..|tasks| - 1], kind) + (if Is(tasks[|tasks| - 1], kind) then 1 else 0)
  }

  lemma {:induction false} CountUpdate(tasks: seq<Task>, i: nat, k: Task, kind: Kind)
    requires i < |tasks|
    ensures Count(tasks[i := k], kind) + (if Is(tasks[i], kind) then 1 else 0)
         == Count(tasks, kind) + (if Is(k, kind) then 1 else 0)
  {
    var last := |tasks| - 1;
    if i < last {
      CountUpdate(tasks[..last], i, k, kind);
      assert tasks[i := k][..last] == tasks[..last][i := k];
    } else {
      assert tasks[i := k][..last] == tasks[..last];
    }
  }

  lemma CountAppend(tasks: seq<Task>, k: Task, kind: Kind)
    ensures Count(tasks + [k], kind) == Count(tasks, kind) + (if Is(k, kind) then 1 else 0)
  {
    assert (tasks + [k])[..|tasks|] == tasks;
  }

  /** The admitted task that a step moves on to its next phase. */
  function Target(e: Event): Option<nat> {
    match e
    case Start(i, _) => Some(i)
    case Finish(i, _) => Some(i)
    case Close(i) => Some(i)
    case Drop(i) => Some(i)
    case _ => None
  }

  function Weight(k: Task, kind: Kind): nat {
    if Is(k, kind) then 1 else 0
  }

  /** How a step changes any count: only the task it admits or moves on matters. */
  lemma CountStep(c: Conditions, s: State, e: Event, kind: Kind)
    requires Enabled(c, s, e)
    ensures e.PollTask? ==>
              Count(Apply(c, s, e).tasks, kind) == Count(s.tasks, kind) + Weight(Apply(c, s, e).tasks[|s.tasks|], kind)
    ensures Target(e).Some? ==>
              Count(Apply(c, s, e).tasks, kind) + Weight(s.tasks[Target(e).value], kind)
              == Count(s.tasks, kind) + Weight(Apply(c, s, e).tasks[Target(e).value], kind)
    ensures !e.PollTask? && Target(e).None? ==> Apply(c, s, e).tasks == s.tasks
  {
    var after := Apply(c, s, e);
    if e.PollTask? {
      CountAppend(s.tasks, after.tasks[|s.tasks|], kind);
    } else if Target(e).Some? {
      var i := Target(e).value;
      CountUpdate(s.tasks, i, after.tasks[i], kind);
    }
  }

  // ---------------------------------------------------------------------------
  // The load counter, on every run
  // ---------------------------------------------------------------------------

  ghost predicate LoadInv(c: Conditions, s: State) {
    && s.load == Count(s.tasks, AnyInFlight) + Count(s.tasks, AnyLost)
    && s.load <= c.maxConcurrent
    && (s.poll.Awaiting? ==> s.load < c.maxConcurrent)
  }

  lemma LoadStep(c: Conditions, s: State, e: Event)
    requires LoadInv(c, s) && Enabled(c, s, e)
    ensures LoadInv(c, Apply(c, s, e))
  {
    CountStep(c, s, e, AnyInFlight);
    CountStep(c, s, e, AnyLost);
  }

  lemma {:induction false} LoadRun(c: Conditions, r: Rules, s: State, es: seq<Event>)
    requires LoadInv(c, s) && Legal(c, r, s, es)
    ensures LoadInv(c, Run(c, r, s, es))
    decreases |es|
  {
    if es != [] {
      LoadStep(c, s, es[0]);
      LoadRun(c, r, Apply(c, s, es[0]), es[1..]);
    }
  }

  /**
   * Global concurrency safety, for every reply of every orchestrator: the load counter is the
   * number of tasks in flight plus the slots leaked by dropped tasks, and never exceeds the maximum.
   */
  lemma NeverOverloaded(c: Conditions, r: Rules, es: seq<Event>)
    requires Legal(c, r, Init(c), es)
    ensures var s := Run(c, r, Init(c), es);
            Count(s.tasks, AnyInFlight)
            <= Count(s.tasks, AnyInFlight) + Count(s.tasks, AnyLost) == s.load <= c.maxConcurrent
  {
    LoadRun(c, r, Init(c), es);
  }

  /** A leaked slot is never given back: once as many tasks are lost as may run, polling is over for good. */
  lemma {:induction false} LeakedSlotsStayLeaked(
    c: Conditions, r: Rules, s: State, es: seq<Event>, client: Transport, blocked: set<string>)
    requires LoadInv(c, s) && Legal(c, r, s, es)
    ensures Count(Run(c, r, s, es).tasks, AnyLost) >= Count(s.tasks, AnyLost)
    ensures Count(s.tasks, AnyLost) >= c.maxConcurrent ==> !Enabled(c, Run(c, r, s, es), BeginPoll(client, blocked))
    decreases |es|
  {
    if es != [] {
      LoadStep(c, s, es[0]);
      CountStep(c, s, es[0], AnyLost);
      LeakedSlotsStayLeaked(c, r, Apply(c, s, es[0]), es[1..], client, blocked);
    }
  }

  // ---------------------------------------------------------------------------
  // The counters by type, on every run
  // ---------------------------------------------------------------------------

  /** Each admission counted under t is there until some end released under t. */
  ghost predicate TypeInv(s: State, t: string) {
    Get(s.byType, t, 0) == Count(s.tasks, CountedAs(t)) - Count(s.tasks, ReleasedAs(t))
  }

  lemma TypeStep(c: Conditions, s: State, e: Event, t: string)
    requires TypeInv(s, t) && Enabled(c, s, e)
    ensures TypeInv(Apply(c, s, e), t)
  {
    if e.PollTask? {
      TypeAdmitted(c, s, e, t);
    } else if e.Close? {
      TypeReleased(c, s, e, t);
    } else if Target(e).Some? {
      TypeMoved(c, s, e, t);
    }
  }

  lemma TypeAdmitted(c: Conditions, s: State, e: Event, t: string)
    requires TypeInv(s, t) && Enabled(c, s, e) && e.PollTask?
    ensures TypeInv(Apply(c, s, e), t)
  {
    CountStep(c, s, e, CountedAs(t));
    CountStep(c, s, e, ReleasedAs(t));
    hide Count;
  }

  lemma TypeReleased(c: Conditions, s: State, e: Event, t: string)
    requires TypeInv(s, t) && Enabled(c, s, e) && e.Close?
    ensures TypeInv(Apply(c, s, e), t)
  {
    CountStep(c, s, e, CountedAs(t));
    CountStep(c, s, e, ReleasedAs(t));
    hide Count;
  }

  lemma TypeMoved(c: Conditions, s: State, e: Event, t: string)
    requires TypeInv(s, t) && Enabled(c, s, e) && !e.Close? && Target(e).Some?
    ensures TypeInv(Apply(c, s, e), t)
  {
    CountStep(c, s, e, CountedAs(t));
    CountStep(c, s, e, ReleasedAs(t));
    hide Count;
  }

  lemma {:induction false} TypeRun(c: Conditions, r: Rules, s: State, es: seq<Event>, t: string)
    requires TypeInv(s, t) && Legal(c, r, s, es)
    ensures TypeInv(Run(c, r, s, es), t)
    decreases |es|
  {
    if es != [] {
      TypeStep(c, s, es[0], t);
      TypeRun(c, r, Apply(c, s, es[0]), es[1..], t);
    }
  }

  lemma {:induction false} TypeOfPut(handlers: seq<Handler>, h: Handler, name: string)
    ensures TypeOf(Put(handlers, h), name) == if name == h.name then Some(h.skillType) else TypeOf(handlers, name)
  {
    if handlers != [] {
      TypeOfPut(handlers[1..], h, name);
      if handlers[0].name != h.name {
        assert Put(handlers, h)[1..] == Put(handlers[1..], h);
      }
    }
  }

  /** What a task will release, or would if it started now, is what it was counted as. */
  ghost predicate Matched(s: State, k: Task) {
    match k.phase
    case Created => k.counted == TypeOf(s.handlers, k.skill)
    case Running(t, _) => t == k.counted
    case Closing(t, _) => t == k.counted
    case Released(t, _) => t == k.counted
    case Lost => true
  }

  ghost predicate AllMatched(s: State) {
    forall i :: 0 <= i < |s.tasks| ==> Matched(s, s.tasks[i])
  }

  lemma MatchedStep(c: Conditions, r: Rules, s: State, e: Event)
    requires AllMatched(s) && Enabled(c, s, e) && r.quiet && Allowed(r, s, e)
    ensures AllMatched(Apply(c, s, e))
  {
    if e.Register? {
      forall i | 0 <= i < |s.tasks| ensures Matched(Apply(c, s, e), s.tasks[i]) {
        TypeOfPut(s.handlers, e.handler, s.tasks[i].skill);
      }
    }
  }

  /** A registration spoils the match exactly if it retypes the skill of a task that has not started. */
  lemma RegistrationMatchesIff(c: Conditions, s: State, h: Handler)
    requires AllMatched(s)
    ensures AllMatched(Apply(c, s, Register(h))) <==>
            Allowed(Rules(false, true, false, false), s, Register(h))
  {
    var after := Apply(c, s, Register(h));
    forall i | 0 <= i < |s.tasks|
      ensures s.tasks[i].phase.Created? ==>
                TypeOf(after.handlers, s.tasks[i].skill) ==
                if s.tasks[i].skill == h.name then Some(h.skillType) else s.tasks[i].counted
    {
      assert Matched(s, s.tasks[i]);
      TypeOfPut(s.handlers, h, s.tasks[i].skill);
    }
    if AllMatched(after) {
      forall i | 0 <= i < |s.tasks| && s.tasks[i].phase.Created? && s.tasks[i].skill == h.name
        ensures s.tasks[i].counted == Some(h.skillType)
      {
        assert Matched(after, after.tasks[i]);
      }
    } else if Allowed(Rules(false, true, false, false), s, Register(h)) {
      MatchedStep(c, Rules(false, true, false, false), s, Register(h));
    }
  }

  lemma {:induction false} MatchedRun(c: Conditions, r: Rules, s: State, es: seq<Event>)
    requires AllMatched(s) && r.quiet && Legal(c, r, s, es)
    ensures AllMatched(Run(c, r, s, es))
    decreases |es|
  {
    if es != [] {
      MatchedStep(c, r, s, es[0]);
      MatchedRun(c, r, Apply(c, s, es[0]), es[1..]);
    }
  }

  lemma {:induction false} MatchedCounts(s: State, n: nat, t: string)
    requires AllMatched(s) && n <= |s.tasks|
    ensures Count(s.tasks[..n], CountedAs(t)) - Count(s.tasks[..n], ReleasedAs(t))
         == Count(s.tasks[..n], InFlightAs(t)) + Count(s.tasks[..n], LostAs(t))
  {
    if n > 0 {
      MatchedCounts(s, n - 1, t);
      assert s.tasks[..n][..n - 1] == s.tasks[..n - 1];
      assert Matched(s, s.tasks[n - 1]);
    }
  }

  /** With quiet registrations, each counter is the tasks of its type in flight plus those lost. */
  lemma TypeCountersRecount(c: Conditions, r: Rules, es: seq<Event>, t: string)
    requires r.quiet && Legal(c, r, Init(c), es)
    ensures var s := Run(c, r, Init(c), es);
            Get(s.byType, t, 0) == Count(s.tasks, InFlightAs(t)) + Count(s.tasks, LostAs(t))
  {
    var s := Run(c, r, Init(c), es);
    TypeRun(c, r, Init(c), es, t);
    MatchedRun(c, r, Init(c), es);
    MatchedCounts(s, |s.tasks|, t);
    assert s.tasks[..|s.tasks|] == s.tasks;
  }

  /**
   * Without quiet registrations the counters drift, below zero if need be: whenever a poll is
   * answered with a skill that is registered only after the admission, the counter of its type
   * ends one lower than it was, because it is released without having been counted.
   */
  lemma LateRegistrationDrifts(c: Conditions, s: State, id: string, h: Handler)
    requires s.poll.Awaiting? && TypeOf(s.handlers, h.name).None? && id !in s.active
    ensures var r, n := Rules(true, false, true, false), |s.tasks|;
            var rest := [Start(n, true)] + ([Finish(n, RaisedOther)] + [Close(n)]);
            var es := [PollTask(id, h.name)] + ([Register(h)] + rest);
            && Legal(c, r, s, es)
            && Get(Run(c, r, s, es).byType, h.skillType, 0) == Get(s.byType, h.skillType, 0) - 1
  {
    var r, n := Rules(true, false, true, false), |s.tasks|;
    var rest := [Finish(n, RaisedOther)] + [Close(n)];
    var s1 := First(c, r, s, PollTask(id, h.name), [Register(h)] + ([Start(n, true)] + rest));
    var s2 := First(c, r, s1, Register(h), [Start(n, true)] + rest);
    TypeOfPut(s.handlers, h, h.name);
    var s3 := First(c, r, s2, Start(n, true), rest);
    assert s3.tasks[n].phase == Running(Some(h.skillType), None);
    assert Get(s3.byType, h.skillType, 0) == Get(s.byType, h.skillType, 0);
    var s4 := First(c, r, s3, Finish(n, RaisedOther), [Close(n)]);
    var s5 := First(c, r, s4, Close(n), []);
  }

  lemma First(c: Conditions, r: Rules, s: State, e: Event, rest: seq<Event>) returns (after: State)
    requires Enabled(c, s, e) && Allowed(r, s, e)
    ensures after == Apply(c, s, e)
    ensures Legal(c, r, s, [e] + rest) <==> Legal(c, r, after, rest)
    ensures Legal(c, r, after, rest) ==> Run(c, r, s, [e] + rest) == Run(c, r, after, rest)
  {
    after := Apply(c, s, e);
    assert ([e] + rest)[1..] == rest;
  }

  // ---------------------------------------------------------------------------
  // The table of active tasks
  // ---------------------------------------------------------------------------

  /** The table holds exactly the tasks that have not given back their slot, each under its own id. */
  ghost predicate ActiveInv(s: State) {
    && (forall id :: id in s.active ==>
                       && s.active[id] < |s.tasks|
                       && s.tasks[s.active[id]].id == id
                       && !s.tasks[s.active[id]].phase.Released?)
    && (forall i :: 0 <= i < |s.tasks| && !s.tasks[i].phase.Released? ==>
                      s.tasks[i].id in s.active && s.active[s.tasks[i].id] == i)
  }

  lemma ActiveStep(c: Conditions, r: Rules, s: State, e: Event)
    requires ActiveInv(s) && Enabled(c, s, e) && r.freshIds && Allowed(r, s, e)
    ensures ActiveInv(Apply(c, s, e))
  {
    if e.PollTask? {
      ActiveAdmitted(c, r, s, e);
    } else if e.Close? {
      ActiveReleased(c, s, e.i);
    }
  }

  lemma ActiveAdmitted(c: Conditions, r: Rules, s: State, e: Event)
    requires ActiveInv(s) && Enabled(c, s, e) && e.PollTask? && r.freshIds && Allowed(r, s, e)
    ensures ActiveInv(Apply(c, s, e))
  {
    hide TypeOf, Add;
  }

  lemma ActiveReleased(c: Conditions, s: State, i: nat)
    requires ActiveInv(s) && Enabled(c, s, Close(i))
    ensures ActiveInv(Apply(c, s, Close(i)))
  {
    hide Add;
  }

  lemma {:induction false} ActiveRun(c: Conditions, r: Rules, s: State, es: seq<Event>)
    requires ActiveInv(s) && r.freshIds && Legal(c, r, s, es)
    ensures ActiveInv(Run(c, r, s, es))
    decreases |es|
  {
    if es != [] {
      ActiveStep(c, r, s, es[0]);
      ActiveRun(c, r, Apply(c, s, es[0]), es[1..]);
    }
  }

  // ---------------------------------------------------------------------------
  // Runs without drops: the counters are a recount
  // ---------------------------------------------------------------------------

  lemma {:induction false} NoneLost(c: Conditions, r: Rules, s: State, es: seq<Event>)
    requires r.noDrops && Legal(c, r, s, es)
    requires Count(s.tasks, AnyLost) == 0
    ensures Count(Run(c, r, s, es).tasks, AnyLost) == 0
    decreases |es|
  {
    if es != [] {
      CountStep(c, s, es[0], AnyLost);
      NoneLost(c, r, Apply(c, s, es[0]), es[1..]);
    }
  }

  lemma {:induction false} NoneLostOfType(tasks: seq<Task>, t: string)
    ensures Count(tasks, LostAs(t)) <= Count(tasks, AnyLost)
    ensures Count(tasks, InFlightAs(t)) <= Count(tasks, AnyInFlight)
    ensures Count(tasks, AnyLost) == 0 ==> forall i :: 0 <= i < |tasks| ==> !tasks[i].phase.Lost?
  {
    if tasks != [] {
      NoneLostOfType(tasks[..|tasks| - 1], t);
    }
  }

  function Drops(es: seq<Event>): nat {
    if es == [] then 0 else (if es[0].Drop? then 1 else 0) + Drops(es[1..])
  }

  /** Every drop loses one task for good. */
  lemma {:induction false} DropsAreLost(c: Conditions, r: Rules, s: State, es: seq<Event>)
    requires Legal(c, r, s, es)
    ensures Count(Run(c, r, s, es).tasks, AnyLost) == Count(s.tasks, AnyLost) + Drops(es)
    decreases |es|
  {
    if es != [] {
      LostByDrop(c, s, es[0]);
      DropsAreLost(c, r, Apply(c, s, es[0]), es[1..]);
    }
  }

  lemma LostByDrop(c: Conditions, s: State, e: Event)
    requires Enabled(c, s, e)
    ensures Count(Apply(c, s, e).tasks, AnyLost) == Count(s.tasks, AnyLost) + if e.Drop? then 1 else 0
  {
    CountStep(c, s, e, AnyLost);
    hide Count;
  }

  /** So the load counter is the number of tasks in flight exactly if no task was ever dropped. */
  lemma LoadIsRecountIff(c: Conditions, r: Rules, es: seq<Event>)
    requires Legal(c, r, Init(c), es)
    ensures var s := Run(c, r, Init(c), es);
            && s.load == Count(s.tasks, AnyInFlight) + Drops(es)
            && (s.load == Count(s.tasks, AnyInFlight) <==> forall k :: 0 <= k < |es| ==> !es[k].Drop?)
  {
    LoadRun(c, r, Init(c), es);
    DropsAreLost(c, r, Init(c), es);
    NoDrops(es);
  }

  lemma {:induction false} NoDrops(es: seq<Event>)
    ensures Drops(es) == 0 <==> forall k :: 0 <= k < |es| ==> !es[k].Drop?
  {
    if es != [] {
      NoDrops(es[1..]);
      assert forall k :: 1 <= k < |es| ==> es[k] == es[1..][k - 1];
    }
  }

  /** The counters recomputed from the tasks in flight. */
  ghost function Recount(s: State): map<string, int> {
    map t | t in s.byType :: Count(s.tasks, InFlightAs(t))
  }

  /**
   * Without drops, with quiet registrations and unused ids, every counter and the table of active
   * tasks are what a recount of the tasks in flight gives, so the reported state is too; and all
   * are back at their start once no task is in flight.
   */
  lemma CountersRecount(c: Conditions, r: Rules, es: seq<Event>)
    requires r.noDrops && r.quiet && r.freshIds && Legal(c, r, Init(c), es)
    ensures var s := Run(c, r, Init(c), es);
            && s.load == Count(s.tasks, AnyInFlight)
            && s.byType == Recount(s)
            && (forall i :: 0 <= i < |s.tasks| ==>
                              (s.tasks[i].InFlight() <==> Get(s.active, s.tasks[i].id, |s.tasks|) == i))
            && (forall id :: id in s.active ==>
                               exists i :: 0 <= i < |s.tasks| && s.tasks[i].InFlight() && s.tasks[i].id == id)
            && CurrentState(c, s.load, s.byType, s.handlers)
            == CurrentState(c, Count(s.tasks, AnyInFlight), Recount(s), s.handlers)
            && (Count(s.tasks, AnyInFlight) == 0 ==>
                  s.load == 0 && s.active == map[] && forall t :: t in s.byType ==> s.byType[t] == 0)
  {
    var s := Run(c, r, Init(c), es);
    LoadRun(c, r, Init(c), es);
    NoneLost(c, r, Init(c), es);
    ActiveRun(c, r, Init(c), es);
    NoneLostOfType(s.tasks, "");
    forall t | t in s.byType ensures s.byType[t] == Count(s.tasks, InFlightAs(t)) <= Count(s.tasks, AnyInFlight) {
      TypeCountersRecount(c, r, es, t);
      NoneLostOfType(s.tasks, t);
    }
    forall i | 0 <= i < |s.tasks| ensures s.tasks[i].InFlight() ==> Count(s.tasks, AnyInFlight) > 0 {
      CountsMember(s.tasks, i, AnyInFlight);
    }
    forall id | id in s.active ensures s.tasks[s.active[id]].InFlight() && s.tasks[s.active[id]].id == id {
    }
  }

  lemma {:induction false} CountsMember(tasks: seq<Task>, i: nat, kind: Kind)
    requires i < |tasks|
    ensures Is(tasks[i], kind) ==> Count(tasks, kind) > 0
  {
    if i < |tasks| - 1 {
      CountsMember(tasks[..|tasks| - 1], i, kind);
    }
  }

  // ---------------------------------------------------------------------------
  // Limits per skill type
  // ---------------------------------------------------------------------------

  /** There is room for another task of this type. */
  ghost predicate Room(c: Conditions, s: State, t: string) {
    t in c.limits ==> Get(s.byType, t, 0) < c.limits[t]
  }

  ghost predicate LimitInv(c: Conditions, s: State) {
    && (forall t :: t in c.limits ==> Get(s.byType, t, 0) <= c.limits[t])
    && (s.poll.Awaiting? ==>
          forall n :: n in s.poll.offered ==> TypeOf(s.handlers, n).Some? && Room(c, s, TypeOf(s.handlers, n).value))
    && DistinctNames(s.handlers)
    && (forall i :: 0 <= i < |s.tasks| ==> s.tasks[i].counted.Some?)
  }

  lemma {:induction false} TypeOfMember(handlers: seq<Handler>, i: nat)
    requires i < |handlers|
    requires DistinctNames(handlers)
    ensures TypeOf(handlers, handlers[i].name) == Some(handlers[i].skillType)
  {
    if i > 0 {
      TypeOfMember(handlers[1..], i - 1);
    }
  }

  ghost predicate DistinctNames(handlers: seq<Handler>) {
    forall i, j :: 0 <= i < j < |handlers| ==> handlers[i].name != handlers[j].name
  }

  /** Registration replaces the entry of that name, or appends one if there is none. */
  lemma {:induction false} PutReplacesOrAppends(handlers: seq<Handler>, h: Handler) returns (k: nat)
    ensures k <= |handlers| && forall i :: 0 <= i < k ==> handlers[i].name != h.name
    ensures k < |handlers| ==> handlers[k].name == h.name && Put(handlers, h) == handlers[k := h]
    ensures k == |handlers| ==> Put(handlers, h) == handlers + [h]
  {
    if handlers == [] || handlers[0].name == h.name {
      k := 0;
    } else {
      var j := PutReplacesOrAppends(handlers[1..], h);
      k := j + 1;
      assert handlers == [handlers[0]] + handlers[1..];
      assert forall i :: 0 < i < k ==> handlers[i] == handlers[1..][i - 1];
    }
  }

  lemma LimitRegister(c: Conditions, r: Rules, s: State, h: Handler)
    requires LimitInv(c, s) && r.honest && Allowed(r, s, Register(h))
    ensures LimitInv(c, Apply(c, s, Register(h)))
  {
    var k := PutReplacesOrAppends(s.handlers, h);
    assert DistinctNames(Put(s.handlers, h));
    if s.poll.Awaiting? {
      forall n | n in s.poll.offered ensures TypeOf(Put(s.handlers, h), n) == TypeOf(s.handlers, n) {
        TypeOfPut(s.handlers, h, n);
      }
    }
  }

  lemma LimitBegin(c: Conditions, s: State, client: Transport, blocked: set<string>)
    requires LimitInv(c, s) && Enabled(c, s, BeginPoll(client, blocked))
    ensures LimitInv(c, Apply(c, s, BeginPoll(client, blocked)))
  {
    var available := CurrentState(c.(blocked := blocked), s.load, s.byType, s.handlers).available;
    TiersAreNested(c.(blocked := blocked), s.load, s.byType, s.handlers);
    forall n | n in Names(available) ensures TypeOf(s.handlers, n).Some? && Room(c, s, TypeOf(s.handlers, n).value) {
      var k :| 0 <= k < |available| && available[k].name == n;
      assert available[k] in available;
      var i :| 0 <= i < |s.handlers| && s.handlers[i] == available[k];
      TypeOfMember(s.handlers, i);
    }
  }

  lemma LimitStep(c: Conditions, r: Rules, s: State, e: Event)
    requires LimitInv(c, s) && Enabled(c, s, e) && r.honest && Allowed(r, s, e)
    ensures LimitInv(c, Apply(c, s, e))
  {
    match e
    case Register(h) => LimitRegister(c, r, s, h);
    case BeginPoll(client, blocked) => LimitBegin(c, s, client, blocked);
    case PollTask(_, _) =>
    case Close(_) =>
    case _ =>
  }

  lemma {:induction false} LimitRun(c: Conditions, r: Rules, s: State, es: seq<Event>)
    requires LimitInv(c, s) && r.honest && Legal(c, r, s, es)
    ensures LimitInv(c, Run(c, r, s, es))
    decreases |es|
  {
    if es != [] {
      LimitStep(c, r, s, es[0]);
      LimitRun(c, r, Apply(c, s, es[0]), es[1..]);
    }
  }

  /**
   * Per-type safety, dropped tasks included: if replies stay within what the poll offered, and
   * registrations retype neither what is offered nor the skill of a task that has not started, no
   * type ever has more tasks in flight than its limit, although the offer is made before the await
   * and counted after it.
   */
  lemma TypeLimitsHold(c: Conditions, r: Rules, es: seq<Event>, t: string)
    requires r.honest && r.quiet && Legal(c, r, Init(c), es) && t in c.limits
    ensures var s := Run(c, r, Init(c), es);
            Count(s.tasks, InFlightAs(t)) <= Get(s.byType, t, 0) <= c.limits[t]
  {
    LimitRun(c, r, Init(c), es);
    TypeCountersRecount(c, r, es, t);
  }

  // ---------------------------------------------------------------------------
  // Conservation of work
  // ---------------------------------------------------------------------------

  /** No way through the try reaches the finally clause without a result; this is the result of each. */
  lemma EveryExitHasAResult(known: bool, inputValid: bool, body: Body)
    ensures var result := Conclude(known, Precheck(known, inputValid), body);
            && result.Some?
            && (!known ==> result.value == Verdict(Failure, Some(Permanent)))
            && (known && !inputValid ==> result.value == Verdict(Failure, Some(InvalidInput)))
            && (known && inputValid ==>
                  && (body.Returned? && body.violatesSchema ==>
                        result.value == Verdict(Failure, Some(ContractViolation)))
                  && (body.Returned? && !body.violatesSchema ==>
                        && result.value.code == body.error
                        && result.value.status == if body.status.Some? then body.status.value else Success)
                  && (body.ParamsRejected? ==> result.value == Verdict(Failure, Some(InvalidInput)))
                  && (body.WasCancelled? ==> result.value == Verdict(Cancelled, None))
                  && (body.RaisedValueError? ==> result.value == Verdict(Failure, Some(IntegrityMismatch)))
                  && (body.RaisedOther? ==> result.value == Verdict(Failure, Some(Transient))))
  {
  }

  /** Every task that has been through the try has a result. */
  ghost predicate Concluded(tasks: seq<Task>) {
    forall i :: 0 <= i < |tasks| && (tasks[i].phase.Closing? || tasks[i].phase.Released?) ==>
                  tasks[i].phase.result.Some?
  }

  lemma ConcludedStep(c: Conditions, s: State, e: Event)
    requires Concluded(s.tasks) && Enabled(c, s, e)
    ensures Concluded(Apply(c, s, e).tasks)
  {
    if Target(e).Some? {
      var t := s.tasks[Target(e).value];
      assert t.phase.Closing? ==> t.phase.result.Some?;
    }
  }

  /** The results handed over are those of the released tasks, one each, addressed to their own clients. */
  ghost predicate ConservedInv(s: State) {
    Concluded(s.tasks) && Matches(s.HandedOver(), s.tasks)
  }

  ghost predicate Matches(out: seq<Delivery>, tasks: seq<Task>) {
    && |out| == Count(tasks, AnyReleased)
    && (forall k :: 0 <= k < |out| ==>
                      && out[k].task < |tasks|
                      && tasks[out[k].task].phase.Released? && tasks[out[k].task].phase.result.Some?
                      && out[k].verdict == tasks[out[k].task].phase.result.value
                      && out[k].client == tasks[out[k].task].client
                      && out[k].taskId == tasks[out[k].task].id)
    && (forall j, k :: 0 <= j < k < |out| ==> out[j].task != out[k].task)
    && (forall i :: 0 <= i < |tasks| && tasks[i].phase.Released? ==> Carries(out, i))
  }

  /** The order of hand-over is never disturbed: a step leaves the list alone or appends one result. */
  lemma HandOverOrder(c: Conditions, s: State, e: Event)
    requires Enabled(c, s, e)
    ensures Apply(c, s, e).HandedOver() ==
            s.HandedOver() + if e.Close? then Handed(s.tasks[e.i], e.i) else []
    ensures e.Close? && Concluded(s.tasks) ==>
              var t := s.tasks[e.i];
              Handed(t, e.i) == [Delivery(e.i, t.client, t.id, t.phase.result.value)]
  {
    if e.Fetch? {
      FetchKeepsOrder(s.finished, s.queue);
    } else if e.Uploaded? {
      UploadKeepsOrder(s.finished, s.sending.value, s.queue);
    } else if e.Close? {
      var earlier := s.finished + (if s.sending.Some? then [s.sending.value] else []);
      CloseAppends(earlier, s.queue, Handed(s.tasks[e.i], e.i));
    } else {
      assert Apply(c, s, e).HandedOver() == s.HandedOver();
    }
  }

  lemma FetchKeepsOrder(finished: seq<Delivery>, queue: seq<Delivery>)
    requires queue != []
    ensures finished + [queue[0]] + queue[1..] == finished + [] + queue
  {
  }

  lemma UploadKeepsOrder(finished: seq<Delivery>, sent: Delivery, queue: seq<Delivery>)
    ensures (finished + [sent]) + [] + queue == finished + [sent] + queue
  {
  }

  lemma CloseAppends(earlier: seq<Delivery>, queue: seq<Delivery>, handed: seq<Delivery>)
    ensures earlier + (queue + handed) == (earlier + queue) + handed
  {
  }

  ghost predicate Carries(out: seq<Delivery>, i: nat) {
    exists k :: 0 <= k < |out| && out[k].task == i
  }

  /** One more task is released and hands over its result. */
  lemma MatchesAppended(out: seq<Delivery>, tasks: seq<Task>, i: nat, k: Task)
    requires Matches(out, tasks) && i < |tasks| && !tasks[i].phase.Released?
    requires k.phase.Released? && k.phase.result.Some?
    requires Count(tasks[i := k], AnyReleased) == Count(tasks, AnyReleased) + 1
    ensures Matches(out + [DeliveryOf(k, i)], tasks[i := k])
  {
    hide Count;
    var after := out + [DeliveryOf(k, i)];
    assert after[|out|].task == i;
    forall j | 0 <= j < |tasks| && tasks[j].phase.Released? ensures Carries(after, j) {
      assert Carries(out, j);
      var n :| 0 <= n < |out| && out[n].task == j;
      assert after[n].task == j;
    }
  }

  /** The same tasks are released as before. */
  ghost predicate SameReleased(before: seq<Task>, after: seq<Task>) {
    && |before| <= |after|
    && (forall i :: 0 <= i < |before| && before[i].phase.Released? ==> after[i] == before[i])
    && (forall i :: 0 <= i < |after| && after[i].phase.Released? ==> i < |before| && before[i].phase.Released?)
  }

  lemma MatchesKept(out: seq<Delivery>, before: seq<Task>, after: seq<Task>)
    requires Matches(out, before) && SameReleased(before, after)
    requires Count(after, AnyReleased) == Count(before, AnyReleased)
    ensures Matches(out, after)
  {
    hide Count, Carries;
  }

  lemma OnlyCloseReleases(c: Conditions, s: State, e: Event)
    requires Enabled(c, s, e) && !e.Close?
    ensures SameReleased(s.tasks, Apply(c, s, e).tasks)
    ensures Count(Apply(c, s, e).tasks, AnyReleased) == Count(s.tasks, AnyReleased)
  {
    CountStep(c, s, e, AnyReleased);
    hide Count;
  }

  lemma ConservedStep(c: Conditions, s: State, e: Event)
    requires ConservedInv(s) && Enabled(c, s, e)
    ensures ConservedInv(Apply(c, s, e))
  {
    var after := Apply(c, s, e);
    HandOverOrder(c, s, e);
    ConcludedStep(c, s, e);
    if e.Close? {
      CountStep(c, s, e, AnyReleased);
      MatchesAppended(s.HandedOver(), s.tasks, e.i, after.tasks[e.i]);
    } else {
      OnlyCloseReleases(c, s, e);
      hide Apply, Matches, SameReleased, Count;
      assert s.HandedOver() + [] == s.HandedOver();
      MatchesKept(s.HandedOver(), s.tasks, after.tasks);
    }
  }

  lemma {:induction false} ConservedRun(c: Conditions, r: Rules, s: State, es: seq<Event>)
    requires ConservedInv(s) && Legal(c, r, s, es)
    ensures ConservedInv(Run(c, r, s, es))
    ensures s.HandedOver() <= Run(c, r, s, es).HandedOver()
    decreases |es|
  {
    if es != [] {
      ConservedStep(c, s, es[0]);
      HandOverOrder(c, s, es[0]);
      ConservedRun(c, r, Apply(c, s, es[0]), es[1..]);
    }
  }

  // ---------------------------------------------------------------------------
  // From the poll to the delivery
  // ---------------------------------------------------------------------------

  /** What a task is, whatever becomes of it. */
  ghost predicate SameTask(a: Task, b: Task) {
    a.id == b.id && a.client == b.client && a.skill == b.skill && a.counted == b.counted
  }

  /** The result that stood when the task left the try stands from then on. */
  ghost predicate KeepsResult(a: Task, b: Task) {
    && (a.phase.Closing? || a.phase.Released? ==>
          b.phase.Lost? || ((b.phase.Closing? || b.phase.Released?) && b.phase.result == a.phase.result))
    && (a.phase.Lost? ==> b.phase.Lost?)
  }

  lemma {:induction false} TasksKeepRun(c: Conditions, r: Rules, s: State, es: seq<Event>, i: nat)
    requires i < |s.tasks| && Legal(c, r, s, es)
    ensures i < |Run(c, r, s, es).tasks|
    ensures SameTask(s.tasks[i], Run(c, r, s, es).tasks[i]) && KeepsResult(s.tasks[i], Run(c, r, s, es).tasks[i])
    decreases |es|
  {
    if es != [] {
      TasksKeepStep(c, s, es[0], i);
      TasksKeepRun(c, r, Apply(c, s, es[0]), es[1..], i);
    }
  }

  lemma TasksKeepStep(c: Conditions, s: State, e: Event, i: nat)
    requires i < |s.tasks| && Enabled(c, s, e)
    ensures i < |Apply(c, s, e).tasks|
    ensures SameTask(s.tasks[i], Apply(c, s, e).tasks[i]) && KeepsResult(s.tasks[i], Apply(c, s, e).tasks[i])
  {
  }

  /**
   * A reply with a task: whatever happens afterwards, if the task gives back its slot then its
   * result has been handed over under the id of the reply, to the client that was polled.
   */
  lemma ResultGoesBackToTheSender(
    c: Conditions, r: Rules, before: seq<Event>, client: Transport, offered: seq<string>,
    id: string, skill: string, es: seq<Event>)
    requires Legal(c, r, Init(c), before) && Run(c, r, Init(c), before).poll == Awaiting(client, offered)
    requires Legal(c, r, Apply(c, Run(c, r, Init(c), before), PollTask(id, skill)), es)
    ensures var s := Run(c, r, Init(c), before);
            var n, later := |s.tasks|, Run(c, r, Apply(c, s, PollTask(id, skill)), es);
            && n < |later.tasks| && later.tasks[n].id == id && later.tasks[n].client == client
            && later.tasks[n].skill == skill
            && (later.tasks[n].phase.Released? ==>
                  later.tasks[n].phase.result.Some?
                  && Delivery(n, client, id, later.tasks[n].phase.result.value) in later.HandedOver())
  {
    var s := Run(c, r, Init(c), before);
    var n, admitted := |s.tasks|, Apply(c, s, PollTask(id, skill));
    ConservedRun(c, r, Init(c), before);
    ConservedStep(c, s, PollTask(id, skill));
    ConservedRun(c, r, admitted, es);
    assert admitted.tasks[n] == Task(id, client, skill, TypeOf(s.handlers, skill), Created);
    TasksKeepRun(c, r, admitted, es, n);
    var later := Run(c, r, admitted, es);
    hide Run, Legal, Apply;
    if later.tasks[n].phase.Released? {
      var out := later.HandedOver();
      assert Carries(out, n);
      var k :| 0 <= k < |out| && out[k].task == n;
      assert out[k] == Delivery(n, client, id, later.tasks[n].phase.result.value);
    }
  }

  /** The verdict is that of the way the task took through the try, from there to the delivery. */
  lemma VerdictIsOfTheExit(c: Conditions, r: Rules, s: State, i: nat, body: Body, es: seq<Event>)
    requires ConservedInv(s) && Enabled(c, s, Finish(i, body))
    requires Legal(c, r, Apply(c, s, Finish(i, body)), es)
    ensures var t, later := s.tasks[i], Run(c, r, Apply(c, s, Finish(i, body)), es);
            && i < |later.tasks|
            && (later.tasks[i].phase.Released? ==>
                  && var verdict := Conclude(t.phase.releaseType.Some?, t.phase.result, body);
                  && verdict.Some?
                  && Delivery(i, t.client, t.id, verdict.value) in later.HandedOver())
  {
    var t, finished := s.tasks[i], Apply(c, s, Finish(i, body));
    ConservedStep(c, s, Finish(i, body));
    ConservedRun(c, r, finished, es);
    TasksKeepRun(c, r, finished, es, i);
    assert SameTask(t, finished.tasks[i]);
    var later := Run(c, r, finished, es);
    assert finished.tasks[i].phase.result == Conclude(t.phase.releaseType.Some?, t.phase.result, body);
    hide Run, Legal, Apply, Conclude;
    if later.tasks[i].phase.Released? {
      var out := later.HandedOver();
      assert Carries(out, i);
      var k :| 0 <= k < |out| && out[k].task == i;
      assert out[k] == Delivery(i, t.client, t.id, later.tasks[i].phase.result.value);
    }
  }

  lemma {:induction false} Partition(tasks: seq<Task>)
    ensures |tasks| == Count(tasks, AnyInFlight) + Count(tasks, AnyLost) + Count(tasks, AnyReleased)
  {
    if tasks != [] {
      Partition(tasks[..|tasks| - 1]);
    }
  }

  /**
   * Conservation: every admitted task is in flight, lost, or has handed over exactly one result,
   * which waits in the queue, is being sent, or is finished; without drops nothing is lost. Each
   * result is the task's own and goes to the client that the task came from.
   */
  lemma WorkIsConserved(c: Conditions, r: Rules, es: seq<Event>)
    requires Legal(c, r, Init(c), es)
    ensures var s := Run(c, r, Init(c), es);
            && ConservedInv(s)
            && |s.tasks| == Count(s.tasks, AnyInFlight) + Count(s.tasks, AnyLost)
                            + |s.queue| + (if s.sending.Some? then 1 else 0) + |s.finished|
            && (r.noDrops ==> Count(s.tasks, AnyLost) == 0)
  {
    var s := Run(c, r, Init(c), es);
    ConservedRun(c, r, Init(c), es);
    Partition(s.tasks);
    if r.noDrops {
      NoneLost(c, r, Init(c), es);
    }
  }
}
