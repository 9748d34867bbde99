/**
 * The worker's bookkeeping as the code performs it: counters, tables and queue are fields updated
 * in place, one method per stretch of code between two awaits. Each method takes exactly one step
 * of the transition system, and no dictionary update can meet a missing key.
 */
module WorkerLoad {
  import opened Prelude
  import opened SkillState
  import opened TaskAdmission

  lemma {:induction false} TypeOfIsRegistered(handlers: seq<Handler>, name: string)
    ensures TypeOf(handlers, name).Some? ==> exists h :: h in handlers && Some(h.skillType) == TypeOf(handlers, name)
  {
    if handlers != [] {
      if handlers[0].name == name {
        assert handlers[0] in handlers;
      } else {
        TypeOfIsRegistered(handlers[1..], name);
      }
    }
  }

  /** No limit and no capacity check stands against this skill. */
  predicate Startable(c: Conditions, byType: map<string, int>, h: Handler) {
    && h.name !in c.blocked
    && (h.skillType in c.limits && h.skillType in byType ==> byType[h.skillType] < c.limits[h.skillType])
    && (h.skillType in c.limits && h.skillType !in byType ==> 0 < c.limits[h.skillType])
  }

  lemma NamesAre(handlers: seq<Handler>)
    ensures forall n :: n in Names(handlers) <==> exists h :: h in handlers && h.name == n
  {
    forall h | h in handlers ensures h.name in Names(handlers) {
      var k :| 0 <= k < |handlers| && handlers[k] == h;
      assert Names(handlers)[k] == h.name;
    }
  }

  /** The worker is idle exactly if it has room and some skill can be started; those it offers are all that can. */
  lemma Offer(c: Conditions, load: int, byType: map<string, int>, handlers: seq<Handler>)
    ensures var r := CurrentState(c, load, byType, handlers);
            && (r.status == Idle <==> load < c.maxConcurrent && exists h :: h in handlers && Startable(c, byType, h))
            && (r.status == Idle ==>
                  forall n :: n in Names(r.available) <==>
                                exists h :: h in handlers && Startable(c, byType, h) && h.name == n)
  {
    TiersAreNested(c, load, byType, handlers);
    var r := CurrentState(c, load, byType, handlers);
    hide CurrentState, Names;
    NamesAre(r.available);
    if load < c.maxConcurrent {
      assert forall h :: h in r.available <==> h in handlers && Startable(c, byType, h);
    }
    assert r.available != [] ==> r.available[0] in r.available;
  }

  class Worker {
    const config: Conditions
    var skillHandlers: seq<Handler>
    var currentLoad: int
    var currentLoadByType: map<string, int>
    var activeTasks: map<string, nat>
    var tasks: seq<Task>
    var poll: Poll
    var resultQueue: seq<Delivery>
    var sending: Option<Delivery>
    var finished: seq<Delivery>

    function View(): State
      reads this
    {
      State(skillHandlers, currentLoad, currentLoadByType, activeTasks, tasks, poll, resultQueue, sending, finished)
    }

    /** Every type that can be counted or released has its counter. */
    ghost predicate Valid()
      reads this
    {
      && (forall h :: h in skillHandlers ==> h.skillType in currentLoadByType)
      && (forall i :: 0 <= i < |tasks| && tasks[i].phase.Running? && tasks[i].phase.releaseType.Some? ==>
                        tasks[i].phase.releaseType.value in currentLoadByType)
      && (forall i :: 0 <= i < |tasks| && tasks[i].phase.Closing? && tasks[i].phase.releaseType.Some? ==>
                        tasks[i].phase.releaseType.value in currentLoadByType)
    }

    constructor (config: Conditions)
      ensures Valid() && this.config == config && View() == Init(config)
    {
      this.config := config;
      skillHandlers, currentLoad, currentLoadByType := [], 0, map t | t in config.limits :: 0;
      activeTasks, tasks, poll := map[], [], Resting;
      resultQueue, sending, finished := [], None, [];
    }

    method RegisterSkillHandler(h: Handler)
      requires Valid()
      modifies this
      ensures Valid() && View() == Apply(config, old(View()), Register(h))
      ensures h in skillHandlers
      ensures currentLoadByType ==
              if h.skillType in old(currentLoadByType) then old(currentLoadByType)
              else old(currentLoadByType)[h.skillType := 0]
    {
      if h.skillType !in currentLoadByType {
        currentLoadByType := currentLoadByType[h.skillType := 0];
      }
      ghost var at := PutReplacesOrAppends(skillHandlers, h);
      skillHandlers := Put(skillHandlers, h);
      assert skillHandlers[at] == h;
    }

    /** A poll up to its await: the names to offer, or None when the worker is busy or full. */
    method BeginPoll(client: Transport, blocked: set<string>) returns (offered: Option<seq<string>>)
      requires Valid() && poll.Resting?
      modifies this`poll
      ensures Valid()
      ensures offered.Some? <==> Enabled(config, old(View()), Event.BeginPoll(client, blocked))
      ensures offered.Some? ==>
                && View() == Apply(config, old(View()), Event.BeginPoll(client, blocked))
                && poll == Awaiting(client, offered.value)
      ensures offered.None? ==> View() == old(View())
      ensures var c := config.(blocked := blocked);
              && (offered.Some? <==>
                    currentLoad < config.maxConcurrent
                    && exists h :: h in skillHandlers && Startable(c, currentLoadByType, h))
              && (offered.Some? ==>
                    forall n :: n in offered.value <==>
                                  exists h :: h in skillHandlers && Startable(c, currentLoadByType, h) && h.name == n)
    {
      var r := GetCurrentState(config.(blocked := blocked), currentLoad, currentLoadByType, skillHandlers);
      Offer(config.(blocked := blocked), currentLoad, currentLoadByType, skillHandlers);
      hide CurrentState, Startable;
      if r.status == Busy || r.status == Full {
        return None;
      }
      var names := [];
      for k := 0 to |r.available|
        invariant names == Names(r.available)[..k]
      {
        names := names + [r.available[k].name];
      }
      assert names == Names(r.available);
      poll := Awaiting(client, names);
      offered := Some(names);
    }

    /** The rest of a poll once the orchestrator has answered, with a task or without one. */
    method EndPoll(reply: Option<(string, string)>) returns (found: bool)
      requires Valid() && poll.Awaiting?
      modifies this
      ensures Valid() && (found <==> reply.Some?)
      ensures View() == Apply(config, old(View()),
                              if reply.Some? then PollTask(reply.value.0, reply.value.1) else PollNothing)
      ensures poll == Resting && skillHandlers == old(skillHandlers)
      ensures reply.None? ==>
                currentLoad == old(currentLoad) && currentLoadByType == old(currentLoadByType)
                && activeTasks == old(activeTasks) && tasks == old(tasks)
      ensures reply.Some? ==>
                var (id, skill) := reply.value;
                var typ := TypeOf(skillHandlers, skill);
                && currentLoad == old(currentLoad) + 1
                && activeTasks == old(activeTasks)[id := old(|tasks|)]
                && tasks == old(tasks) + [Task(id, old(poll).client, skill, typ, Created)]
                && (typ.None? ==> currentLoadByType == old(currentLoadByType))
                && (typ.Some? ==>
                      && typ.value in old(currentLoadByType)
                      && currentLoadByType ==
                         old(currentLoadByType)[typ.value := old(currentLoadByType)[typ.value] + 1])
    {
      hide Conclude, Put, Names, CurrentState, Precheck, DeliveryOf, Handed;
      found := false;
      if reply.Some? {
        var (id, skill) := reply.value;
        currentLoad := currentLoad + 1;
        var typ := TypeOf(skillHandlers, skill);
        if typ.Some? {
          TypeOfIsRegistered(skillHandlers, skill);
          currentLoadByType := currentLoadByType[typ.value := currentLoadByType[typ.value] + 1];
        }
        activeTasks := activeTasks[id := |tasks|];
        tasks := tasks + [Task(id, poll.client, skill, typ, Created)];
        found := true;
      }
      poll := Resting;
    }

    /** A task passes its checks: the type it will release is looked up a second time, its input validated. */
    method EnterTask(i: nat, inputValid: bool)
      requires Valid() && Enabled(config, View(), Start(i, inputValid))
      modifies this`tasks
      ensures Valid() && View() == Apply(config, old(View()), Start(i, inputValid))
      ensures var typ := TypeOf(skillHandlers, old(tasks[i]).skill);
              var rejected := Some(Verdict(Failure, Some(InvalidInput)));
              tasks[i].phase == Running(typ, if typ.Some? && !inputValid then rejected else None)
    {
      TypeOfIsRegistered(skillHandlers, tasks[i].skill);
      var releaseType := TypeOf(skillHandlers, tasks[i].skill);
      var resultObj := None;
      if releaseType.Some? {
        if !inputValid {
          resultObj := Some(Verdict(Failure, Some(InvalidInput)));
        }
      }
      tasks := tasks[i := tasks[i].(phase := Running(releaseType, resultObj))];
    }

    /** The try statement comes to an end on one of its paths, none of which leaves the task without a result. */
    method ConcludeTask(i: nat, body: Body)
      requires Valid() && Enabled(config, View(), Finish(i, body))
      modifies this`tasks
      ensures Valid() && View() == Apply(config, old(View()), Finish(i, body))
      ensures tasks[i].phase.Closing? && tasks[i].phase.result.Some?
      ensures var before, result := old(tasks[i]).phase, tasks[i].phase.result.value;
              if before.result.Some? then result == before.result.value
              else if before.releaseType.None? then result == Verdict(Failure, Some(Permanent))
              else match body
                case Returned(_, true, _) => result == Verdict(Failure, Some(ContractViolation))
                case Returned(Some(own), false, error) => result == Verdict(own, error)
                case Returned(None, false, error) => result == Verdict(Success, error)
                case ParamsRejected => result == Verdict(Failure, Some(InvalidInput))
                case WasCancelled => result == Verdict(Cancelled, None)
                case RaisedValueError => result == Verdict(Failure, Some(IntegrityMismatch))
                case RaisedOther => result == Verdict(Failure, Some(Transient))
    {
      var releaseType, resultObj := tasks[i].phase.releaseType, tasks[i].phase.result;
      if resultObj.Some? {
      } else if releaseType.None? {
        resultObj := Some(Verdict(Failure, Some(Permanent)));
      } else {
        match body {
          case Returned(status, violatesSchema, error) =>
            var outStatus, outError := status, error;
            if violatesSchema {
              outStatus, outError := Some(Failure), Some(ContractViolation);
            }
            resultObj := Some(Verdict(if outStatus.Some? then outStatus.value else Success, outError));
          case ParamsRejected => resultObj := Some(Verdict(Failure, Some(InvalidInput)));
          case WasCancelled => resultObj := Some(Verdict(Cancelled, None));
          case RaisedValueError => resultObj := Some(Verdict(Failure, Some(IntegrityMismatch)));
          case RaisedOther => resultObj := Some(Verdict(Failure, Some(Transient)));
        }
      }
      tasks := tasks[i := tasks[i].(phase := Closing(releaseType, resultObj))];
    }

    /** The finally clause after the cleanup: hand over the result if there is one, then give back the slot. */
    method CloseTask(i: nat)
      requires Valid() && Enabled(config, View(), Close(i))
      modifies this
      ensures Valid() && View() == Apply(config, old(View()), Close(i))
      ensures var t, before := old(tasks[i]), old(currentLoadByType);
              && resultQueue == old(resultQueue) + (if t.phase.result.None? then []
                                                    else [Delivery(i, t.client, t.id, t.phase.result.value)])
              && currentLoad == old(currentLoad) - 1 && activeTasks == old(activeTasks) - {t.id}
              && currentLoadByType ==
                 if t.phase.releaseType.None? then before
                 else before[t.phase.releaseType.value := before[t.phase.releaseType.value] - 1]
    {
      hide TypeOf, Conclude, Put, Names, CurrentState, Precheck;
      var t := tasks[i];
      if t.phase.result.Some? {
        resultQueue := resultQueue + [Delivery(i, t.client, t.id, t.phase.result.value)];
      }
      assert resultQueue == old(resultQueue) + Handed(t, i);
      activeTasks := activeTasks - {t.id};
      currentLoad := currentLoad - 1;
      if t.phase.releaseType.Some? {
        var typ := t.phase.releaseType.value;
        currentLoadByType := currentLoadByType[typ := currentLoadByType[typ] - 1];
      }
      tasks := tasks[i := t.(phase := Released(t.phase.releaseType, t.phase.result))];
    }

    /** A task ends on a path that skips all of this. */
    method DropTask(i: nat)
      requires Valid() && Enabled(config, View(), Drop(i))
      modifies this`tasks
      ensures Valid() && View() == Apply(config, old(View()), Drop(i))
    {
      tasks := tasks[i := tasks[i].(phase := Lost)];
    }

    method FetchResult()
      requires Valid() && Enabled(config, View(), Fetch)
      modifies this`resultQueue, this`sending
      ensures Valid() && View() == Apply(config, old(View()), Fetch)
      ensures old(resultQueue) == [sending.value] + resultQueue
    {
      sending := Some(resultQueue[0]);
      resultQueue := resultQueue[1..];
    }

    method ResultDone()
      requires Valid() && Enabled(config, View(), Uploaded)
      modifies this`sending, this`finished
      ensures Valid() && View() == Apply(config, old(View()), Uploaded)
      ensures finished == old(finished) + [old(sending).value] && sending == None
    {
      finished := finished + [sending.value];
      sending := None;
    }
  }
}
