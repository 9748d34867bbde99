/**
 * Heartbeat telemetry with a deadband: a heartbeat carries the resource usage only if it moved
 * far enough from the usage that was last sent, or if that one is too old.
 */
module Telemetry {
  import opened Prelude

  datatype Device = Device(unitId: string, load: real, metrics: Option<map<string, real>>) {
    function Vram(): real {
      if metrics.Some? then Get(metrics.value, "memory_used_gb", 0.0) else 0.0
    }
  }

  datatype Usage = Usage(cpu: real, ram: real, devices: Option<seq<Device>>) {
    function Devices(): seq<Device> {
      if devices.Some? then devices.value else []
    }
  }

  datatype Settings = Settings(deadband: real, forceInterval: real)

  function Abs(x: real): real {
    if x < 0.0 then -x else x
  }

  // ---------------------------------------------------------------------------
  // What "close to the truth" means, without reference to the code's lookups
  // ---------------------------------------------------------------------------

  ghost predicate Within(current: real, last: real, deadband: real) {
    last - deadband <= current <= last + deadband
  }

  /** Within deadband percent of the last value; a last value of zero means none is in use now. */
  ghost predicate WithinPercent(current: real, last: real, deadband: real) {
    && (last > 0.0 ==> -(deadband * last) <= 100.0 * (current - last) <= deadband * last)
    && (last == 0.0 ==> current <= 0.0)
  }

  /** Loads within the deadband, and the memory in use, 0 where it is not given, within the relative one. */
  ghost predicate DeviceNear(c: Device, l: Device, deadband: real) {
    && Within(c.load, l.load, deadband)
    && WithinPercent(
         if c.metrics.Some? && "memory_used_gb" in c.metrics.value then c.metrics.value["memory_used_gb"] else 0.0,
         if l.metrics.Some? && "memory_used_gb" in l.metrics.value then l.metrics.value["memory_used_gb"] else 0.0,
         deadband)
  }

  ghost function Ids(s: seq<Device>): set<string> {
    set d | d in s :: d.unitId
  }

  /** The same device ids, and every device close to the one of the same id. */
  ghost predicate Near(current: Usage, last: Usage, deadband: real) {
    && Within(current.cpu, last.cpu, deadband)
    && WithinPercent(current.ram, last.ram, deadband)
    && var cs := if current.devices.Some? then current.devices.value else [];
    && var ls := if last.devices.Some? then last.devices.value else [];
    && Ids(cs) == Ids(ls)
    && (forall c, l :: c in cs && l in ls && c.unitId == l.unitId ==> DeviceNear(c, l, deadband))
  }

  ghost predicate Unique(s: seq<Device>) {
    forall i, j :: 0 <= i < j < |s| ==> s[i].unitId != s[j].unitId
  }

  ghost predicate DistinctIds(u: Usage) {
    Unique(u.Devices())
  }

  // ---------------------------------------------------------------------------
  // The test as the code performs it
  // ---------------------------------------------------------------------------

  predicate Moved(current: real, last: real, deadband: real) {
    Abs(current - last) > deadband
  }

  predicate MovedPercent(current: real, last: real, deadband: real) {
    if last == 0.0 && current > 0.0 then true
    else last > 0.0 && Abs(current - last) / last > deadband / 100.0
  }

  /** The first device of the list with this id. */
  function Lookup(s: seq<Device>, id: string): (r: Option<Device>)
    ensures r.Some? ==> r.value in s && r.value.unitId == id
    ensures r.None? ==> forall d :: d in s ==> d.unitId != id
  {
    if s == [] then None else if s[0].unitId == id then Some(s[0]) else Lookup(s[1..], id)
  }

  predicate DeviceMoved(c: Device, last: seq<Device>, deadband: real) {
    var l := Lookup(last, c.unitId);
    l.None? || Moved(c.load, l.value.load, deadband) || MovedPercent(c.Vram(), l.value.Vram(), deadband)
  }

  ghost predicate Changed(current: Usage, last: Usage, deadband: real) {
    || Moved(current.cpu, last.cpu, deadband)
    || MovedPercent(current.ram, last.ram, deadband)
    || |current.Devices()| != |last.Devices()|
    || exists c :: c in current.Devices() && DeviceMoved(c, last.Devices(), deadband)
  }

  lemma ProductPositive(a: real, b: real)
    requires b > 0.0
    ensures a > 0.0 <==> a * b > 0.0
  {
  }

  lemma QuotientExceeds(diff: real, last: real, deadband: real)
    requires last > 0.0
    ensures diff / last > deadband / 100.0 <==> 100.0 * diff > deadband * last
  {
    var q, d := diff / last, deadband / 100.0;
    assert q * last == diff;
    ProductPositive(q - d, last);
    assert (q - d) * last == diff - d * last;
    assert 100.0 * (d * last) == deadband * last;
  }

  lemma PercentAgrees(current: real, last: real, deadband: real)
    ensures MovedPercent(current, last, deadband) <==> !WithinPercent(current, last, deadband)
  {
    if last > 0.0 {
      QuotientExceeds(Abs(current - last), last, deadband);
      assert 100.0 * Abs(current - last) <= deadband * last <==>
             -(deadband * last) <= 100.0 * (current - last) <= deadband * last;
    }
  }

  lemma IdsGrow(s: seq<Device>)
    requires s != []
    ensures Ids(s) == Ids(s[..|s| - 1]) + {s[|s| - 1].unitId}
    ensures Unique(s) ==> Unique(s[..|s| - 1]) && s[|s| - 1].unitId !in Ids(s[..|s| - 1])
  {
    assert s == s[..|s| - 1] + [s[|s| - 1]];
  }

  lemma {:induction false} IdsAtMost(s: seq<Device>)
    ensures |Ids(s)| <= |s|
    ensures Unique(s) ==> |Ids(s)| == |s|
  {
    if s == [] {
      assert Ids(s) == {};
    } else {
      IdsGrow(s);
      hide Ids, Unique;
      IdsAtMost(s[..|s| - 1]);
    }
  }

  lemma SubsetOfSameSize<T>(a: set<T>, b: set<T>)
    requires a <= b && |a| >= |b|
    ensures a == b
  {
    assert |b| == |a| + |b - a|;
    assert b - a == {};
  }

  /** Equal length and a one-way lookup notice removed devices too: a pigeonhole argument. */
  lemma SameDevices(current: Usage, last: Usage)
    requires DistinctIds(current)
    requires |current.Devices()| == |last.Devices()|
    requires forall c :: c in current.Devices() ==> Lookup(last.Devices(), c.unitId).Some?
    ensures Ids(current.Devices()) == Ids(last.Devices())
  {
    IdsAtMost(current.Devices());
    IdsAtMost(last.Devices());
    SubsetOfSameSize(Ids(current.Devices()), Ids(last.Devices()));
  }

  /**
   * For a reading with some id twice the argument fails: a last usage that had a device of another
   * id in place of the second passes the lookup.
   */
  lemma RenamedDevice(s: seq<Device>, i: nat, j: nat, other: Device) returns (last: seq<Device>)
    requires i < j < |s| && s[i].unitId == s[j].unitId && other.unitId !in Ids(s)
    ensures last == s[j := other] && Ids(s) != Ids(last)
    ensures forall c :: c in s ==> Lookup(last, c.unitId).Some?
  {
    last := s[j := other];
    assert other == last[j] && other in last;
    forall c | c in s ensures Lookup(last, c.unitId).Some? {
      var k :| 0 <= k < |s| && s[k] == c;
      var d := last[if k == j then i else k];
      assert d in last && d.unitId == c.unitId;
    }
  }

  /** Equal length and a one-way lookup imply equal id sets, for any last usage, exactly if the ids are distinct. */
  lemma LookupSufficesIff(s: seq<Device>, other: Device)
    requires other.unitId !in Ids(s)
    ensures Unique(s) <==>
            forall last: seq<Device> :: |last| == |s| && (forall c :: c in s ==> Lookup(last, c.unitId).Some?) ==>
                                          Ids(s) == Ids(last)
  {
    if Unique(s) {
      forall last: seq<Device> | |last| == |s| && (forall c :: c in s ==> Lookup(last, c.unitId).Some?)
        ensures Ids(s) == Ids(last)
      {
        SameDevices(Usage(0.0, 0.0, Some(s)), Usage(0.0, 0.0, Some(last)));
      }
    } else {
      var i, j :| 0 <= i < j < |s| && s[i].unitId == s[j].unitId;
      var last := RenamedDevice(s, i, j, other);
    }
  }

  /** So whenever a reading has a device twice, there is a usage whose other device it hides the removal of. */
  lemma DuplicateIdsHideARemoval(current: Usage, i: nat, j: nat, other: Device, deadband: real)
    requires deadband >= 0.0 && i < j < |current.Devices()| && other.unitId !in Ids(current.Devices())
    requires current.Devices()[i].unitId == current.Devices()[j].unitId
    requires forall a, b :: a in current.Devices() && b in current.Devices() && a.unitId == b.unitId ==> a == b
    ensures var last := current.(devices := Some(current.Devices()[j := other]));
            !Changed(current, last, deadband) && Ids(current.Devices()) != Ids(last.Devices())
  {
    var s := current.Devices();
    var devices := RenamedDevice(s, i, j, other);
    var last := current.(devices := Some(devices));
    forall c | c in s ensures !DeviceMoved(c, devices, deadband) {
      var l := Lookup(devices, c.unitId).value;
      assert l == other || l in s by {
        var k :| 0 <= k < |devices| && devices[k] == l;
        assert k != j ==> s[k] == l;
      }
      assert c.unitId in Ids(s);
      Still(c.load, deadband);
      Still(c.Vram(), deadband);
    }
    Still(current.cpu, deadband);
    Still(current.ram, deadband);
  }

  lemma Still(x: real, deadband: real)
    requires deadband >= 0.0
    ensures !Moved(x, x, deadband) && !MovedPercent(x, x, deadband)
  {
    PercentAgrees(x, x, deadband);
  }

  /** The percentage test compares with a distance of its own, that of the deadband if the last value is 100. */
  lemma PercentIsADistance(current: real, last: real, deadband: real, distance: real)
    requires current >= 0.0 && last >= 0.0 && distance * 100.0 == deadband * last
    ensures MovedPercent(current, last, deadband) <==> Moved(current, last, distance)
  {
    PercentAgrees(current, last, deadband);
    if last == 0.0 {
      assert distance == 0.0;
    }
  }

  lemma DistanceIs(last: real, deadband: real) returns (distance: real)
    requires last >= 0.0 && deadband > 0.0
    ensures distance * 100.0 == deadband * last
    ensures last < 100.0 <==> distance < deadband
    ensures last == 100.0 <==> distance == deadband
    ensures distance >= 0.0
  {
    distance := deadband * (last / 100.0);
    if last < 100.0 {
      assert deadband * (last / 100.0) < deadband * 1.0;
    } else if last > 100.0 {
      assert deadband * (last / 100.0) > deadband * 1.0;
    }
  }

  /**
   * The deadband of CPU and device load is in points, not in percent of the value: the two readings
   * agree on every current value exactly if the last one was 100, and below that the code is the
   * less sensitive.
   */
  lemma DeadbandIsInPoints(last: real, deadband: real)
    requires last >= 0.0 && deadband > 0.0
    ensures (forall current :: current >= 0.0 ==>
                                 (Moved(current, last, deadband) <==> MovedPercent(current, last, deadband)))
            <==> last == 100.0
    ensures last <= 100.0 ==>
              forall current ::
                current >= 0.0 && Moved(current, last, deadband) ==> MovedPercent(current, last, deadband)
    ensures !Moved(11.0, 10.0, 5.0) && MovedPercent(11.0, 10.0, 5.0)
  {
    PercentIsADistance(11.0, 10.0, 5.0, 0.5);
    var distance := DistanceIs(last, deadband);
    hide MovedPercent;
    forall current: real | current >= 0.0
      ensures MovedPercent(current, last, deadband) <==> Moved(current, last, distance)
    {
      PercentIsADistance(current, last, deadband, distance);
    }
    var between := last + (if last < 100.0 then deadband else distance);
    assert last != 100.0 ==> (Moved(between, last, deadband) <==> !Moved(between, last, distance));
    assert MovedPercent(between, last, deadband) <==> Moved(between, last, distance);
  }

  /** The code's test fires exactly when the new usage is not close to the last one sent. */
  lemma {:induction false} ChangedIffNotNear(current: Usage, last: Usage, deadband: real)
    requires DistinctIds(current) && DistinctIds(last)
    ensures Changed(current, last, deadband) <==> !Near(current, last, deadband)
  {
    if !Changed(current, last, deadband) {
      UnchangedIsNear(current, last, deadband);
    } else if Near(current, last, deadband) {
      NearIsUnchanged(current, last, deadband);
    }
  }

  lemma {:induction false} UnchangedIsNear(current: Usage, last: Usage, deadband: real)
    requires DistinctIds(current) && DistinctIds(last) && !Changed(current, last, deadband)
    ensures Near(current, last, deadband)
  {
    hide WithinPercent, MovedPercent;
    PercentAgrees(current.ram, last.ram, deadband);
    SameDevices(current, last);
    forall c, l | c in current.Devices() && l in last.Devices() && c.unitId == l.unitId
      ensures DeviceNear(c, l, deadband)
    {
      assert !DeviceMoved(c, last.Devices(), deadband);
      PercentAgrees(c.Vram(), l.Vram(), deadband);
    }
  }

  lemma {:induction false} NearIsUnchanged(current: Usage, last: Usage, deadband: real)
    requires DistinctIds(current) && DistinctIds(last) && Near(current, last, deadband)
    ensures !Changed(current, last, deadband)
  {
    hide WithinPercent, MovedPercent;
    PercentAgrees(current.ram, last.ram, deadband);
    IdsAtMost(current.Devices());
    IdsAtMost(last.Devices());
    forall c | c in current.Devices() ensures !DeviceMoved(c, last.Devices(), deadband) {
      assert c.unitId in Ids(last.Devices());
      var l := Lookup(last.Devices(), c.unitId);
      PercentAgrees(c.Vram(), l.value.Vram(), deadband);
      assert DeviceNear(c, l.value, deadband);
    }
  }

  /**
   * What is reported, on the bare readings: a CPU or device load that left the deadband, memory in
   * use, of the host or of a device, that left it in percent, a device that came or went.
   */
  lemma ReportedIff(current: Usage, last: Usage, cs: seq<Device>, ls: seq<Device>, deadband: real)
    requires current.devices == Some(cs) && last.devices == Some(ls) && Unique(cs) && Unique(ls)
    ensures Changed(current, last, deadband) <==>
            || !(-deadband <= current.cpu - last.cpu <= deadband)
            || (last.ram == 0.0 && current.ram > 0.0)
            || (last.ram > 0.0 && !(-(deadband * last.ram) <= 100.0 * (current.ram - last.ram) <= deadband * last.ram))
            || (exists c :: c in cs && forall l :: l in ls ==> l.unitId != c.unitId)
            || (exists l :: l in ls && forall c :: c in cs ==> c.unitId != l.unitId)
            || exists c, l :: c in cs && l in ls && c.unitId == l.unitId && !DeviceNear(c, l, deadband)
  {
    ChangedIffNotNear(current, last, deadband);
    if Ids(cs) != Ids(ls) {
      var id :| (id in Ids(cs) && id !in Ids(ls)) || (id in Ids(ls) && id !in Ids(cs));
      if id in Ids(cs) {
        var c :| c in cs && c.unitId == id;
      } else {
        var l :| l in ls && l.unitId == id;
      }
    } else {
      forall c | c in cs ensures exists l :: l in ls && l.unitId == c.unitId {
        assert c.unitId in Ids(ls);
      }
      forall l | l in ls ensures exists c :: c in cs && c.unitId == l.unitId {
        assert l.unitId in Ids(cs);
      }
    }
  }

  /** Device memory is reported whenever it leaves the deadband in percent, and no other metric ever is. */
  lemma DeviceMemoryIsReported(
    current: Usage, last: Usage, c: Device, l: Device, used: real, before: real, deadband: real)
    requires DistinctIds(current) && DistinctIds(last) && current.devices.Some? && last.devices.Some?
    requires c in current.devices.value && l in last.devices.value && c.unitId == l.unitId
    requires c.metrics.Some? && "memory_used_gb" in c.metrics.value && c.metrics.value["memory_used_gb"] == used
    requires l.metrics.Some? && "memory_used_gb" in l.metrics.value && l.metrics.value["memory_used_gb"] == before
    ensures before > 0.0 && !(-(deadband * before) <= 100.0 * (used - before) <= deadband * before) ==>
              Changed(current, last, deadband)
    ensures before == 0.0 && used > 0.0 ==> Changed(current, last, deadband)
    ensures deadband >= 0.0 && used == before && c.load == l.load ==> DeviceNear(c, l, deadband)
  {
    NearIsWithin(c, l, used, before, deadband);
    WithinPercentIs(used, before, deadband);
    ChangedIffNotNear(current, last, deadband);
    hide WithinPercent, DeviceNear, Changed;
  }

  lemma NearIsWithin(c: Device, l: Device, used: real, before: real, deadband: real)
    requires c.metrics.Some? && "memory_used_gb" in c.metrics.value && c.metrics.value["memory_used_gb"] == used
    requires l.metrics.Some? && "memory_used_gb" in l.metrics.value && l.metrics.value["memory_used_gb"] == before
    ensures DeviceNear(c, l, deadband) ==> WithinPercent(used, before, deadband)
    ensures deadband >= 0.0 && WithinPercent(used, before, deadband) && c.load == l.load ==> DeviceNear(c, l, deadband)
  {
    hide WithinPercent;
  }

  lemma WithinPercentIs(used: real, before: real, deadband: real)
    ensures before > 0.0 && !(-(deadband * before) <= 100.0 * (used - before) <= deadband * before) ==>
              !WithinPercent(used, before, deadband)
    ensures before == 0.0 && used > 0.0 ==> !WithinPercent(used, before, deadband)
    ensures deadband >= 0.0 && used == before ==> WithinPercent(used, before, deadband)
  {
    assert deadband >= 0.0 && before > 0.0 ==> deadband * before >= 0.0;
  }

  lemma NearItself(u: Usage, deadband: real)
    requires deadband >= 0.0 && DistinctIds(u)
    ensures Near(u, u, deadband)
  {
    forall c, l | c in u.Devices() && l in u.Devices() && c.unitId == l.unitId ensures DeviceNear(c, l, deadband) {
      assert c == l;
    }
  }

  // ---------------------------------------------------------------------------
  // Runs of heartbeats
  // ---------------------------------------------------------------------------

  /** One heartbeat: when it is built and what the usage is at that moment. */
  datatype Sample = Sample(time: real, usage: Usage)

  /** The usage last sent and when, if any. */
  ghost function LastSent(s: Settings, samples: seq<Sample>): Option<Sample> {
    if samples == [] then None
    else
      var now := samples[|samples| - 1];
      if Due(s, LastSent(s, samples[..|samples| - 1]), now) then Some(now)
      else LastSent(s, samples[..|samples| - 1])
  }

  ghost predicate Due(s: Settings, last: Option<Sample>, now: Sample) {
    || last.None?
    || now.time - last.value.time >= s.forceInterval
    || Changed(now.usage, last.value.usage, s.deadband)
  }

  /** The usage field of each heartbeat. */
  ghost function Payloads(s: Settings, samples: seq<Sample>): (r: seq<Option<Usage>>)
    ensures |r| == |samples|
  {
    if samples == [] then []
    else
      var now := samples[|samples| - 1];
      Payloads(s, samples[..|samples| - 1])
      + [if Due(s, LastSent(s, samples[..|samples| - 1]), now) then Some(now.usage) else None]
  }

  /** The heartbeat that carried the usage last sent. */
  ghost function LastDue(s: Settings, samples: seq<Sample>): (r: Option<nat>)
    ensures r.Some? ==> r.value < |samples|
  {
    if samples == [] then None
    else if Due(s, LastSent(s, samples[..|samples| - 1]), samples[|samples| - 1]) then Some(|samples| - 1)
    else LastDue(s, samples[..|samples| - 1])
  }

  /**
   * What one receiver goes by: the last heartbeat with a usage that arrived there. Lost ones do
   * not arrive, and neither do those to other orchestrators, although the worker records the usage
   * as sent before the await and in one place for all of them.
   */
  ghost function View(payloads: seq<Option<Usage>>, arrived: seq<bool>): (r: Option<nat>)
    requires |arrived| == |payloads|
    ensures r.Some? ==> r.value < |payloads| && payloads[r.value].Some? && arrived[r.value]
  {
    if payloads == [] then None
    else
      var last := |payloads| - 1;
      if payloads[last].Some? && arrived[last] then Some(last) else View(payloads[..last], arrived[..last])
  }

  lemma {:induction false} PayloadsAre(s: Settings, samples: seq<Sample>)
    ensures forall k :: 0 <= k < |samples| && Payloads(s, samples)[k].Some? ==>
                          Payloads(s, samples)[k] == Some(samples[k].usage)
    ensures LastSent(s, samples) == if LastDue(s, samples).Some? then Some(samples[LastDue(s, samples).value]) else None
    ensures forall k :: 0 <= k < |samples| && Payloads(s, samples)[k].Some? ==>
                          LastDue(s, samples).Some? && k <= LastDue(s, samples).value
    ensures LastDue(s, samples).Some? ==> Payloads(s, samples)[LastDue(s, samples).value].Some?
  {
    if samples != [] {
      PayloadsAre(s, samples[..|samples| - 1]);
    }
  }

  lemma {:induction false} ViewIsLast(payloads: seq<Option<Usage>>, arrived: seq<bool>)
    requires |arrived| == |payloads|
    ensures forall k :: 0 <= k < |payloads| && payloads[k].Some? && arrived[k] ==>
                          View(payloads, arrived).Some? && k <= View(payloads, arrived).value
  {
    if payloads != [] {
      ViewIsLast(payloads[..|payloads| - 1], arrived[..|payloads| - 1]);
    }
  }

  /** The receiver goes by what the worker compares with exactly if the last heartbeat with a usage arrived. */
  lemma {:induction false} BelievedIsLastSent(s: Settings, samples: seq<Sample>, arrived: seq<bool>)
    requires |arrived| == |samples|
    ensures var due, view := LastDue(s, samples), View(Payloads(s, samples), arrived);
            && (view == due <==> due.None? || arrived[due.value])
            && (view == due && due.Some? ==>
                  && Payloads(s, samples)[view.value] == Some(samples[view.value].usage)
                  && LastSent(s, samples) == Some(samples[view.value]))
            && (view != due ==> view.None? || view.value < due.value)
  {
    hide Payloads, LastSent, LastDue, View;
    PayloadsAre(s, samples);
    ViewIsLast(Payloads(s, samples), arrived);
  }

  /**
   * Over any sequence of heartbeats, whichever of the others were lost: as long as the last one
   * that carried a usage arrived, the receiver's view is a usage that was really measured, is close
   * to the current one, has the same devices, and is younger than the force interval (or brand new).
   */
  lemma {:induction false} ViewStaysClose(s: Settings, samples: seq<Sample>, arrived: seq<bool>)
    requires s.deadband >= 0.0 && samples != []
    requires forall x :: x in samples ==> DistinctIds(x.usage)
    requires |arrived| == |samples|
    requires LastDue(s, samples).Some? ==> arrived[LastDue(s, samples).value]
    ensures var now, view := samples[|samples| - 1], View(Payloads(s, samples), arrived);
            && view.Some?
            && var sent := samples[view.value];
            && Payloads(s, samples)[view.value] == Some(sent.usage)
            && Near(now.usage, sent.usage, s.deadband)
            && (now.time - sent.time < s.forceInterval || now.time == sent.time)
  {
    var now := samples[|samples| - 1];
    BelievedIsLastSent(s, samples, arrived);
    LastSentIsNear(s, samples);
    hide Payloads, View, Near, LastSent, LastDue;
  }

  lemma {:induction false} LastSentIsNear(s: Settings, samples: seq<Sample>)
    requires s.deadband >= 0.0 && samples != []
    requires forall x :: x in samples ==> DistinctIds(x.usage)
    ensures var now, sent := samples[|samples| - 1], LastSent(s, samples);
            && LastDue(s, samples).Some? && sent == Some(samples[LastDue(s, samples).value])
            && Near(now.usage, sent.value.usage, s.deadband)
            && (now.time - sent.value.time < s.forceInterval || now.time == sent.value.time)
  {
    var now, rest := samples[|samples| - 1], samples[..|samples| - 1];
    PayloadsAre(s, samples);
    PayloadsAre(s, rest);
    var before := LastSent(s, rest);
    assert LastSent(s, samples) == if Due(s, before, now) then Some(now) else before;
    assert Due(s, before, now) ==> LastDue(s, samples) == Some(|samples| - 1);
    hide Payloads, Near, Changed, LastSent, LastDue;
    if Due(s, before, now) {
      NearItself(now.usage, s.deadband);
    } else {
      ChangedIffNotNear(now.usage, before.value.usage, s.deadband);
    }
  }

  /** None of the readings is far enough from this one, in value or in time, to be sent. */
  ghost predicate StayNear(s: Settings, sent: Sample, later: seq<Sample>) {
    forall k :: 0 <= k < |later| ==>
                  later[k].time - sent.time < s.forceInterval && !Changed(later[k].usage, sent.usage, s.deadband)
  }

  /**
   * A usage that is lost on its way is not sent again until the force interval is over or the usage
   * moves once more: through any number of later readings that stay near the lost one, heartbeats
   * carry no usage and the receiver goes by what it had before, whatever else arrives.
   */
  lemma {:induction false} LostReportIsNotRepeated(
    s: Settings, before: seq<Sample>, lost: Sample, later: seq<Sample>, arrived: seq<bool>)
    requires Due(s, LastSent(s, before), lost)
    requires StayNear(s, lost, later)
    requires |arrived| == |before| + 1 + |later| && !arrived[|before|]
    ensures var samples := before + [lost] + later;
            && LastSent(s, samples) == Some(lost)
            && (forall k :: |before| < k < |samples| ==> Payloads(s, samples)[k].None?)
            && View(Payloads(s, samples), arrived) == View(Payloads(s, before), arrived[..|before|])
    decreases |later|
  {
    hide Due, Changed, LastSent, Payloads, View;
    if later == [] {
      NextSample(s, before, lost, arrived);
      assert before + [lost] + later == before + [lost];
    } else {
      var rest, now := later[..|later| - 1], later[|later| - 1];
      var samples := before + [lost] + rest;
      LostReportIsNotRepeated(s, before, lost, rest, arrived[..|samples|]);
      NotDue(s, lost, now);
      NextSample(s, samples, now, arrived);
      assert before + [lost] + later == samples + [now];
      assert arrived[..|samples|][..|before|] == arrived[..|before|];
    }
  }

  /** One more heartbeat. */
  lemma NextSample(s: Settings, samples: seq<Sample>, now: Sample, arrived: seq<bool>)
    requires |arrived| == |samples| + 1
    ensures var due := Due(s, LastSent(s, samples), now);
            && LastSent(s, samples + [now]) == (if due then Some(now) else LastSent(s, samples))
            && Payloads(s, samples + [now]) == Payloads(s, samples) + [if due then Some(now.usage) else None]
            && View(Payloads(s, samples + [now]), arrived) ==
               if due && arrived[|samples|] then Some(|samples|) else View(Payloads(s, samples), arrived[..|samples|])
  {
    hide Due;
    assert (samples + [now])[..|samples|] == samples;
    assert Payloads(s, samples + [now])[..|samples|] == Payloads(s, samples);
  }

  lemma NotDue(s: Settings, last: Sample, now: Sample)
    requires now.time - last.time < s.forceInterval && !Changed(now.usage, last.usage, s.deadband)
    ensures !Due(s, Some(last), now)
  {
  }

  /** Meanwhile a view that was the worker's own is not close to the usage that was lost. */
  lemma LostReportLeavesAStaleView(
    s: Settings, before: seq<Sample>, lost: Sample, later: seq<Sample>, arrived: seq<bool>)
    requires LastSent(s, before).Some? && Changed(lost.usage, LastSent(s, before).value.usage, s.deadband)
    requires forall x :: x in before + [lost] ==> DistinctIds(x.usage)
    requires StayNear(s, lost, later)
    requires |arrived| == |before| + 1 + |later| && !arrived[|before|]
    requires LastDue(s, before).Some? ==> arrived[LastDue(s, before).value]
    ensures var samples := before + [lost] + later;
            var view := View(Payloads(s, samples), arrived);
            view == LastDue(s, before) && view.Some? && !Near(lost.usage, samples[view.value].usage, s.deadband)
  {
    LostReportIsNotRepeated(s, before, lost, later, arrived);
    BelievedIsLastSent(s, before, arrived[..|before|]);
    PayloadsAre(s, before);
    var sent := LastSent(s, before).value;
    hide Payloads, View, LastSent, LastDue, Changed, Near;
    assert sent in before && lost in [lost];
    ChangedIffNotNear(lost.usage, sent.usage, s.deadband);
    assert (before + [lost] + later)[LastDue(s, before).value] == before[LastDue(s, before).value];
  }

  // ---------------------------------------------------------------------------
  // The code
  // ---------------------------------------------------------------------------

  class TelemetryThrottle {
    const settings: Settings
    var lastSentUsage: Option<Usage>
    var lastSentUsageTime: real
    ghost var samples: seq<Sample>

    ghost predicate Valid()
      reads this
    {
      LastSent(settings, samples) ==
      if lastSentUsage.Some? then Some(Sample(lastSentUsageTime, lastSentUsage.value)) else None
    }

    constructor (settings: Settings)
      ensures Valid() && this.settings == settings && samples == []
    {
      this.settings := settings;
      lastSentUsage, lastSentUsageTime, samples := None, 0.0, [];
    }

    method IsChangedSignificantly(current: Usage) returns (changed: bool)
      ensures changed <==> lastSentUsage.None? || Changed(current, lastSentUsage.value, settings.deadband)
    {
      if lastSentUsage.None? {
        return true;
      }
      var last := lastSentUsage.value;
      if Abs(current.cpu - last.cpu) > settings.deadband {
        return true;
      }
      if last.ram == 0.0 && current.ram > 0.0 {
        return true;
      } else if last.ram > 0.0 {
        var ramDiff := Abs(current.ram - last.ram) / last.ram;
        if ramDiff > settings.deadband / 100.0 {
          return true;
        }
      }
      var currGpus, lastGpus := current.Devices(), last.Devices();
      if |currGpus| != |lastGpus| {
        return true;
      }
      for k := 0 to |currGpus|
        invariant forall i :: 0 <= i < k ==> !DeviceMoved(currGpus[i], lastGpus, settings.deadband)
      {
        var c := currGpus[k];
        var l := Lookup(lastGpus, c.unitId);
        if l.None? {
          assert DeviceMoved(c, lastGpus, settings.deadband);
          return true;
        }
        if Abs(c.load - l.value.load) > settings.deadband {
          assert DeviceMoved(c, lastGpus, settings.deadband);
          return true;
        }
        var cVram, lVram := c.Vram(), l.value.Vram();
        if lVram == 0.0 && cVram > 0.0 {
          assert DeviceMoved(c, lastGpus, settings.deadband);
          return true;
        } else if lVram > 0.0 {
          var vramDiff := Abs(cVram - lVram) / lVram;
          if vramDiff > settings.deadband / 100.0 {
            assert DeviceMoved(c, lastGpus, settings.deadband);
            return true;
          }
        }
      }
      return false;
    }

    /** The usage field of the heartbeat being built. */
    method Report(current: Usage, now: real) returns (usage: Option<Usage>)
      requires Valid()
      modifies this
      ensures Valid()
      ensures samples == old(samples) + [Sample(now, current)]
      ensures Payloads(settings, samples) == Payloads(settings, old(samples)) + [usage]
      ensures var due := || old(lastSentUsage).None?
                         || now - old(lastSentUsageTime) >= settings.forceInterval
                         || Changed(current, old(lastSentUsage).value, settings.deadband);
              && usage == (if due then Some(current) else None)
              && lastSentUsage == (if due then Some(current) else old(lastSentUsage))
              && lastSentUsageTime == (if due then now else old(lastSentUsageTime))
    {
      usage := None;
      var changed := IsChangedSignificantly(current);
      if lastSentUsage.None? || now - lastSentUsageTime >= settings.forceInterval || changed {
        usage := Some(current);
        lastSentUsage := Some(current);
        lastSentUsageTime := now;
      }
      samples := samples + [Sample(now, current)];
      assert samples[..|samples| - 1] == old(samples);
    }
  }
}
