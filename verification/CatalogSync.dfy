/**
 * The skill catalogue travels in a heartbeat only when its hash differs from the one last known to
 * be synchronised; otherwise the hash alone travels. One worker and one orchestrator that asks for
 * a full synchronisation when the hash it receives is not that of the catalogue it holds.
 */
module CatalogSync {
  import opened Prelude

  datatype Catalog = Catalog(skills: seq<string>)
  type Hash = string
  type HashFunction = Catalog -> Hash

  ghost predicate CollisionFree(hash: HashFunction) {
    forall a, b :: hash(a) == hash(b) ==> a == b
  }

  datatype Heartbeat = Heartbeat(supportedSkills: Option<Catalog>, skillsHash: Hash)

  /** No usable response, or an acknowledgement that may require a full synchronisation. */
  datatype Response = NoResponse | Acknowledged(requireFullSync: bool)

  function BuildHeartbeat(hash: HashFunction, lastSynced: Option<Hash>, catalog: Catalog): Heartbeat {
    var h := hash(catalog);
    Heartbeat(if Some(h) != lastSynced then Some(catalog) else None, h)
  }

  function AfterResponse(lastSynced: Option<Hash>, hb: Heartbeat, r: Response): Option<Hash> {
    match r
    case NoResponse => lastSynced
    case Acknowledged(true) => None
    case Acknowledged(false) => Some(hb.skillsHash)
  }

  // ---------------------------------------------------------------------------
  // Worker, orchestrator and the message between them
  // ---------------------------------------------------------------------------

  datatype Stage = Sent | Answered(requireFullSync: bool)

  /** A heartbeat on its way, with the catalogue it was built from. */
  datatype Flight = Flight(hb: Heartbeat, built: Catalog, stage: Stage)

  datatype World = World(catalog: Catalog, lastSynced: Option<Hash>, flight: Option<Flight>, held: Option<Catalog>)

  datatype Event =
    | Change(catalog: Catalog)      // a skill is registered
    | Build                         // a heartbeat is built and sent
    | Deliver                       // the orchestrator receives and answers it
    | Ack                           // the answer reaches the worker
    | LoseMessage                   // the heartbeat never arrives
    | LoseAnswer                    // it arrived, but its answer is lost
    | SessionLost                   // the orchestrator no longer knows the worker
    | Register(delivered: bool)     // a registration attempt, which carries the whole catalogue
    | Forget                        // the orchestrator loses the catalogue

  predicate Enabled(w: World, e: Event) {
    match e
    case Build => w.flight.None?
    case Register(_) => w.flight.None?
    case Deliver => w.flight.Some? && w.flight.value.stage.Sent?
    case Ack => w.flight.Some? && w.flight.value.stage.Answered?
    case LoseMessage => w.flight.Some? && w.flight.value.stage.Sent?
    case LoseAnswer => w.flight.Some? && w.flight.value.stage.Answered?
    case _ => true
  }

  function Receive(held: Option<Catalog>, hb: Heartbeat): Option<Catalog> {
    if hb.supportedSkills.Some? then hb.supportedSkills else held
  }

  function Apply(hash: HashFunction, w: World, e: Event): World
    requires Enabled(w, e)
  {
    match e
    case Change(c) => w.(catalog := c)
    case Build => w.(flight := Some(Flight(BuildHeartbeat(hash, w.lastSynced, w.catalog), w.catalog, Sent)))
    case Deliver =>
      var f := w.flight.value;
      var held := Receive(w.held, f.hb);
      var mismatch := held.None? || hash(held.value) != f.hb.skillsHash;
      w.(held := held, flight := Some(f.(stage := Answered(mismatch))))
    case Ack =>
      var f := w.flight.value;
      w.(lastSynced := AfterResponse(w.lastSynced, f.hb, Acknowledged(f.stage.requireFullSync)), flight := None)
    case LoseMessage => w.(lastSynced := AfterResponse(w.lastSynced, w.flight.value.hb, NoResponse), flight := None)
    case LoseAnswer => w.(lastSynced := AfterResponse(w.lastSynced, w.flight.value.hb, NoResponse), flight := None)
    case SessionLost => w.(lastSynced := None)
    case Register(delivered) =>
      w.(lastSynced := Some(hash(w.catalog)), held := if delivered then Some(w.catalog) else w.held)
    case Forget => w.(held := None)
  }

  ghost predicate Legal(hash: HashFunction, w: World, es: seq<Event>)
    decreases |es|
  {
    es == [] || (Enabled(w, es[0]) && Legal(hash, Apply(hash, w, es[0]), es[1..]))
  }

  ghost function Run(hash: HashFunction, w: World, es: seq<Event>): World
    requires Legal(hash, w, es)
    decreases |es|
  {
    if es == [] then w else Run(hash, Apply(hash, w, es[0]), es[1..])
  }

  // ---------------------------------------------------------------------------
  // Coherence
  // ---------------------------------------------------------------------------

  /** A message on its way carries the hash, and at most the catalogue, that it was built from. */
  ghost predicate Labelled(hash: HashFunction, w: World) {
    w.flight.Some? ==>
      var f := w.flight.value;
      && f.hb.skillsHash == hash(f.built)
      && (f.hb.supportedSkills.Some? ==> f.hb.supportedSkills == Some(f.built))
  }

  /** An acknowledgement without a complaint is on its way back. */
  predicate Approved(w: World) {
    w.flight.Some? && w.flight.value.stage == Answered(false)
  }

  ghost predicate HonestFlight(hash: HashFunction, w: World) {
    Labelled(hash, w) && (Approved(w) ==> w.held == Some(w.flight.value.built))
  }

  /** The worker only believes to be synchronised with a catalogue that the orchestrator holds. */
  ghost predicate RightBelief(hash: HashFunction, w: World) {
    w.lastSynced.Some? ==> w.held.Some? && hash(w.held.value) == w.lastSynced.value
  }

  /**
   * The belief is right, unless a catalogue has just arrived and its acknowledgement is about to
   * settle the question; and what is on its way leaves the orchestrator with what it was built from.
   */
  ghost predicate Coherent(hash: HashFunction, w: World) {
    match w.flight
    case None => RightBelief(hash, w)
    case Some(f) =>
      if f.stage.Sent? then RightBelief(hash, w) && (f.hb.supportedSkills.None? ==> w.held == Some(f.built))
      else if f.hb.supportedSkills.Some? then w.held == Some(f.built)
      else RightBelief(hash, w)
  }

  /**
   * The steps that do no harm: a lost answer or registration that would have told the worker what
   * it believes already, and a loss of the catalogue that the worker does not count on and that the
   * message on its way is still going to notice or to make up for.
   */
  predicate Benign(w: World, e: Event)
    requires Enabled(w, e)
  {
    match e
    case LoseAnswer =>
      var hb := w.flight.value.hb;
      w.lastSynced.None? || hb.supportedSkills.None? || w.lastSynced == Some(hb.skillsHash)
    case Forget =>
      && w.lastSynced.None?
      && (w.flight.Some? ==>
            var f := w.flight.value;
            if f.stage.Sent? then f.hb.supportedSkills.Some? else f.stage.requireFullSync && f.hb.supportedSkills.None?)
    case Register(delivered) => delivered || w.held == Some(w.catalog)
    case _ => true
  }

  lemma LabelledStep(hash: HashFunction, w: World, e: Event)
    requires Labelled(hash, w) && Enabled(w, e)
    ensures Labelled(hash, Apply(hash, w, e))
  {
  }

  /** Only the loss of a catalogue that has just been approved makes the answer on its way a lie. */
  lemma HonestIff(hash: HashFunction, w: World, e: Event)
    requires CollisionFree(hash) && HonestFlight(hash, w) && Enabled(w, e)
    ensures HonestFlight(hash, Apply(hash, w, e)) <==> !(e.Forget? && Approved(w))
  {
  }

  /** One acknowledgement makes ANY pair of worker and orchestrator coherent. */
  lemma AckMakesCoherent(hash: HashFunction, w: World)
    requires HonestFlight(hash, w) && Enabled(w, Ack)
    ensures Coherent(hash, Apply(hash, w, Ack))
  {
  }

  /** Exactly the benign steps keep worker, orchestrator and the message between them coherent. */
  lemma CoherentIff(hash: HashFunction, w: World, e: Event)
    requires CollisionFree(hash) && HonestFlight(hash, w) && Coherent(hash, w) && Enabled(w, e)
    ensures HonestFlight(hash, Apply(hash, w, e)) && Coherent(hash, Apply(hash, w, e)) <==> Benign(w, e)
  {
    HonestIff(hash, w, e);
  }

  /** A registration whose message is lost breaks coherence exactly if the orchestrator holds something else. */
  lemma LostRegistration(hash: HashFunction, w: World)
    requires CollisionFree(hash) && Enabled(w, Register(false))
    ensures Coherent(hash, Apply(hash, w, Register(false))) <==> w.held == Some(w.catalog)
  {
  }

  /**
   * A delivered heartbeat whose answer is lost leaves a false belief exactly if it carried a
   * catalogue other than the one the worker believes to be synchronised.
   */
  lemma LostAnswer(hash: HashFunction, w: World)
    requires CollisionFree(hash) && HonestFlight(hash, w) && Coherent(hash, w) && Enabled(w, Deliver)
    ensures var hb := w.flight.value.hb;
            Coherent(hash, Apply(hash, Apply(hash, w, Deliver), LoseAnswer)) <==>
            w.lastSynced.None? || hb.supportedSkills.None? || w.lastSynced == Some(hb.skillsHash)
  {
    CoherentIff(hash, w, Deliver);
    CoherentIff(hash, Apply(hash, w, Deliver), LoseAnswer);
    HonestIff(hash, Apply(hash, w, Deliver), LoseAnswer);
  }

  /** With nothing on its way, losing the catalogue is harmless exactly if the worker does not count on it. */
  lemma Forgotten(hash: HashFunction, w: World)
    requires w.flight.None?
    ensures Coherent(hash, Apply(hash, w, Forget)) <==> w.lastSynced.None?
  {
  }

  /** Whatever both sides believe, after an acknowledgement the next heartbeat to arrive brings the catalogue across. */
  lemma AckRepairs(hash: HashFunction, w: World)
    requires CollisionFree(hash) && HonestFlight(hash, w) && Enabled(w, Ack)
    ensures Apply(hash, Apply(hash, Apply(hash, w, Ack), Build), Deliver).held == Some(w.catalog)
  {
    AckMakesCoherent(hash, w);
  }

  /**
   * A lost answer can deceive the worker: the orchestrator took the new catalogue, the worker went
   * back to the old one, and the next heartbeat carries only a hash. The acknowledgement after
   * that repairs it.
   */
  lemma LostAnswerThenRevert(hash: HashFunction, c0: Catalog, c1: Catalog)
    requires CollisionFree(hash) && c0 != c1
    ensures var w := World(c0, Some(hash(c0)), None, Some(c0));
            var es := [Change(c1), Build, Deliver, LoseAnswer, Change(c0), Build, Deliver];
            && Coherent(hash, w) && Legal(hash, w, es)
            && Run(hash, w, es).held == Some(c1) && Run(hash, w, es).catalog == c0
            && Legal(hash, Run(hash, w, es), [Ack, Build, Deliver])
            && Run(hash, Run(hash, w, es), [Ack, Build, Deliver]).held == Some(c0)
  {
    var w := World(c0, Some(hash(c0)), None, Some(c0));
    var v := First(hash, w, Change(c1), [Build, Deliver, LoseAnswer, Change(c0), Build, Deliver]);
    v := First(hash, v, Build, [Deliver, LoseAnswer, Change(c0), Build, Deliver]);
    v := First(hash, v, Deliver, [LoseAnswer, Change(c0), Build, Deliver]);
    v := First(hash, v, LoseAnswer, [Change(c0), Build, Deliver]);
    v := First(hash, v, Change(c0), [Build, Deliver]);
    v := First(hash, v, Build, [Deliver]);
    v := First(hash, v, Deliver, []);
    AckRepairs(hash, v);
    v := First(hash, v, Ack, [Build, Deliver]);
    v := First(hash, v, Build, [Deliver]);
    v := First(hash, v, Deliver, []);
  }

  lemma First(hash: HashFunction, w: World, e: Event, rest: seq<Event>) returns (v: World)
    requires Enabled(w, e)
    ensures v == Apply(hash, w, e)
    ensures Legal(hash, w, [e] + rest) <==> Legal(hash, v, rest)
    ensures Legal(hash, v, rest) ==> Run(hash, w, [e] + rest) == Run(hash, v, rest)
  {
    v := Apply(hash, w, e);
    assert ([e] + rest)[1..] == rest;
  }

  // ---------------------------------------------------------------------------
  // Whole runs
  // ---------------------------------------------------------------------------

  /** Once coherent, only benign steps; before that, anything but the loss of an approved catalogue. */
  ghost predicate Spared(hash: HashFunction, w: World, es: seq<Event>)
    requires Legal(hash, w, es)
    decreases |es|
  {
    es != [] ==>
      && !(es[0].Forget? && Approved(w))
      && (Coherent(hash, w) ==> Benign(w, es[0]))
      && Spared(hash, Apply(hash, w, es[0]), es[1..])
  }

  ghost predicate AlwaysCoherent(hash: HashFunction, w: World, es: seq<Event>)
    requires Legal(hash, w, es)
    decreases |es|
  {
    && HonestFlight(hash, w) && Coherent(hash, w)
    && (es != [] ==> AlwaysCoherent(hash, Apply(hash, w, es[0]), es[1..]))
  }

  /**
   * Coherence, gained by an acknowledgement if need be, survives every spared run, catalogue changes
   * during a send included.
   */
  lemma {:induction false} CoherentRun(hash: HashFunction, w: World, es: seq<Event>)
    requires CollisionFree(hash) && Legal(hash, w, es) && Spared(hash, w, es)
    requires HonestFlight(hash, w)
    ensures HonestFlight(hash, Run(hash, w, es))
    ensures Coherent(hash, w) || (exists k :: 0 <= k < |es| && es[k].Ack?) ==> Coherent(hash, Run(hash, w, es))
    decreases |es|
  {
    if es != [] {
      hide Apply, HonestFlight, Coherent, Benign;
      HonestIff(hash, w, es[0]);
      if Coherent(hash, w) {
        CoherentIff(hash, w, es[0]);
      }
      if es[0].Ack? {
        AckMakesCoherent(hash, w);
      }
      CoherentRun(hash, Apply(hash, w, es[0]), es[1..]);
      assert forall k :: 1 <= k < |es| ==> es[k] == es[1..][k - 1];
    }
  }

  /** From a coherent start, a run is coherent throughout exactly if all its steps are benign. */
  lemma {:induction false} CoherentThroughoutIff(hash: HashFunction, w: World, es: seq<Event>)
    requires CollisionFree(hash) && Legal(hash, w, es)
    requires HonestFlight(hash, w) && Coherent(hash, w)
    ensures AlwaysCoherent(hash, w, es) <==> Spared(hash, w, es)
    decreases |es|
  {
    if es != [] {
      var next := Apply(hash, w, es[0]);
      CoherentIff(hash, w, es[0]);
      HonestIff(hash, w, es[0]);
      hide Apply, HonestFlight, Coherent, Benign;
      if HonestFlight(hash, next) && Coherent(hash, next) {
        CoherentThroughoutIff(hash, next, es[1..]);
      }
    }
  }

  /**
   * Self-stabilisation: start from ANY beliefs of worker and orchestrator with nothing in flight,
   * and let a spared run contain an acknowledgement. From then on, every heartbeat that the
   * orchestrator receives leaves it holding the very catalogue the heartbeat was built from.
   */
  lemma SelfStabilises(hash: HashFunction, w: World, es: seq<Event>)
    requires CollisionFree(hash) && Legal(hash, w, es) && Spared(hash, w, es) && w.flight.None?
    requires exists k :: 0 <= k < |es| && es[k].Ack?
    requires Enabled(Run(hash, w, es), Deliver)
    ensures var v := Run(hash, w, es);
            Apply(hash, v, Deliver).held == Some(v.flight.value.built)
  {
    CoherentRun(hash, w, es);
  }

  /** One undisturbed heartbeat: built, delivered and acknowledged. */
  function Exchange(hash: HashFunction, w: World): World
    requires w.flight.None?
  {
    Apply(hash, Apply(hash, Apply(hash, w, Build), Deliver), Ack)
  }

  /**
   * Two acknowledged heartbeats always suffice; one does exactly if the worker does not already
   * believe to be synchronised, or is right about it.
   */
  lemma TwoHeartbeatsSuffice(hash: HashFunction, w: World)
    requires CollisionFree(hash) && w.flight.None?
    ensures Exchange(hash, w).held == Some(w.catalog) <==>
            w.lastSynced != Some(hash(w.catalog)) || w.held == Some(w.catalog)
    ensures Exchange(hash, Exchange(hash, w)).held == Some(w.catalog)
    ensures Exchange(hash, Exchange(hash, w)).catalog == w.catalog
    // and from then on only the hash travels
    ensures var settled := Exchange(hash, Exchange(hash, Exchange(hash, w)));
            BuildHeartbeat(hash, settled.lastSynced, settled.catalog).supportedSkills.None?
  {
  }

  lemma {:induction false} LabelledRun(hash: HashFunction, w: World, es: seq<Event>)
    requires Labelled(hash, w) && Legal(hash, w, es)
    ensures Labelled(hash, Run(hash, w, es))
    decreases |es|
  {
    if es != [] {
      LabelledStep(hash, w, es[0]);
      LabelledRun(hash, Apply(hash, w, es[0]), es[1..]);
    }
  }

  /** A change made while a heartbeat is in flight is not marked as synchronised by its acknowledgement, on any run. */
  lemma {:induction false} ChangeInFlightIsNotMarked(hash: HashFunction, w: World, es: seq<Event>)
    requires CollisionFree(hash) && Legal(hash, w, es) && w.flight.None?
    requires Enabled(Run(hash, w, es), Ack)
    requires var v := Run(hash, w, es); v.catalog != v.flight.value.built
    ensures var v := Apply(hash, Run(hash, w, es), Ack);
            v.lastSynced != Some(hash(v.catalog))
            && BuildHeartbeat(hash, v.lastSynced, v.catalog).supportedSkills == Some(v.catalog)
  {
    LabelledRun(hash, w, es);
  }

  // ---------------------------------------------------------------------------
  // The code
  // ---------------------------------------------------------------------------

  class CatalogTracker {
    const hash: HashFunction
    var lastSyncedSkillsHash: Option<Hash>

    constructor (hash: HashFunction)
      ensures this.hash == hash && lastSyncedSkillsHash == None
    {
      this.hash := hash;
      lastSyncedSkillsHash := None;
    }

    method CreateHeartbeatPayload(allSupported: Catalog) returns (hb: Heartbeat)
      ensures hb == BuildHeartbeat(hash, lastSyncedSkillsHash, allSupported)
      ensures hb.skillsHash == hash(allSupported)
      ensures hb.supportedSkills ==
              if lastSyncedSkillsHash == Some(hash(allSupported)) then None else Some(allSupported)
    {
      var currentHash := hash(allSupported);
      var skillsToSend := None;
      if Some(currentHash) != lastSyncedSkillsHash {
        skillsToSend := Some(allSupported);
      }
      hb := Heartbeat(skillsToSend, currentHash);
    }

    method OnResponse(hb: Heartbeat, resp: Response)
      modifies this
      ensures lastSyncedSkillsHash == AfterResponse(old(lastSyncedSkillsHash), hb, resp)
      ensures lastSyncedSkillsHash ==
              if resp == NoResponse then old(lastSyncedSkillsHash)
              else if resp.requireFullSync then None
              else Some(hb.skillsHash)
    {
      if resp.Acknowledged? {
        lastSyncedSkillsHash := Some(hb.skillsHash);
        if resp.requireFullSync {
          lastSyncedSkillsHash := None;
        }
      }
    }

    /** The orchestrator no longer knows the worker: the next heartbeat carries whatever catalogue there is then. */
    method OnSessionLost()
      modifies this
      ensures lastSyncedSkillsHash == None
      ensures forall w: World :: w.lastSynced == old(lastSyncedSkillsHash) ==>
                                   Apply(hash, w, SessionLost) == w.(lastSynced := lastSyncedSkillsHash)
      ensures forall c :: BuildHeartbeat(hash, lastSyncedSkillsHash, c).supportedSkills == Some(c)
    {
      lastSyncedSkillsHash := None;
    }

    /**
     * A registration attempt: the worker is left as after that step whether or not the message
     * arrives, and if it does the orchestrator takes what it carries. Until the catalogue changes,
     * heartbeats carry only its hash.
     */
    method CreateRegistrationPayload(allSupported: Catalog) returns (payload: Heartbeat)
      modifies this
      ensures forall w: World, delivered: bool ::
                w.flight.None? && w.catalog == allSupported && w.lastSynced == old(lastSyncedSkillsHash) ==>
                  Apply(hash, w, Register(delivered)) ==
                  w.(lastSynced := lastSyncedSkillsHash, held := if delivered then Receive(w.held, payload) else w.held)
      ensures BuildHeartbeat(hash, lastSyncedSkillsHash, allSupported) == Heartbeat(None, payload.skillsHash)
      ensures lastSyncedSkillsHash == Some(hash(allSupported)) && payload.supportedSkills == Some(allSupported)
    {
      var skillsHash := hash(allSupported);
      lastSyncedSkillsHash := Some(skillsHash);
      payload := Heartbeat(Some(allSupported), skillsHash);
    }
  }
}
