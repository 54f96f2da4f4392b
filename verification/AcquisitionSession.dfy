/**
 The acquisition session as an interleaving of its locked sections. No lock is held while
 a transport callback runs, so anything may happen between two sections: selections,
 other calls, responses, failures and interrupts. Object identity of a token is a number
 never handed out before; headers and reconstructed states are opaque identifiers.
 */
module AcquisitionSession {
  import opened Wrappers

  const MAX_CALLS: nat := 1800
  const MAX_BYTES: nat := 33554432
  const MAX_ATTEMPTS: nat := 4
  const MAX_SELECTIONS: nat := 32
  const CHAIN: nat := 31337
  const TOKEN_CONTRACT: nat := 0xf3b9569f_82b18aef_890de263_b84189bd_33ebe452
  const UINT_BOUND: nat := 0x1_00000000_00000000_00000000_00000000_00000000_00000000_00000000_00000000

  type Token = nat

  type Header = nat

  datatype Manifest = Manifest(chainId: nat, registry: nat, probe: nat, token: nat,
                               startHash: nat, endHash: nat, registryPin: nat, probePin: nat)

  datatype Config = Config(manifest: Manifest, startNumber: nat, endNumber: nat)

  datatype History = History(startBlock: Header, endBlock: Header, blocks: seq<Header>, rest: nat)

  datatype Collected = Collected(manifest: Manifest, history: History)

  datatype Publication = Publication(manifest: Manifest, history: History, result: nat,
                                     requestCount: nat, responseBytes: nat)

  datatype Code =
    | SelectionLimit | Superseded | Deadline | StaleToken | Busy | AttemptLimit | Transport | CallLimit | ByteLimit
    | ManifestDisagreement | HistoryDisagreement | EndpointFields | FinalChain | FinalBoundary | Interrupted | Rejected

  datatype Stage = NumberStage | HashStage | AgreementStage | ReconstructionStage | FinalStage

  datatype Failure = Failure(stage: Stage, code: Code)

  datatype Session = Session(
    generation: nat, attempts: nat, calls: nat, bytes: nat,
    token: Option<Token>, config: Option<Config>, current: Option<Publication>, error: Option<Failure>,
    busy: bool, minted: nat)

  datatype Phase =
    | Running
    | Raised(code: Code)
    | Unwinding
    | Expired
    | Ended

  /** What one acquire call holds in its local variables; granted and accepted count what its leases were given, observed lists what its closing reads returned. */
  datatype Attempt = Attempt(
    token: Token, generation: nat, config: Config, firstCall: nat, firstBytes: nat,
    phase: Phase, expired: bool, stage: Stage,
    number: Option<Collected>, hashed: Option<Collected>, rebuilt: Option<nat>, boundaries: nat, observed: seq<nat>,
    granted: nat, accepted: nat, returned: Option<Publication>)

  predicate Selectable(c: Config) {
    var m := c.manifest;
    && m.chainId == CHAIN
    && m.registry != 0 && m.probe != 0 && m.registry != m.probe
    && m.token == TOKEN_CONTRACT && m.registry != m.token && m.probe != m.token
    && c.startNumber < c.endNumber < UINT_BOUND && c.endNumber - c.startNumber + 1 <= 128
    && m.startHash != m.endHash
  }

  // The locked sections.

  const INITIAL: Session := Session(0, 0, 0, 0, None, None, None, None, false, 0)

  /** Invalidates everything first; the 33rd selection still does, and then fails. */
  function SelectBegin(s: Session): (r: (Session, Option<nat>)) {
    var t := s.(current := None, token := None, config := None, error := None, generation := s.generation + 1);
    (t, if t.generation <= MAX_SELECTIONS then Some(t.generation) else None)
  }

  function SelectCommit(s: Session, generation: nat, config: Config): (r: (Session, Option<Token>)) {
    if generation != s.generation then (s, None)
    else (s.(config := Some(config), token := Some(s.minted), minted := s.minted + 1), Some(s.minted))
  }

  datatype Admission = Admitted(attempt: Attempt) | Refused(code: Code)

  function AcquireBegin(s: Session, token: Option<Token>, callable: bool): (r: (Session, Admission)) {
    if token != s.token || s.token.None? || s.config.None? then (s, Refused(StaleToken))
    else if s.busy then (s, Refused(Busy))
    else if s.attempts >= MAX_ATTEMPTS then (s, Refused(AttemptLimit))
    else if !callable then (s, Refused(Transport))
    else (s.(attempts := s.attempts + 1, busy := true),
          Admitted(Attempt(s.token.value, s.generation, s.config.value, s.calls, s.bytes,
                           Running, false, NumberStage, None, None, None, 0, [], 0, 0, None)))
  }

  predicate Current(s: Session, a: Attempt) {
    s.generation == a.generation && s.token == Some(a.token)
  }

  predicate Active(s: Session, a: Attempt, onTime: bool) {
    !a.expired && Current(s, a) && onTime
  }

  /** Why an inactive lease is refused. */
  function LeaseRefusal(s: Session, a: Attempt): Code {
    if a.expired || !Current(s, a) then Superseded else Deadline
  }

  function GrantCall(s: Session, a: Attempt, onTime: bool): (r: (Session, bool)) {
    if Active(s, a, onTime) && s.calls < MAX_CALLS then (s.(calls := s.calls + 1), true) else (s, false)
  }

  function AcceptBytes(s: Session, a: Attempt, onTime: bool, size: nat): (r: (Session, bool)) {
    if Active(s, a, onTime) && s.bytes + size <= MAX_BYTES then (s.(bytes := s.bytes + size), true) else (s, false)
  }

  function Publish(s: Session, a: Attempt, onTime: bool, history: History, result: nat): (r: (Session, Option<Publication>))
    requires a.firstCall <= s.calls && a.firstBytes <= s.bytes
  {
    if !Active(s, a, onTime) then (s, None) else
    var p := Publication(a.config.manifest, history, result, s.calls - a.firstCall, s.bytes - a.firstBytes);
    (s.(current := Some(p), token := None, error := None), Some(p))
  }

  function RecordFailure(s: Session, a: Attempt, code: Code): Session {
    if Current(s, a) then s.(current := None, token := None, error := Some(Failure(a.stage, code))) else s
  }

  /** The last section of every attempt, however it went. */
  function Release(s: Session, a: Attempt): Session {
    RecordFailure(s, a, Interrupted).(busy := false)
  }

  // One attempt, step by step.

  datatype Step =
    | Grant(onTime: bool)
    | CheckLease(onTime: bool)
    | Accept(onTime: bool, size: nat)
    | CollectByNumber(collected: Collected)
    | CollectByHash(collected: Collected)
    | Agree
    | Reconstruct
    | ConfirmBoundary(observed: nat)
    | Commit(onTime: bool)
    | Raise(code: Code)
    | Record
    | Interrupt
    | Expire
    | Finish

  function Agreement(a: Attempt): (r: Option<Code>)
    requires a.number.Some? && a.hashed.Some?
  {
    var n, h := a.number.value, a.hashed.value;
    if !(n.manifest == h.manifest == a.config.manifest) then Some(ManifestDisagreement)
    else if n.history != h.history then Some(HistoryDisagreement)
    else if n.history.blocks == [] then Some(Rejected)
    else if n.history.endBlock != n.history.blocks[|n.history.blocks| - 1] then Some(EndpointFields)
    else None
  }

  /** What each of the six closing reads has to return: chain, start header, end header, by each transport. */
  function Boundary(a: Attempt): nat
    requires a.number.Some?
  {
    match a.boundaries % 3
    case 0 => CHAIN
    case 1 => a.number.value.history.startBlock
    case _ => a.number.value.history.endBlock
  }

  /**
   The effect of one step on the session and on the attempt's own variables. Lease steps
   may come at any time, from anybody who kept the lease; the others follow the program.
   A step that is not the next one of the program does nothing.
   */
  function AttemptStep(s: Session, a: Attempt, step: Step, reconstruct: (History, Manifest) -> Option<nat>)
    : (r: (Session, Attempt))
    requires a.firstCall <= s.calls && a.firstBytes <= s.bytes
  {
    match step
    case Grant(onTime) =>
      var (t, ok) := GrantCall(s, a, onTime);
      (t, if ok then a.(granted := a.granted + 1) else a)
    case CheckLease(_) => (s, a)
    case Accept(onTime, size) =>
      var (t, ok) := AcceptBytes(s, a, onTime, size);
      (t, if ok then a.(accepted := a.accepted + size) else a)
    case CollectByNumber(collected) =>
      if a.phase.Running? && a.stage.NumberStage? then (s, a.(number := Some(collected), stage := HashStage)) else (s, a)
    case CollectByHash(collected) =>
      if a.phase.Running? && a.stage.HashStage? then (s, a.(hashed := Some(collected), stage := AgreementStage)) else (s, a)
    case Agree =>
      if a.phase.Running? && a.stage.AgreementStage? && a.number.Some? && a.hashed.Some? then
        match Agreement(a)
        case Some(code) => (s, a.(phase := Raised(code)))
        case None => (s, a.(stage := ReconstructionStage))
      else (s, a)
    case Reconstruct =>
      if a.phase.Running? && a.stage.ReconstructionStage? && a.number.Some? then
        match reconstruct(a.number.value.history, a.config.manifest)
        case None => (s, a.(phase := Raised(Rejected)))
        case Some(state) => (s, a.(rebuilt := Some(state), stage := FinalStage))
      else (s, a)
    case ConfirmBoundary(observed) =>
      if a.phase.Running? && a.stage.FinalStage? && a.number.Some? && a.boundaries < 6 then
        var read := a.(observed := a.observed + [observed]);
        if observed == Boundary(a) then (s, read.(boundaries := a.boundaries + 1))
        else (s, read.(phase := Raised(if a.boundaries % 3 == 0 then FinalChain else FinalBoundary)))
      else (s, a)
    case Commit(onTime) =>
      if a.phase.Running? && a.stage.FinalStage? && a.boundaries == 6 && a.number.Some? && a.rebuilt.Some? then
        match Publish(s, a, onTime, a.number.value.history, a.rebuilt.value)
        case (t, Some(p)) => (t, a.(phase := Unwinding, returned := Some(p)))
        case (t, None) => (t, a.(phase := Raised(LeaseRefusal(s, a))))
      else (s, a)
    case Raise(code) => if a.phase.Running? then (s, a.(phase := Raised(code))) else (s, a)
    case Record =>
      if a.phase.Raised? then (RecordFailure(s, a, a.phase.code), a.(phase := Unwinding)) else (s, a)
    case Interrupt => if a.phase.Running? || a.phase.Raised? then (s, a.(phase := Unwinding)) else (s, a)
    case Expire => if a.phase.Unwinding? then (s, a.(phase := Expired, expired := true)) else (s, a)
    case Finish => if a.phase.Expired? then (Release(s, a), a.(phase := Ended)) else (s, a)
  }

  // The whole system: the session, the selections between their two sections, and every attempt ever started.

  datatype World = World(session: Session, pending: map<nat, Config>, attempts: seq<Attempt>)

  datatype Event =
    | BeginSelect(config: Config)
    | CommitSelect(generation: nat)
    | Acquire(token: Option<Token>, callable: bool)
    | On(attempt: nat, step: Step)

  const START: World := World(INITIAL, map[], [])

  ghost predicate AttemptSound(s: Session, a: Attempt, reconstruct: (History, Manifest) -> Option<nat>) {
    && a.token < s.minted && 1 <= a.generation <= s.generation
    && a.firstCall <= s.calls && a.firstBytes <= s.bytes && a.boundaries <= 6
    && (a.generation == s.generation ==> s.config == Some(a.config))
    && (s.token == Some(a.token) ==> a.generation == s.generation && a.returned.None? && !a.phase.Ended?)
    && (a.phase.Ended? || a.phase.Expired? ==> a.expired)
    && (!a.phase.Ended? ==> s.busy && s.calls == a.firstCall + a.granted && s.bytes == a.firstBytes + a.accepted)
    && (a.stage.HashStage? || a.stage.AgreementStage? || a.stage.ReconstructionStage? || a.stage.FinalStage? ==> a.number.Some?)
    && (a.stage.AgreementStage? || a.stage.ReconstructionStage? || a.stage.FinalStage? ==> a.hashed.Some?)
    && (a.stage.ReconstructionStage? || a.stage.FinalStage? ==> Agreement(a).None?)
    && (a.stage.FinalStage? ==>
         a.rebuilt.Some? && reconstruct(a.number.value.history, a.config.manifest) == a.rebuilt)
    && (a.returned.Some? ==> PublishedBy(a, a.returned.value) && !a.phase.Running? && !a.phase.Raised?)
  }

  /** Everything a publication claims, traced back to the attempt that made it. */
  ghost predicate PublishedBy(a: Attempt, p: Publication) {
    && a.stage.FinalStage? && a.boundaries == 6 && a.number.Some? && a.hashed.Some? && a.rebuilt.Some?
    && p.manifest == a.config.manifest == a.number.value.manifest == a.hashed.value.manifest
    && p.history == a.number.value.history == a.hashed.value.history
    && p.result == a.rebuilt.value
    && p.requestCount == a.granted && p.responseBytes == a.accepted
  }

  ghost predicate SessionSound(s: Session, pending: map<nat, Config>) {
    && s.calls <= MAX_CALLS && s.bytes <= MAX_BYTES && s.attempts <= MAX_ATTEMPTS
    && (forall g :: g in pending ==> 1 <= g <= s.generation && g <= MAX_SELECTIONS)
    && (s.token.Some? ==> s.token.value < s.minted && s.config.Some? && 1 <= s.generation)
    && (s.config.Some? ==> s.generation !in pending && s.generation <= MAX_SELECTIONS && Selectable(s.config.value))
    && (s.current.Some? || s.error.Some? ==> s.config.Some?)
    && (s.current.Some? ==> s.token.None? && s.error.None?)
  }

  ghost predicate Published(w: World, p: Publication) {
    exists k: nat :: k < |w.attempts| && w.attempts[k].returned == Some(p)
                     && w.attempts[k].generation == w.session.generation
  }

  ghost predicate Sound(w: World, reconstruct: (History, Manifest) -> Option<nat>) {
    && SessionSound(w.session, w.pending)
    && |w.attempts| == w.session.attempts
    && (forall k: nat :: k < |w.attempts| ==> AttemptSound(w.session, w.attempts[k], reconstruct))
    && (forall j: nat, k: nat :: j < k < |w.attempts| ==> w.attempts[j].token != w.attempts[k].token)
    && (forall k: nat :: k + 1 < |w.attempts| ==> w.attempts[k].phase.Ended?)
    && (w.session.busy ==> w.attempts != [] && !w.attempts[|w.attempts| - 1].phase.Ended?)
    && (w.session.current.Some? ==> Published(w, w.session.current.value))
  }

  function Exec(w: World, event: Event, reconstruct: (History, Manifest) -> Option<nat>): (r: World)
    requires forall k: nat :: k < |w.attempts| ==>
      w.attempts[k].firstCall <= w.session.calls && w.attempts[k].firstBytes <= w.session.bytes
  {
    match event
    case BeginSelect(config) =>
      var (s, generation) := SelectBegin(w.session);
      World(s, if generation.Some? then w.pending[generation.value := config] else w.pending, w.attempts)
    case CommitSelect(generation) =>
      if generation !in w.pending then w else
      var config, rest := w.pending[generation], w.pending - {generation};
      World(if Selectable(config) then SelectCommit(w.session, generation, config).0 else w.session, rest, w.attempts)
    case Acquire(token, callable) =>
      var (s, admission) := AcquireBegin(w.session, token, callable);
      World(s, w.pending, if admission.Admitted? then w.attempts + [admission.attempt] else w.attempts)
    case On(k, step) =>
      if k >= |w.attempts| then w else
      var (s, a) := AttemptStep(w.session, w.attempts[k], step, reconstruct);
      World(s, w.pending, w.attempts[k := a])
  }

  // Soundness is kept by every event.

  lemma SelectKeepsAttempts(s: Session, a: Attempt, reconstruct: (History, Manifest) -> Option<nat>)
    requires AttemptSound(s, a, reconstruct)
    ensures AttemptSound(SelectBegin(s).0, a, reconstruct)
  {
  }

  lemma CommitKeepsAttempts(s: Session, a: Attempt, g: nat, config: Config, reconstruct: (History, Manifest) -> Option<nat>)
    requires AttemptSound(s, a, reconstruct)
    requires s.config.None? || g != s.generation
    ensures AttemptSound(SelectCommit(s, g, config).0, a, reconstruct)
  {
  }

  ghost predicate KeepsOwn(s: Session, a: Attempt, t: Session, b: Attempt, reconstruct: (History, Manifest) -> Option<nat>) {
    && AttemptSound(t, b, reconstruct)
    && b.token == a.token && b.generation == a.generation
    && (a.phase.Ended? ==> t == s && b == a)
    && (b.phase.Ended? ==> a.phase.Ended? || !t.busy)
    && (t.busy || !s.busy || b.phase.Ended?)
  }

  lemma LeaseKeepsOwn(s: Session, a: Attempt, step: Step, reconstruct: (History, Manifest) -> Option<nat>)
    requires AttemptSound(s, a, reconstruct) && (step.Grant? || step.CheckLease? || step.Accept?)
    ensures KeepsOwn(s, a, AttemptStep(s, a, step, reconstruct).0, AttemptStep(s, a, step, reconstruct).1, reconstruct)
  {
  }

  lemma ProgramKeepsOwn(s: Session, a: Attempt, step: Step, reconstruct: (History, Manifest) -> Option<nat>)
    requires AttemptSound(s, a, reconstruct)
    requires step.CollectByNumber? || step.CollectByHash? || step.Agree? || step.Reconstruct? || step.ConfirmBoundary?
    ensures KeepsOwn(s, a, AttemptStep(s, a, step, reconstruct).0, AttemptStep(s, a, step, reconstruct).1, reconstruct)
  {
  }

  lemma CommitKeepsOwn(s: Session, a: Attempt, onTime: bool, reconstruct: (History, Manifest) -> Option<nat>)
    requires AttemptSound(s, a, reconstruct)
    ensures var (t, b) := AttemptStep(s, a, Commit(onTime), reconstruct); KeepsOwn(s, a, t, b, reconstruct)
  {
  }

  lemma EndKeepsOwn(s: Session, a: Attempt, step: Step, reconstruct: (History, Manifest) -> Option<nat>)
    requires AttemptSound(s, a, reconstruct)
    requires step.Raise? || step.Record? || step.Interrupt? || step.Expire? || step.Finish?
    ensures KeepsOwn(s, a, AttemptStep(s, a, step, reconstruct).0, AttemptStep(s, a, step, reconstruct).1, reconstruct)
  {
  }

  lemma StepKeepsOwn(s: Session, a: Attempt, step: Step, reconstruct: (History, Manifest) -> Option<nat>)
    requires AttemptSound(s, a, reconstruct)
    ensures var (t, b) := AttemptStep(s, a, step, reconstruct); KeepsOwn(s, a, t, b, reconstruct)
  {
    hide KeepsOwn, AttemptStep, AttemptSound;
    match step
    case Grant(_) => LeaseKeepsOwn(s, a, step, reconstruct);
    case CheckLease(_) => LeaseKeepsOwn(s, a, step, reconstruct);
    case Accept(_, _) => LeaseKeepsOwn(s, a, step, reconstruct);
    case Commit(onTime) => CommitKeepsOwn(s, a, onTime, reconstruct);
    case Raise(_) => EndKeepsOwn(s, a, step, reconstruct);
    case Record => EndKeepsOwn(s, a, step, reconstruct);
    case Interrupt => EndKeepsOwn(s, a, step, reconstruct);
    case Expire => EndKeepsOwn(s, a, step, reconstruct);
    case Finish => EndKeepsOwn(s, a, step, reconstruct);
    case _ => ProgramKeepsOwn(s, a, step, reconstruct);
  }

  lemma StepKeepsOthers(s: Session, a: Attempt, step: Step, other: Attempt, reconstruct: (History, Manifest) -> Option<nat>)
    requires AttemptSound(s, a, reconstruct) && AttemptSound(s, other, reconstruct)
    requires other.phase.Ended? && other.token != a.token
    ensures AttemptSound(AttemptStep(s, a, step, reconstruct).0, other, reconstruct)
  {
  }

  lemma StepKeepsSession(s: Session, a: Attempt, step: Step, pending: map<nat, Config>,
                         reconstruct: (History, Manifest) -> Option<nat>)
    requires SessionSound(s, pending) && AttemptSound(s, a, reconstruct)
    ensures var (t, b) := AttemptStep(s, a, step, reconstruct);
      && SessionSound(t, pending)
      && t.generation == s.generation && t.attempts == s.attempts && t.calls >= s.calls && t.bytes >= s.bytes
      && (t.current.Some? ==> t.current == s.current || (b.returned == t.current && b.generation == t.generation))
      && (a.returned.Some? ==> b.returned == a.returned)
  {
  }

  lemma SelectSound(w: World, config: Config, reconstruct: (History, Manifest) -> Option<nat>)
    requires Sound(w, reconstruct)
    ensures Sound(Exec(w, BeginSelect(config), reconstruct), reconstruct)
  {
    forall k: nat | k < |w.attempts|
      ensures AttemptSound(SelectBegin(w.session).0, w.attempts[k], reconstruct)
    {
      SelectKeepsAttempts(w.session, w.attempts[k], reconstruct);
    }
  }

  lemma CommitSound(w: World, g: nat, reconstruct: (History, Manifest) -> Option<nat>)
    requires Sound(w, reconstruct)
    ensures Sound(Exec(w, CommitSelect(g), reconstruct), reconstruct)
  {
    if g in w.pending {
      forall k: nat | k < |w.attempts|
        ensures AttemptSound(SelectCommit(w.session, g, w.pending[g]).0, w.attempts[k], reconstruct)
      {
        CommitKeepsAttempts(w.session, w.attempts[k], g, w.pending[g], reconstruct);
      }
      var v := Exec(w, CommitSelect(g), reconstruct);
      if v.session.current.Some? {
        var k: nat :| k < |w.attempts| && w.attempts[k].returned == Some(w.session.current.value)
                      && w.attempts[k].generation == w.session.generation;
        assert v.attempts[k].returned == v.session.current;
      }
    }
  }

  lemma AcquireSound(w: World, token: Option<Token>, callable: bool, reconstruct: (History, Manifest) -> Option<nat>)
    requires Sound(w, reconstruct)
    ensures Sound(Exec(w, Acquire(token, callable), reconstruct), reconstruct)
  {
    var (s, admission) := AcquireBegin(w.session, token, callable);
    if admission.Admitted? {
      var v := Exec(w, Acquire(token, callable), reconstruct);
      forall k: nat | k < |v.attempts|
        ensures AttemptSound(s, v.attempts[k], reconstruct)
        ensures k < |w.attempts| ==> v.attempts[k].phase.Ended? && v.attempts[k].token != admission.attempt.token
      {
        if k < |w.attempts| {
          assert AttemptSound(w.session, w.attempts[k], reconstruct);
        }
      }
    }
  }

  lemma OnSound(w: World, k: nat, step: Step, reconstruct: (History, Manifest) -> Option<nat>)
    requires Sound(w, reconstruct)
    ensures Sound(Exec(w, On(k, step), reconstruct), reconstruct)
  {
    if k < |w.attempts| {
      var v := Exec(w, On(k, step), reconstruct);
      StepKeepsOwn(w.session, w.attempts[k], step, reconstruct);
      StepKeepsSession(w.session, w.attempts[k], step, w.pending, reconstruct);
      forall j: nat | j < |v.attempts| ensures AttemptSound(v.session, v.attempts[j], reconstruct) {
        if j != k && k == |w.attempts| - 1 {
          StepKeepsOthers(w.session, w.attempts[k], step, w.attempts[j], reconstruct);
        }
      }
      PublicationKept(w, k, step, reconstruct);
    }
  }

  lemma PublicationKept(w: World, k: nat, step: Step, reconstruct: (History, Manifest) -> Option<nat>)
    requires Sound(w, reconstruct) && k < |w.attempts|
    ensures var v := Exec(w, On(k, step), reconstruct);
      v.session.current.Some? ==> Published(v, v.session.current.value)
  {
    var v := Exec(w, On(k, step), reconstruct);
    StepKeepsOwn(w.session, w.attempts[k], step, reconstruct);
    StepKeepsSession(w.session, w.attempts[k], step, w.pending, reconstruct);
    if v.session.current.Some? {
      if v.session.current == w.session.current {
        var j: nat :| j < |w.attempts| && w.attempts[j].returned == Some(w.session.current.value)
                      && w.attempts[j].generation == w.session.generation;
        assert v.attempts[j].returned == v.session.current && v.attempts[j].generation == v.session.generation;
      } else {
        assert v.attempts[k].returned == v.session.current && v.attempts[k].generation == v.session.generation;
      }
    }
  }

  lemma ExecSound(w: World, event: Event, reconstruct: (History, Manifest) -> Option<nat>)
    requires Sound(w, reconstruct)
    ensures Sound(Exec(w, event, reconstruct), reconstruct)
  {
    match event
    case BeginSelect(config) => SelectSound(w, config, reconstruct);
    case CommitSelect(g) => CommitSound(w, g, reconstruct);
    case Acquire(token, callable) => AcquireSound(w, token, callable, reconstruct);
    case On(k, step) => OnSound(w, k, step, reconstruct);
  }

  ghost function Runs(events: seq<Event>, reconstruct: (History, Manifest) -> Option<nat>): (w: World)
    ensures Sound(w, reconstruct)
  {
    if events == [] then START else
    var before := Runs(events[..|events| - 1], reconstruct);
    ExecSound(before, events[|events| - 1], reconstruct);
    Exec(before, events[|events| - 1], reconstruct)
  }

  // The theorems, over every interleaving.

  /**
   No superseded result is ever published: what is current carries the manifest of the
   configuration now selected, and was agreed on, rebuilt and confirmed by one attempt
   that started under this very selection.
   */
  lemma {:induction false} CurrentIsSelected(events: seq<Event>, reconstruct: (History, Manifest) -> Option<nat>)
    requires Runs(events, reconstruct).session.current.Some?
    ensures var w := Runs(events, reconstruct); var p := w.session.current.value;
      && w.session.config.Some? && p.manifest == w.session.config.value.manifest && Selectable(w.session.config.value)
      && reconstruct(p.history, p.manifest) == Some(p.result)
      && exists k: nat :: k < |w.attempts| && w.attempts[k].generation == w.session.generation
                          && PublishedBy(w.attempts[k], p)
  {
    var w := Runs(events, reconstruct);
    var p := w.session.current.value;
    assert Published(w, p);
    var k: nat :| k < |w.attempts| && w.attempts[k].returned == Some(p) && w.attempts[k].generation == w.session.generation;
    assert AttemptSound(w.session, w.attempts[k], reconstruct);
  }

  /** The result an attempt returns counts exactly the calls and bytes granted to that attempt. */
  lemma {:induction false} PublishedCounts(events: seq<Event>, k: nat, reconstruct: (History, Manifest) -> Option<nat>)
    requires k < |Runs(events, reconstruct).attempts| && Runs(events, reconstruct).attempts[k].returned.Some?
    ensures var a := Runs(events, reconstruct).attempts[k];
      PublishedBy(a, a.returned.value)
  {
    assert AttemptSound(Runs(events, reconstruct).session, Runs(events, reconstruct).attempts[k], reconstruct);
  }

  // The closing reads.

  /** What the six closing reads of a history have to return, in order. */
  function ClosingReads(h: History): (r: seq<nat>)
    ensures |r| == 6
  {
    [31337, h.startBlock, h.endBlock, 31337, h.startBlock, h.endBlock]
  }

  /** The reads an attempt has got through are the first it had to make, each with the value it had to return. */
  ghost predicate ReadSoFar(a: Attempt) {
    && (!a.stage.FinalStage? ==> a.boundaries == 0 && a.observed == [])
    && (a.stage.FinalStage? ==> a.number.Some? && a.boundaries <= 6)
    && (a.stage.FinalStage? && (a.phase.Running? || a.returned.Some?) ==>
         a.observed == ClosingReads(a.number.value.history)[..a.boundaries])
    && (a.returned.Some? ==>
         a.stage.FinalStage? && a.boundaries == 6 && a.number.value.history == a.returned.value.history && !a.phase.Running?)
  }

  lemma BoundaryIsNext(a: Attempt)
    requires a.number.Some? && a.boundaries < 6
    ensures Boundary(a) == ClosingReads(a.number.value.history)[a.boundaries]
  {
  }

  lemma StepReads(s: Session, a: Attempt, step: Step, reconstruct: (History, Manifest) -> Option<nat>)
    requires a.firstCall <= s.calls && a.firstBytes <= s.bytes && ReadSoFar(a)
    requires a.stage.ReconstructionStage? ==> a.number.Some?
    ensures ReadSoFar(AttemptStep(s, a, step, reconstruct).1)
  {
    if step.ConfirmBoundary? && a.stage.FinalStage? && a.boundaries < 6 {
      BoundaryIsNext(a);
      hide ClosingReads;
      var due := ClosingReads(a.number.value.history);
      assert due[..a.boundaries + 1] == due[..a.boundaries] + [due[a.boundaries]];
    }
  }

  /** One event changes one attempt at most, and that by one step. */
  lemma ExecOn(w: World, event: Event, k: nat, reconstruct: (History, Manifest) -> Option<nat>)
    requires Sound(w, reconstruct) && k < |w.attempts|
    ensures var a, v := w.attempts[k], Exec(w, event, reconstruct);
      && a.firstCall <= w.session.calls && a.firstBytes <= w.session.bytes && AttemptSound(w.session, a, reconstruct)
      && k < |v.attempts|
      && v.attempts[k] == if event.On? && event.attempt == k then AttemptStep(w.session, a, event.step, reconstruct).1 else a
  {
    hide AttemptStep;
  }

  lemma NewcomersRead(w: World, event: Event, k: nat, reconstruct: (History, Manifest) -> Option<nat>)
    requires Sound(w, reconstruct) && |w.attempts| <= k < |Exec(w, event, reconstruct).attempts|
    ensures ReadSoFar(Exec(w, event, reconstruct).attempts[k])
  {
    hide AttemptStep;
  }

  lemma ExecReads(w: World, event: Event, k: nat, reconstruct: (History, Manifest) -> Option<nat>)
    requires Sound(w, reconstruct) && k < |w.attempts| && ReadSoFar(w.attempts[k])
    ensures k < |Exec(w, event, reconstruct).attempts| && ReadSoFar(Exec(w, event, reconstruct).attempts[k])
  {
    ExecOn(w, event, k, reconstruct);
    if event.On? && event.attempt == k {
      StepReads(w.session, w.attempts[k], event.step, reconstruct);
    }
    hide AttemptStep, ReadSoFar, Exec;
  }

  lemma {:induction false} AllReadSoFar(events: seq<Event>, k: nat, reconstruct: (History, Manifest) -> Option<nat>)
    requires k < |Runs(events, reconstruct).attempts|
    ensures ReadSoFar(Runs(events, reconstruct).attempts[k])
  {
    hide Sound, Exec, ReadSoFar;
    if events != [] {
      var before, event := Runs(events[..|events| - 1], reconstruct), events[|events| - 1];
      if k < |before.attempts| {
        AllReadSoFar(events[..|events| - 1], k, reconstruct);
        ExecReads(before, event, k, reconstruct);
      } else {
        NewcomersRead(before, event, k, reconstruct);
      }
    }
  }

  /**
   Whatever is published was confirmed: the values its six closing reads returned are, in
   order, the chain, its start header and its end header, and the same three again; and the
   end header is that of the last block.
   */
  lemma PublishedIsConfirmed(events: seq<Event>, k: nat, reconstruct: (History, Manifest) -> Option<nat>)
    requires k < |Runs(events, reconstruct).attempts| && Runs(events, reconstruct).attempts[k].returned.Some?
    ensures var a := Runs(events, reconstruct).attempts[k]; var h := a.returned.value.history;
      && a.observed == [31337, h.startBlock, h.endBlock, 31337, h.startBlock, h.endBlock]
      && h.blocks != [] && h.endBlock == h.blocks[|h.blocks| - 1]
  {
    AllReadSoFar(events, k, reconstruct);
    AttemptOfRun(events, k, reconstruct);
    hide *;
    ReadInFull(Runs(events, reconstruct).session, Runs(events, reconstruct).attempts[k], reconstruct);
  }

  lemma AttemptOfRun(events: seq<Event>, k: nat, reconstruct: (History, Manifest) -> Option<nat>)
    requires k < |Runs(events, reconstruct).attempts|
    ensures AttemptSound(Runs(events, reconstruct).session, Runs(events, reconstruct).attempts[k], reconstruct)
  {
    hide Runs, AttemptSound, SessionSound;
  }

  lemma ReadInFull(s: Session, a: Attempt, reconstruct: (History, Manifest) -> Option<nat>)
    requires AttemptSound(s, a, reconstruct) && ReadSoFar(a) && a.returned.Some?
    ensures var h := a.returned.value.history;
      && a.observed == [31337, h.startBlock, h.endBlock, 31337, h.startBlock, h.endBlock]
      && h.blocks != [] && h.endBlock == h.blocks[|h.blocks| - 1]
  {
  }

  // What each section decides.

  /** A lease is granted a call exactly while its attempt holds the present token, is not over and not late, and calls are left; bytes likewise. */
  lemma LeaseDecision(s: Session, a: Attempt, onTime: bool, size: nat, reconstruct: (History, Manifest) -> Option<nat>)
    requires a.firstCall <= s.calls && a.firstBytes <= s.bytes
    ensures var live := !a.expired && s.generation == a.generation && s.token == Some(a.token) && onTime;
      && AttemptStep(s, a, Grant(onTime), reconstruct)
         == (if live && s.calls < 1800 then (s.(calls := s.calls + 1), a.(granted := a.granted + 1)) else (s, a))
      && AttemptStep(s, a, Accept(onTime, size), reconstruct)
         == if live && s.bytes + size <= 33554432 then (s.(bytes := s.bytes + size), a.(accepted := a.accepted + size)) else (s, a)
  {
  }

  /** The commit of a confirmed attempt that is late or no longer current publishes nothing, and says why. */
  lemma LateIsNotPublished(s: Session, a: Attempt, onTime: bool, reconstruct: (History, Manifest) -> Option<nat>)
    requires a.firstCall <= s.calls && a.firstBytes <= s.bytes && a.phase.Running? && a.stage.FinalStage? && a.boundaries == 6
    requires a.number.Some? && a.rebuilt.Some?
    requires a.expired || s.generation != a.generation || s.token != Some(a.token) || !onTime
    ensures AttemptStep(s, a, Commit(onTime), reconstruct) == (s, a.(phase := Raised(
      if a.expired || s.generation != a.generation || s.token != Some(a.token) then Superseded else Deadline)))
  {
  }

  /** Two collections agree exactly if both manifests are the selected one, the histories are one, and its end is that of its last block. */
  lemma AgreementDecision(s: Session, a: Attempt, reconstruct: (History, Manifest) -> Option<nat>)
    requires a.firstCall <= s.calls && a.firstBytes <= s.bytes
    requires a.phase.Running? && a.stage.AgreementStage? && a.number.Some? && a.hashed.Some?
    ensures var n, h := a.number.value, a.hashed.value;
      var (t, b) := AttemptStep(s, a, Agree, reconstruct);
      && t == s
      && (b == a.(stage := ReconstructionStage) <==>
           && n.manifest == a.config.manifest && h.manifest == a.config.manifest && n.history == h.history
           && n.history.blocks != [] && n.history.endBlock == n.history.blocks[|n.history.blocks| - 1])
      && (b != a.(stage := ReconstructionStage) ==> b == a.(phase := Raised(
           if n.manifest != a.config.manifest || h.manifest != a.config.manifest then ManifestDisagreement
           else if n.history != h.history then HistoryDisagreement
           else if n.history.blocks == [] then Rejected else EndpointFields)))
  {
  }

  // What it takes to be published.

  /** The steps of one attempt, with the two collections and the six closing reads it makes. */
  function Program(collected: Collected): (r: seq<Step>)
    ensures |r| == 11
  {
    var h := collected.history;
    [CollectByNumber(collected), CollectByHash(collected), Agree, Reconstruct,
     ConfirmBoundary(CHAIN), ConfirmBoundary(h.startBlock), ConfirmBoundary(h.endBlock),
     ConfirmBoundary(CHAIN), ConfirmBoundary(h.startBlock), ConfirmBoundary(h.endBlock), Commit(true)]
  }

  /** The first n steps of the program, taken by one attempt. */
  function Taken(k: nat, collected: Collected, n: nat): (r: seq<Event>)
    requires n <= 11
    ensures |r| == n
  {
    seq(n, i requires 0 <= i < n => On(k, Program(collected)[i]))
  }

  /** What an attempt that has taken the first n of these steps holds, short of the last. */
  function Progressed(a: Attempt, collected: Collected, state: nat, n: nat): Attempt
    requires n <= 10
  {
    var stage := if n == 0 then NumberStage else if n == 1 then HashStage else if n == 2 then AgreementStage
      else if n == 3 then ReconstructionStage else FinalStage;
    a.(stage := stage, number := if 1 <= n then Some(collected) else a.number,
       hashed := if 2 <= n then Some(collected) else a.hashed, rebuilt := if 4 <= n then Some(state) else a.rebuilt,
       boundaries := if 4 <= n then n - 4 else 0, observed := ClosingReads(collected.history)[..if 4 <= n then n - 4 else 0])
  }

  /** An attempt just started, over collections that agree with its selection and can be rebuilt. */
  ghost predicate Started(w: World, k: nat, collected: Collected, state: nat, reconstruct: (History, Manifest) -> Option<nat>) {
    && Sound(w, reconstruct) && k < |w.attempts|
    && var a, h := w.attempts[k], collected.history;
    && a.phase.Running? && a.stage.NumberStage? && a.boundaries == 0 && a.observed == [] && !a.expired
    && Current(w.session, a) && collected.manifest == a.config.manifest
    && h.blocks != [] && h.endBlock == h.blocks[|h.blocks| - 1] && reconstruct(h, a.config.manifest) == Some(state)
  }

  lemma TakesStep(s: Session, a: Attempt, collected: Collected, state: nat, n: nat,
                  reconstruct: (History, Manifest) -> Option<nat>)
    requires a.firstCall <= s.calls && a.firstBytes <= s.bytes && n < 10
    requires a.phase.Running? && a.boundaries == 0 && a.observed == [] && collected.manifest == a.config.manifest
    requires collected.history.blocks != []
    requires collected.history.endBlock == collected.history.blocks[|collected.history.blocks| - 1]
    requires reconstruct(collected.history, a.config.manifest) == Some(state)
    ensures AttemptStep(s, Progressed(a, collected, state, n), Program(collected)[n], reconstruct)
         == (s, Progressed(a, collected, state, n + 1))
  {
    var due := ClosingReads(collected.history);
    if 4 <= n {
      assert due[..n - 3] == due[..n - 4] + [due[n - 4]];
    }
  }

  lemma {:induction false} TakesSteps(w: World, k: nat, collected: Collected, state: nat, n: nat,
                                      reconstruct: (History, Manifest) -> Option<nat>)
    requires Started(w, k, collected, state, reconstruct) && n <= 10
    ensures From(w, Taken(k, collected, n), reconstruct)
         == w.(attempts := w.attempts[k := Progressed(w.attempts[k], collected, state, n)])
  {
    hide AttemptStep, AttemptSound, SessionSound, Progressed, Program;
    if n == 0 {
      NothingTaken(w.attempts[k], collected, state);
      assert w.attempts[k := w.attempts[k]] == w.attempts;
    } else {
      TakesSteps(w, k, collected, state, n - 1, reconstruct);
      assert Taken(k, collected, n)[..n - 1] == Taken(k, collected, n - 1);
      assert AttemptSound(w.session, w.attempts[k], reconstruct);
      StartsWithin(w.session, w.attempts[k], reconstruct);
      TakesStep(w.session, w.attempts[k], collected, state, n - 1, reconstruct);
    }
  }

  lemma StartsWithin(s: Session, a: Attempt, reconstruct: (History, Manifest) -> Option<nat>)
    requires AttemptSound(s, a, reconstruct)
    ensures a.firstCall <= s.calls && a.firstBytes <= s.bytes
  {
  }

  lemma NothingTaken(a: Attempt, collected: Collected, state: nat)
    requires a.stage.NumberStage? && a.boundaries == 0 && a.observed == []
    ensures Progressed(a, collected, state, 0) == a
  {
  }

  /**
   An attempt that nothing disturbs, whose two collections agree with each other and with
   the selection, can be rebuilt, and are confirmed by all six closing reads, is published:
   the session then holds its manifest, history, result and counts, and no error.
   */
  lemma UndisturbedIsPublished(w: World, k: nat, collected: Collected, state: nat,
                               reconstruct: (History, Manifest) -> Option<nat>)
    requires Started(w, k, collected, state, reconstruct)
    ensures var a, v := w.attempts[k], From(w, Taken(k, collected, 11), reconstruct);
      var p := Publication(collected.manifest, collected.history, state, w.session.calls - a.firstCall, w.session.bytes - a.firstBytes);
      && v.session == w.session.(current := Some(p), token := None, error := None)
      && k < |v.attempts| && v.attempts[k].returned == Some(p)
  {
    hide *;
    StartsSound(w, k, collected, state, reconstruct);
    TakesSteps(w, k, collected, state, 10, reconstruct);
    LastTaken(w, k, collected, reconstruct);
    PublishesLast(From(w, Taken(k, collected, 10), reconstruct), k, w.attempts[k], collected, state, reconstruct);
  }

  lemma LastTaken(w: World, k: nat, collected: Collected, reconstruct: (History, Manifest) -> Option<nat>)
    requires Sound(w, reconstruct)
    ensures From(w, Taken(k, collected, 11), reconstruct)
         == Exec(From(w, Taken(k, collected, 10), reconstruct), On(k, Program(collected)[10]), reconstruct)
  {
    hide Exec, Sound, Program;
    assert Taken(k, collected, 11)[..10] == Taken(k, collected, 10);
  }

  lemma PublishesLast(w: World, k: nat, a: Attempt, collected: Collected, state: nat,
                      reconstruct: (History, Manifest) -> Option<nat>)
    requires Sound(w, reconstruct) && k < |w.attempts| && w.attempts[k] == Progressed(a, collected, state, 10)
    requires a.firstCall <= w.session.calls && a.firstBytes <= w.session.bytes && a.phase.Running? && !a.expired
    requires Current(w.session, a) && collected.manifest == a.config.manifest
    ensures var v := Exec(w, On(k, Program(collected)[10]), reconstruct);
      var p := Publication(collected.manifest, collected.history, state, w.session.calls - a.firstCall, w.session.bytes - a.firstBytes);
      && v.session == w.session.(current := Some(p), token := None, error := None)
      && k < |v.attempts| && v.attempts[k].returned == Some(p)
  {
    hide *;
    ExecOne(w, k, Program(collected)[10], reconstruct);
    Commits(w.session, a, collected, state, reconstruct);
  }

  lemma StartsSound(w: World, k: nat, collected: Collected, state: nat, reconstruct: (History, Manifest) -> Option<nat>)
    requires Started(w, k, collected, state, reconstruct)
    ensures Sound(w, reconstruct) && k < |w.attempts|
    ensures var a := w.attempts[k];
      && a.firstCall <= w.session.calls && a.firstBytes <= w.session.bytes && a.phase.Running? && !a.expired
      && Current(w.session, a) && collected.manifest == a.config.manifest
  {
    assert AttemptSound(w.session, w.attempts[k], reconstruct);
  }

  lemma ExecOne(w: World, k: nat, step: Step, reconstruct: (History, Manifest) -> Option<nat>)
    requires Sound(w, reconstruct) && k < |w.attempts|
    ensures var a, v := w.attempts[k], Exec(w, On(k, step), reconstruct);
      && a.firstCall <= w.session.calls && a.firstBytes <= w.session.bytes && |v.attempts| == |w.attempts|
      && (v.session, v.attempts[k]) == AttemptStep(w.session, a, step, reconstruct)
  {
    assert AttemptSound(w.session, w.attempts[k], reconstruct);
    hide AttemptStep;
  }

  lemma Commits(s: Session, a: Attempt, collected: Collected, state: nat, reconstruct: (History, Manifest) -> Option<nat>)
    requires a.firstCall <= s.calls && a.firstBytes <= s.bytes && a.phase.Running? && !a.expired && Current(s, a)
    requires collected.manifest == a.config.manifest
    ensures var p := Publication(collected.manifest, collected.history, state, s.calls - a.firstCall, s.bytes - a.firstBytes);
      var (t, b) := AttemptStep(s, Progressed(a, collected, state, 10), Program(collected)[10], reconstruct);
      t == s.(current := Some(p), token := None, error := None) && b.returned == Some(p)
  {
  }

  /** And an acquisition is started exactly with the present token, in an idle session, for the first four attempts. */
  lemma AcquisitionStarts(w: World, token: Option<Token>, callable: bool, reconstruct: (History, Manifest) -> Option<nat>)
    requires Sound(w, reconstruct)
    ensures var v := Exec(w, Acquire(token, callable), reconstruct);
      if token.Some? && token == w.session.token && !w.session.busy && w.session.attempts < 4 && callable then
        && |v.attempts| == |w.attempts| + 1 && v.session == w.session.(attempts := w.session.attempts + 1, busy := true)
        && var a := v.attempts[|w.attempts|];
        && a.phase.Running? && a.stage.NumberStage? && a.boundaries == 0 && a.observed == [] && !a.expired
        && Current(v.session, a) && w.session.config == Some(a.config)
        && (a.firstCall, a.firstBytes) == (w.session.calls, w.session.bytes)
      else v == w
  {
  }

  /** An attempt that has failed or been interrupted without returning never returns. */
  lemma {:induction false} NeverReturns(w: World, events: seq<Event>, k: nat, reconstruct: (History, Manifest) -> Option<nat>)
    requires Sound(w, reconstruct) && k < |w.attempts| && !w.attempts[k].phase.Running? && w.attempts[k].returned.None?
    ensures var v := From(w, events, reconstruct);
      k < |v.attempts| && !v.attempts[k].phase.Running? && v.attempts[k].returned.None?
  {
    hide Sound, Exec, AttemptStep;
    if events != [] {
      var before := From(w, events[..|events| - 1], reconstruct);
      NeverReturns(w, events[..|events| - 1], k, reconstruct);
      ExecOn(before, events[|events| - 1], k, reconstruct);
      if events[|events| - 1].On? {
        StepEnds(before.session, before.attempts[k], events[|events| - 1].step, reconstruct);
      }
    }
  }

  lemma StepEnds(s: Session, a: Attempt, step: Step, reconstruct: (History, Manifest) -> Option<nat>)
    requires a.firstCall <= s.calls && a.firstBytes <= s.bytes && !a.phase.Running? && a.returned.None?
    ensures var b := AttemptStep(s, a, step, reconstruct).1;
      && !b.phase.Running? && b.returned.None?
      && (b.phase.Raised? ==> a.phase == b.phase && a.stage == b.stage)
  {
  }

  /**
   A closing read that returns another value ends the attempt: it never publishes, and once
   its failure is recorded while it is still current the session has nothing current, and
   for its error the chain or the boundary that did not hold.
   */
  lemma WrongClosingRead(w: World, k: nat, observed: nat, between: seq<Event>, reconstruct: (History, Manifest) -> Option<nat>)
    requires Sound(w, reconstruct) && k < |w.attempts| && w.attempts[k].phase.Running? && w.attempts[k].stage.FinalStage?
    requires w.attempts[k].number.Some? && w.attempts[k].boundaries < 6
    requires observed != ClosingReads(w.attempts[k].number.value.history)[w.attempts[k].boundaries]
    ensures var code := if w.attempts[k].boundaries in {0, 3} then FinalChain else FinalBoundary;
      var failed := Exec(w, On(k, ConfirmBoundary(observed)), reconstruct);
      && Sound(failed, reconstruct)
      && failed.session == w.session && failed.attempts[k].phase == Raised(code) && failed.attempts[k].stage == FinalStage
      && var v := From(failed, between, reconstruct);
      && k < |v.attempts| && v.attempts[k].returned.None?
      && (v.attempts[k].phase.Raised? ==> Recorded(v, Exec(v, On(k, Record), reconstruct), k, code))
  {
    var failed := Exec(w, On(k, ConfirmBoundary(observed)), reconstruct);
    ExecSound(w, On(k, ConfirmBoundary(observed)), reconstruct);
    WrongRead(w, k, observed, reconstruct);
    hide Sound, Exec;
    NeverReturns(failed, between, k, reconstruct);
    StaysRaised(failed, between, k, reconstruct);
    if From(failed, between, reconstruct).attempts[k].phase.Raised? {
      RecordsFailure(From(failed, between, reconstruct), k, reconstruct);
    }
  }

  /** How a failure in the final stage is recorded: only while the attempt is current. */
  ghost predicate Recorded(v: World, after: World, k: nat, code: Code)
    requires k < |v.attempts|
  {
    if Current(v.session, v.attempts[k])
    then after.session.error == Some(Failure(FinalStage, code)) && after.session.current.None? && after.session.token.None?
    else after.session == v.session
  }

  lemma WrongRead(w: World, k: nat, observed: nat, reconstruct: (History, Manifest) -> Option<nat>)
    requires Sound(w, reconstruct) && k < |w.attempts| && w.attempts[k].phase.Running? && w.attempts[k].stage.FinalStage?
    requires w.attempts[k].number.Some? && w.attempts[k].boundaries < 6
    requires observed != ClosingReads(w.attempts[k].number.value.history)[w.attempts[k].boundaries]
    ensures var code := if w.attempts[k].boundaries in {0, 3} then FinalChain else FinalBoundary;
      var failed := Exec(w, On(k, ConfirmBoundary(observed)), reconstruct);
      && failed.session == w.session && failed.attempts[k].phase == Raised(code) && failed.attempts[k].stage == FinalStage
      && failed.attempts[k].returned.None?
  {
    BoundaryIsNext(w.attempts[k]);
    assert AttemptSound(w.session, w.attempts[k], reconstruct);
    hide ClosingReads, Boundary;
  }

  lemma RecordsFailure(v: World, k: nat, reconstruct: (History, Manifest) -> Option<nat>)
    requires Sound(v, reconstruct) && k < |v.attempts| && v.attempts[k].phase.Raised? && v.attempts[k].stage.FinalStage?
    ensures Recorded(v, Exec(v, On(k, Record), reconstruct), k, v.attempts[k].phase.code)
  {
  }

  /** The cause of a failure and the stage it came from do not change while the failure waits to be recorded. */
  lemma {:induction false} StaysRaised(w: World, events: seq<Event>, k: nat, reconstruct: (History, Manifest) -> Option<nat>)
    requires Sound(w, reconstruct) && k < |w.attempts| && w.attempts[k].phase.Raised? && w.attempts[k].returned.None?
    ensures var v := From(w, events, reconstruct);
      && k < |v.attempts| && !v.attempts[k].phase.Running?
      && (v.attempts[k].phase.Raised? ==>
           v.attempts[k].phase == w.attempts[k].phase && v.attempts[k].stage == w.attempts[k].stage)
  {
    hide Sound, Exec, AttemptStep;
    NeverReturns(w, events, k, reconstruct);
    if events != [] {
      var before := From(w, events[..|events| - 1], reconstruct);
      NeverReturns(w, events[..|events| - 1], k, reconstruct);
      StaysRaised(w, events[..|events| - 1], k, reconstruct);
      ExecOn(before, events[|events| - 1], k, reconstruct);
      if events[|events| - 1].On? {
        StepEnds(before.session, before.attempts[k], events[|events| - 1].step, reconstruct);
      }
    }
  }

  /**
   Once superseded, or once its token is spent, an attempt's steps change nothing but the
   busy flag, however it ends: by success, by an error or by an interrupt.
   */
  lemma {:induction false} SupersededIsInert(s: Session, a: Attempt, step: Step, reconstruct: (History, Manifest) -> Option<nat>)
    requires AttemptSound(s, a, reconstruct) && (a.generation < s.generation || s.token != Some(a.token))
    ensures var (t, b) := AttemptStep(s, a, step, reconstruct);
      && t == s.(busy := t.busy) && (t.busy != s.busy ==> step.Finish?)
      && b.generation == a.generation
  {
  }

  /** And superseded it stays. */
  lemma {:induction false} SupersededForever(w: World, events: seq<Event>, k: nat,
                                             reconstruct: (History, Manifest) -> Option<nat>)
    requires Sound(w, reconstruct) && k < |w.attempts| && w.attempts[k].generation < w.session.generation
    ensures var v := From(w, events, reconstruct);
      k < |v.attempts| && v.attempts[k].generation == w.attempts[k].generation && v.session.generation >= w.session.generation
  {
    if events != [] {
      SupersededForever(w, events[..|events| - 1], k, reconstruct);
      Progress(From(w, events[..|events| - 1], reconstruct), events[|events| - 1], reconstruct);
    }
  }

  ghost function From(w: World, events: seq<Event>, reconstruct: (History, Manifest) -> Option<nat>): (v: World)
    requires Sound(w, reconstruct)
    ensures Sound(v, reconstruct)
  {
    if events == [] then w else
    var before := From(w, events[..|events| - 1], reconstruct);
    ExecSound(before, events[|events| - 1], reconstruct);
    Exec(before, events[|events| - 1], reconstruct)
  }

  /** The counters of v are at least those of w, and the attempts of w keep their identity in v. */
  ghost predicate After(w: World, v: World) {
    && v.session.generation >= w.session.generation && v.session.attempts >= w.session.attempts
    && v.session.calls >= w.session.calls && v.session.bytes >= w.session.bytes
    && |v.attempts| >= |w.attempts|
    && forall k: nat :: k < |w.attempts| ==>
         v.attempts[k].generation == w.attempts[k].generation && v.attempts[k].token == w.attempts[k].token
  }

  lemma OnProgress(w: World, k: nat, step: Step, reconstruct: (History, Manifest) -> Option<nat>)
    requires Sound(w, reconstruct)
    ensures After(w, Exec(w, On(k, step), reconstruct))
  {
    if k < |w.attempts| {
      StepKeepsOwn(w.session, w.attempts[k], step, reconstruct);
      StepKeepsSession(w.session, w.attempts[k], step, w.pending, reconstruct);
    }
  }

  lemma Progress(w: World, event: Event, reconstruct: (History, Manifest) -> Option<nat>)
    requires Sound(w, reconstruct)
    ensures After(w, Exec(w, event, reconstruct))
  {
    if event.On? {
      OnProgress(w, event.attempt, event.step, reconstruct);
    }
  }

  /**
   The quotas hold over the whole life of the session and never reset: at most one attempt
   is in flight, no token starts two, the counters only grow and never pass their caps.
   */
  lemma {:induction false} Quotas(w: World, events: seq<Event>, reconstruct: (History, Manifest) -> Option<nat>)
    requires Sound(w, reconstruct)
    ensures var v := From(w, events, reconstruct);
      && w.session.calls <= v.session.calls <= MAX_CALLS
      && w.session.bytes <= v.session.bytes <= MAX_BYTES
      && w.session.attempts <= v.session.attempts == |v.attempts| <= MAX_ATTEMPTS
      && (forall j: nat, k: nat :: j < k < |v.attempts| ==> v.attempts[j].token != v.attempts[k].token)
      && (forall j: nat, k: nat | j < |v.attempts| && k < |v.attempts| ::
            v.attempts[j].phase.Ended? || v.attempts[k].phase.Ended? || j == k)
      && (v.session.busy <==> exists k: nat :: k < |v.attempts| && !v.attempts[k].phase.Ended?)
  {
    var v := From(w, events, reconstruct);
    if events != [] {
      Quotas(w, events[..|events| - 1], reconstruct);
      Progress(From(w, events[..|events| - 1], reconstruct), events[|events| - 1], reconstruct);
    }
    forall k: nat | k < |v.attempts| && !v.attempts[k].phase.Ended? ensures v.session.busy {
      assert AttemptSound(v.session, v.attempts[k], reconstruct);
    }
  }

  /** After the 33rd selection the session can neither select, hand out a token, nor publish, ever again. */
  lemma {:induction false} SelectionsRunOut(w: World, events: seq<Event>, reconstruct: (History, Manifest) -> Option<nat>)
    requires Sound(w, reconstruct) && w.session.generation > MAX_SELECTIONS
    ensures var s := From(w, events, reconstruct).session;
      s.generation > MAX_SELECTIONS && s.token.None? && s.config.None? && s.current.None? && s.error.None?
  {
    if events != [] {
      SelectionsRunOut(w, events[..|events| - 1], reconstruct);
      Progress(From(w, events[..|events| - 1], reconstruct), events[|events| - 1], reconstruct);
    }
  }

  /** Every generation is one call of select, so the 33rd call is the one that closes the session. */
  function Selections(events: seq<Event>): nat {
    if events == [] then 0
    else Selections(events[..|events| - 1]) + if events[|events| - 1].BeginSelect? then 1 else 0
  }

  lemma {:induction false} GenerationCountsSelections(events: seq<Event>, reconstruct: (History, Manifest) -> Option<nat>)
    ensures Runs(events, reconstruct).session.generation == Selections(events)
    ensures Selections(events) > MAX_SELECTIONS ==>
      var s := Runs(events, reconstruct).session;
      s.token.None? && s.config.None? && s.current.None?
  {
    if events != [] {
      var before, event := Runs(events[..|events| - 1], reconstruct), events[|events| - 1];
      GenerationCountsSelections(events[..|events| - 1], reconstruct);
      if event.On? && event.attempt < |before.attempts| {
        StepKeepsSession(before.session, before.attempts[event.attempt], event.step, before.pending, reconstruct);
      }
    }
  }

  // The session object itself: one method per locked section.

  class Live {
    var generation: nat
    var attempts: nat
    var calls: nat
    var bytes: nat
    var token: Option<Token>
    var config: Option<Config>
    var current: Option<Publication>
    var error: Option<Failure>
    var busy: bool
    var minted: nat

    ghost function State(): Session
      reads this
    {
      Session(generation, attempts, calls, bytes, token, config, current, error, busy, minted)
    }

    constructor ()
      ensures State() == INITIAL
    {
      generation, attempts, calls, bytes := 0, 0, 0, 0;
      token, config, current, error := None, None, None, None;
      busy, minted := false, 0;
    }

    method BeginSelection() returns (selection: Option<nat>)
      modifies this
      ensures (State(), selection) == SelectBegin(old(State()))
    {
      current, token, config, error := None, None, None, None;
      generation := generation + 1;
      if generation > MAX_SELECTIONS {
        return None;
      }
      selection := Some(generation);
    }

    method CommitSelection(selection: nat, selected: Config) returns (r: Option<Token>)
      modifies this
      ensures (State(), r) == SelectCommit(old(State()), selection, selected)
    {
      if selection != generation {
        return None;
      }
      config := Some(selected);
      token := Some(minted);
      minted := minted + 1;
      r := token;
    }

    method BeginAcquisition(presented: Option<Token>, callable: bool) returns (r: Admission)
      modifies this
      ensures (State(), r) == AcquireBegin(old(State()), presented, callable)
    {
      if presented != token || token.None? || config.None? {
        return Refused(StaleToken);
      }
      if busy {
        return Refused(Code.Busy);
      }
      if attempts >= MAX_ATTEMPTS {
        return Refused(AttemptLimit);
      }
      if !callable {
        return Refused(Transport);
      }
      attempts := attempts + 1;
      busy := true;
      r := Admitted(Attempt(token.value, generation, config.value, calls, bytes,
                            Running, false, NumberStage, None, None, None, 0, [], 0, 0, None));
    }

    method IsActive(a: Attempt, onTime: bool) returns (r: bool)
      ensures r == Active(State(), a, onTime)
    {
      r := !a.expired && token == Some(a.token) && generation == a.generation && onTime;
    }

    method GrantLease(a: Attempt, onTime: bool) returns (granted: bool)
      modifies this
      ensures (State(), granted) == GrantCall(old(State()), a, onTime)
    {
      var active := IsActive(a, onTime);
      if !active || calls >= MAX_CALLS {
        return false;
      }
      calls := calls + 1;
      granted := true;
    }

    method AcceptResponse(a: Attempt, onTime: bool, size: nat) returns (accepted: bool)
      modifies this
      ensures (State(), accepted) == AcceptBytes(old(State()), a, onTime, size)
    {
      var active := IsActive(a, onTime);
      if !active || bytes + size > MAX_BYTES {
        return false;
      }
      bytes := bytes + size;
      accepted := true;
    }

    method PublishResult(a: Attempt, onTime: bool, history: History, result: nat) returns (r: Option<Publication>)
      requires a.firstCall <= calls && a.firstBytes <= bytes
      modifies this
      ensures (State(), r) == Publish(old(State()), a, onTime, history, result)
    {
      var active := IsActive(a, onTime);
      if !active {
        return None;
      }
      var replacement := Publication(a.config.manifest, history, result, calls - a.firstCall, bytes - a.firstBytes);
      current := Some(replacement);
      token := None;
      error := None;
      r := Some(replacement);
    }

    method RecordError(a: Attempt, code: Code)
      modifies this
      ensures State() == RecordFailure(old(State()), a, code)
    {
      if generation == a.generation && token == Some(a.token) {
        current, token := None, None;
        error := Some(Failure(a.stage, code));
      }
    }

    method EndAcquisition(a: Attempt)
      modifies this
      ensures State() == Release(old(State()), a)
    {
      RecordError(a, Interrupted);
      busy := false;
    }
  }
}
