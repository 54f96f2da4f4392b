/**
 The rollback node's phase and lease machine. Requests that wait for the node, reads through
 a lease and the controller's snapshot and revert, are split into a begin and an end, so
 that other calls may arrive while they are in flight. The base guard's parameter checks and
 the replies of the node are inputs.
 */
module ReorgNode {
  import opened Wrappers

  datatype Phase = Prefix | WriteLeft | ReadLeft | SwitchAtAncestor | WriteRight | ReadRight | Closed

  datatype Branch = Left | Right

  datatype RpcMethod =
    | EvmSnapshot | EvmRevert
    | ChainId | GetBlockByNumber | GetBlockByHash | GetTransactionByHash | GetTransactionReceipt | GetLogs | GetCode | Call
    | Other(id: nat)

  /** A request with the verdicts of the two parameter guards it may be shown to. */
  datatype Request = Request(name: RpcMethod, baseAdmits: bool, scopeAdmits: bool)

  datatype Reply<+T> = Unanswered | Answered(value: T)

  datatype Lease = Lease(generation: nat, phase: Phase)

  datatype Route = Direct | Controller | Through(lease: Lease)

  /** A request that went past the gate, with the state of the node at that moment. */
  datatype Passage = Passage(request: Request, phase: Phase, generation: nat, leaseActive: bool,
                             control: Option<RpcMethod>, route: Route)

  datatype Transition = Transition(from: Phase, to: Phase, afterRequest: nat)

  /** snapshots and reverts count the controller's requests in flight, answers the snapshots answered. */
  datatype Node = Node(
    phase: Phase, generation: nat, scoped: bool, leaseActive: bool,
    control: Option<RpcMethod>, snapshot: Option<nat>, snapshots: nat, reverts: nat, answers: nat,
    transitions: seq<Transition>, leases: seq<Lease>, passed: seq<Passage>)

  datatype Event =
    | BeginSnapshot(admits: bool)
    | EndSnapshot(reply: Reply<nat>)
    | BeginRead(branch: Branch)
    | IssueLease
    | StartRead(lease: nat, request: Request)
    | EndRead
    | BeginRestore(admits: bool)
    | EndRestore(outcome: Reply<bool>)
    | FinishReads
    | Rpc(request: Request)

  const INITIAL: Node := Node(Prefix, 0, false, false, None, None, 0, 0, 0, [], [], [])

  predicate IsRead(m: RpcMethod) {
    !m.EvmSnapshot? && !m.EvmRevert? && !m.Other?
  }

  predicate ReadPhase(p: Phase) {
    p.ReadLeft? || p.ReadRight?
  }

  /** Whether a request passes the parameter gate. */
  predicate Gate(n: Node, r: Request) {
    if r.name.EvmSnapshot? || r.name.EvmRevert? then
      n.phase == (if r.name.EvmSnapshot? then Prefix else SwitchAtAncestor) && n.control == Some(r.name) && r.baseAdmits
    else if ReadPhase(n.phase) then n.leaseActive && IsRead(r.name) && r.scopeAdmits
    else if n.phase.SwitchAtAncestor? || n.phase.Closed? then false
    else r.baseAdmits
  }

  function Pass(n: Node, r: Request, route: Route): Node {
    n.(passed := n.passed + [Passage(r, n.phase, n.generation, n.leaseActive, n.control, route)])
  }

  function Enter(n: Node, phase: Phase): Node {
    n.(phase := phase, generation := n.generation + 1,
       transitions := n.transitions + [Transition(n.phase, phase, |n.passed|)])
  }

  function SnapshotRequest(admits: bool): Request {
    Request(EvmSnapshot, admits, false)
  }

  function RevertRequest(admits: bool): Request {
    Request(EvmRevert, admits, false)
  }

  /** One call or one half of one, with whether it went through; a call that raises has already done what it did before. */
  function Exec(n: Node, event: Event): (r: (Node, bool)) {
    match event
    case BeginSnapshot(admits) =>
      if !n.phase.Prefix? || n.snapshot.Some? then (n, false) else
      var asking := n.(control := Some(EvmSnapshot));
      if !Gate(asking, SnapshotRequest(admits)) then (asking.(control := None), false)
      else (Pass(asking, SnapshotRequest(admits), Controller).(snapshots := n.snapshots + 1), true)
    case EndSnapshot(reply) =>
      if n.snapshots == 0 then (n, false) else
      var done := n.(snapshots := n.snapshots - 1, control := None);
      if reply.Unanswered? then (done, false)
      else (Enter(done.(snapshot := Some(reply.value), answers := n.answers + 1), WriteLeft), true)
    case BeginRead(branch) =>
      if n.phase != (if branch.Left? then WriteLeft else WriteRight) then (n, false)
      else (Enter(n.(scoped := true), if branch.Left? then ReadLeft else ReadRight), true)
    case IssueLease =>
      if !ReadPhase(n.phase) then (n, false)
      else (n.(leases := n.leases + [Lease(n.generation, n.phase)]), true)
    case StartRead(k, request) =>
      if k >= |n.leases| || n.generation != n.leases[k].generation || n.phase != n.leases[k].phase || n.leaseActive
      then (n, false)
      else if !Gate(n.(leaseActive := true), request) then (n, false)
      else (Pass(n.(leaseActive := true), request, Through(n.leases[k])), true)
    case EndRead => if n.leaseActive then (n.(leaseActive := false), true) else (n, false)
    case BeginRestore(admits) =>
      if !n.phase.ReadLeft? || n.snapshot.None? || n.leaseActive then (n, false) else
      var asking := Enter(n, SwitchAtAncestor).(control := Some(EvmRevert));
      if !Gate(asking, RevertRequest(admits)) then (asking.(control := None), false)
      else (Pass(asking, RevertRequest(admits), Controller).(reverts := n.reverts + 1), true)
    case EndRestore(outcome) =>
      if n.reverts == 0 then (n, false) else
      var done := n.(reverts := n.reverts - 1, control := None);
      if outcome != Answered(true) then (done, false) else (Enter(done.(snapshot := None), WriteRight), true)
    case FinishReads =>
      if !n.phase.ReadRight? || n.leaseActive then (n, false) else (Enter(n, Closed), true)
    case Rpc(request) => if Gate(n, request) then (Pass(n, request, Direct), true) else (n, false)
  }

  function Run(n: Node, events: seq<Event>): (r: Node) {
    if events == [] then n else Exec(Run(n, events[..|events| - 1]), events[|events| - 1]).0
  }

  /** Nobody asks for a snapshot while one is in flight, which a caller can see from the control field. */
  predicate Serial(n: Node, events: seq<Event>) {
    events == [] ||
    (Serial(n, events[..|events| - 1])
     && (events[|events| - 1].BeginSnapshot? ==> Run(n, events[..|events| - 1]).control.None?))
  }

  // The one order in which phases come.

  function Order(k: nat): Phase
    requires k < 7
  {
    if k == 0 then Prefix else if k == 1 then WriteLeft else if k == 2 then ReadLeft
    else if k == 3 then SwitchAtAncestor else if k == 4 then WriteRight else if k == 5 then ReadRight else Closed
  }

  ghost predicate InOrder(n: Node) {
    && n.generation == |n.transitions| < 7 && n.phase == Order(n.generation)
    && forall k: nat :: k < |n.transitions| ==>
         n.transitions[k].from == Order(k) && n.transitions[k].to == Order(k + 1)
  }

  /** What may be said of every request that ever got past the gate. */
  ghost predicate Rightful(n: Node, p: Passage) {
    && p.generation < 7 && p.phase == Order(p.generation) && p.generation <= n.generation
    && (p.request.name.EvmSnapshot? ==> p.phase.Prefix? && p.control == Some(EvmSnapshot))
    && (p.request.name.EvmRevert? ==> p.phase.SwitchAtAncestor? && p.control == Some(EvmRevert))
    && (p.route.Controller? ==> p.request.name.EvmSnapshot? || p.request.name.EvmRevert?)
    && (p.route.Through? ==> p.route.lease == Lease(p.generation, p.phase) && ReadPhase(p.phase))
    && (if ReadPhase(p.phase) then IsRead(p.request.name) && p.leaseActive && p.request.scopeAdmits else p.request.baseAdmits)
    && (p.phase.SwitchAtAncestor? ==> p.request.name.EvmRevert?)
    && !p.phase.Closed?
  }

  ghost predicate LeaseSound(n: Node, l: Lease) {
    l.generation <= n.generation && l.generation < 7 && l.phase == Order(l.generation) && ReadPhase(l.phase)
  }

  ghost predicate Settled(n: Node) {
    && InOrder(n) && n.answers == (if n.generation == 0 then 0 else 1)
    && (n.leaseActive ==> ReadPhase(n.phase))
    && (n.scoped <==> n.generation >= 2)
    && (n.snapshot.Some? <==> 1 <= n.generation <= 3)
    && (n.control == Some(EvmSnapshot) ==> n.phase.Prefix? && n.snapshots > 0)
    && (n.control == Some(EvmRevert) ==> n.reverts > 0)
    && n.reverts <= 1 && (n.reverts == 1 ==> n.phase.SwitchAtAncestor?)
  }

  /** How many reverts the controller has sent. */
  function Reverts(passed: seq<Passage>): nat {
    if passed == [] then 0 else
    var last := passed[|passed| - 1];
    Reverts(passed[..|passed| - 1]) + if last.request.name.EvmRevert? && last.route.Controller? then 1 else 0
  }

  ghost predicate Recorded(n: Node) {
    && (forall k: nat :: k < |n.leases| ==> LeaseSound(n, n.leases[k]))
    && (forall k: nat :: k < |n.passed| ==> Rightful(n, n.passed[k]))
    && Reverts(n.passed) <= (if n.generation >= 3 then 1 else 0)
  }

  ghost predicate Sound(n: Node) {
    Settled(n) && Recorded(n)
  }

  /** Two snapshots were answered, and the second moved the node back. */
  ghost predicate Broken(n: Node) {
    n.answers >= 2 && exists k: nat :: 1 <= k < |n.transitions| && n.transitions[k].to == WriteLeft
  }

  /** Moving on to the next phase keeps the records; only the phase's own facts need checking again. */
  lemma EnterRecords(n: Node, phase: Phase)
    requires InOrder(n) && n.generation < 6 && phase == Order(n.generation + 1) && Recorded(n)
    ensures InOrder(Enter(n, phase)) && Recorded(Enter(n, phase))
  {
  }

  lemma PassRecords(n: Node, r: Request, route: Route)
    requires Recorded(n) && Rightful(n, Passage(r, n.phase, n.generation, n.leaseActive, n.control, route))
    requires r.name.EvmRevert? && route.Controller? ==> Reverts(n.passed) == 0 && n.generation >= 3
    ensures Recorded(Pass(n, r, route))
  {
    assert Pass(n, r, route).passed[..|n.passed|] == n.passed;
  }

  lemma BeginSnapshotSound(n: Node, admits: bool)
    requires Sound(n)
    ensures Sound(Exec(n, BeginSnapshot(admits)).0)
  {
    if n.phase.Prefix? && admits {
      PassRecords(n.(control := Some(EvmSnapshot)), SnapshotRequest(admits), Controller);
    }
  }

  lemma EndSnapshotSound(n: Node, reply: Reply<nat>)
    requires Sound(n) && n.answers == 0
    ensures Sound(Exec(n, EndSnapshot(reply)).0)
  {
    if n.snapshots != 0 && reply.Answered? {
      EnterRecords(n.(snapshots := n.snapshots - 1, control := None, snapshot := Some(reply.value),
                      answers := n.answers + 1), WriteLeft);
    }
  }

  /** A snapshot still in flight after another was answered does no harm as long as it stays unanswered. */
  lemma LateSnapshot(n: Node, reply: Reply<nat>)
    requires Sound(n) && n.answers == 1 && n.snapshots != 0
    ensures reply.Unanswered? ==> Sound(Exec(n, EndSnapshot(reply)).0)
    ensures reply.Answered? ==> Broken(Exec(n, EndSnapshot(reply)).0)
  {
    var m := Exec(n, EndSnapshot(reply)).0;
    if reply.Answered? {
      assert m.transitions[n.generation].to == WriteLeft;
    }
  }

  lemma NoRevertYet(n: Node)
    requires Sound(n) && n.generation < 3
    ensures Reverts(n.passed) == 0
  {
  }

  lemma SwitchSound(n: Node)
    requires Sound(n) && n.phase.ReadLeft? && !n.leaseActive
    ensures Sound(Enter(n, SwitchAtAncestor)) && n.reverts == 0 && Enter(n, SwitchAtAncestor).generation == 3
  {
    EnterRecords(n, SwitchAtAncestor);
    hide Recorded;
  }

  lemma SendRevertSound(n: Node)
    requires Sound(n) && n.generation == 3 && n.reverts == 0 && Reverts(n.passed) == 0 && !n.leaseActive
    ensures Sound(Pass(n.(control := Some(EvmRevert)), RevertRequest(true), Controller).(reverts := 1))
    ensures Sound(n.(control := None))
  {
    PassRecords(n.(control := Some(EvmRevert)), RevertRequest(true), Controller);
  }

  lemma BeginRestoreSound(n: Node, admits: bool)
    requires Sound(n)
    ensures Sound(Exec(n, BeginRestore(admits)).0)
  {
    if n.phase.ReadLeft? && !n.leaseActive {
      NoRevertYet(n);
      SwitchSound(n);
      SendRevertSound(Enter(n, SwitchAtAncestor));
    }
    hide Sound;
  }

  lemma EndRestoreSound(n: Node, outcome: Reply<bool>)
    requires Sound(n)
    ensures Sound(Exec(n, EndRestore(outcome)).0)
  {
    if n.reverts != 0 && outcome == Answered(true) {
      EnterRecords(n.(reverts := n.reverts - 1, control := None, snapshot := None), WriteRight);
    }
  }

  lemma StartReadSound(n: Node, k: nat, request: Request)
    requires Sound(n) && Exec(n, StartRead(k, request)).1
    ensures Sound(Exec(n, StartRead(k, request)).0)
  {
    assert LeaseSound(n, n.leases[k]);
    PassRecords(n.(leaseActive := true), request, Through(n.leases[k]));
  }

  lemma RpcSound(n: Node, request: Request)
    requires Sound(n) && Gate(n, request)
    ensures Sound(Exec(n, Rpc(request)).0)
  {
    PassRecords(n, request, Direct);
  }

  lemma MoveSound(n: Node, event: Event)
    requires Sound(n) && (event.BeginRead? || event.FinishReads?) && Exec(n, event).1
    ensures Sound(Exec(n, event).0)
  {
    EnterRecords(n.(scoped := true), Exec(n, event).0.phase);
  }

  lemma LeaseEventSound(n: Node, event: Event)
    requires Sound(n) && (event.IssueLease? || event.EndRead?)
    ensures Sound(Exec(n, event).0)
  {
  }

  /** Every call keeps a sound node sound, unless it is the answer to a second snapshot. */
  lemma ExecSound(n: Node, event: Event)
    requires Sound(n)
    ensures Exec(n, event).0.answers <= 1 ==> Sound(Exec(n, event).0)
    ensures Exec(n, event).0.answers >= 2 ==> Broken(Exec(n, event).0)
  {
    if Exec(n, event).0 != n {
      match event
      case BeginSnapshot(admits) => BeginSnapshotSound(n, admits);
      case EndSnapshot(reply) => if n.answers == 0 { EndSnapshotSound(n, reply); } else { LateSnapshot(n, reply); }
      case BeginRestore(admits) => BeginRestoreSound(n, admits);
      case EndRestore(outcome) => EndRestoreSound(n, outcome);
      case StartRead(k, request) => StartReadSound(n, k, request);
      case Rpc(request) => RpcSound(n, request);
      case BeginRead(_) => MoveSound(n, event);
      case FinishReads => MoveSound(n, event);
      case IssueLease => LeaseEventSound(n, event);
      case EndRead => LeaseEventSound(n, event);
    }
  }

  /** What is recorded stays recorded, and the counters only grow. */
  ghost predicate Grown(n: Node, m: Node) {
    n.generation <= m.generation && n.answers <= m.answers
    && n.transitions <= m.transitions && n.leases <= m.leases && n.passed <= m.passed
  }

  lemma BrokenIsOutOfOrder(n: Node)
    requires Broken(n)
    ensures !InOrder(n)
  {
    var k: nat :| 1 <= k < |n.transitions| && n.transitions[k].to == WriteLeft;
    assert k < 6 ==> Order(k + 1) != WriteLeft;
  }

  lemma ExecGrows(n: Node, event: Event)
    ensures Grown(n, Exec(n, event).0)
  {
  }

  lemma {:induction false} RunGrows(n: Node, events: seq<Event>)
    ensures Grown(n, Run(n, events))
  {
    if events != [] {
      RunGrows(n, events[..|events| - 1]);
      ExecGrows(Run(n, events[..|events| - 1]), events[|events| - 1]);
    }
  }

  lemma {:induction false} RunSound(n: Node, events: seq<Event>)
    requires Sound(n)
    ensures Run(n, events).answers <= 1 ==> Sound(Run(n, events))
    ensures Run(n, events).answers >= 2 ==> Broken(Run(n, events))
  {
    if events != [] {
      var before, event := Run(n, events[..|events| - 1]), events[|events| - 1];
      RunSound(n, events[..|events| - 1]);
      ExecGrows(before, event);
      if before.answers <= 1 {
        ExecSound(before, event);
      } else {
        var k: nat :| 1 <= k < |before.transitions| && before.transitions[k].to == WriteLeft;
        assert Exec(before, event).0.transitions[k] == before.transitions[k];
      }
    }
  }

  /**
   Phases follow the fixed order, one generation per transition, in exactly the runs in
   which no second snapshot is answered.
   */
  lemma {:induction false} PhasesFollowTheOrder(events: seq<Event>)
    ensures InOrder(Run(INITIAL, events)) <==> Run(INITIAL, events).answers <= 1
  {
    RunSound(INITIAL, events);
    if Run(INITIAL, events).answers >= 2 {
      BrokenIsOutOfOrder(Run(INITIAL, events));
    }
  }

  // Serial runs: the controller waits for its own snapshot.

  /** In a serial run the control field says exactly which of the controller's requests is in flight. */
  ghost predicate Waiting(n: Node) {
    && n.answers <= 1 && n.snapshots <= 1
    && (n.snapshots == 1 <==> n.control == Some(EvmSnapshot))
    && (n.reverts >= 1 <==> n.control == Some(EvmRevert))
    && (n.control.Some? ==> n.control.value.EvmSnapshot? || n.control.value.EvmRevert?)
  }

  lemma StillWaiting(n: Node, event: Event)
    requires Settled(n) && Waiting(n) && (event.BeginSnapshot? ==> n.control.None?) && (n.phase.Prefix? ==> n.answers == 0)
    ensures Waiting(Exec(n, event).0)
  {
    hide InOrder;
  }

  lemma ExecWaits(n: Node, event: Event)
    requires Sound(n) && Waiting(n) && (event.BeginSnapshot? ==> n.control.None?)
    ensures Sound(Exec(n, event).0) && Waiting(Exec(n, event).0)
  {
    StillWaiting(n, event);
    ExecSound(n, event);
  }

  lemma {:induction false} SerialSound(events: seq<Event>)
    requires Serial(INITIAL, events)
    ensures Sound(Run(INITIAL, events)) && Waiting(Run(INITIAL, events))
  {
    if events != [] {
      SerialSound(events[..|events| - 1]);
      ExecWaits(Run(INITIAL, events[..|events| - 1]), events[|events| - 1]);
    }
  }

  /** Waiting for one's own snapshot is enough to keep the order. */
  lemma SerialKeepsOrder(events: seq<Event>)
    requires Serial(INITIAL, events)
    ensures InOrder(Run(INITIAL, events))
  {
    SerialSound(events);
  }

  lemma RunOnce(n: Node, events: seq<Event>, event: Event)
    ensures Run(n, events + [event]) == Exec(Run(n, events), event).0
  {
    assert (events + [event])[..|events|] == events;
  }

  lemma SecondAnswer(first: nat, second: nat)
    ensures var two := Exec(Exec(INITIAL, BeginSnapshot(true)).0, BeginSnapshot(true)).0;
      var reading := Exec(Exec(two, EndSnapshot(Answered(first))).0, BeginRead(Left)).0;
      var n := Exec(reading, EndSnapshot(Answered(second))).0;
      Broken(n) && n.phase == WriteLeft && |n.transitions| == 3 && n.transitions[2].from == ReadLeft
  {
    var two := Exec(Exec(INITIAL, BeginSnapshot(true)).0, BeginSnapshot(true)).0;
    assert two.snapshots == 2 && two.phase == Prefix && two.transitions == [];
    var reading := Exec(Exec(two, EndSnapshot(Answered(first))).0, BeginRead(Left)).0;
    assert reading.snapshots == 1 && reading.phase == ReadLeft && |reading.transitions| == 2 && reading.answers == 1;
    assert Exec(reading, EndSnapshot(Answered(second))).0.transitions[2].to == WriteLeft;
  }

  /** And not waiting is enough to lose it: the second answer takes the node back to writing the left branch. */
  lemma OverlappingSnapshotsBreakTheOrder(first: nat, second: nat)
    ensures var n := Run(INITIAL, [BeginSnapshot(true), BeginSnapshot(true), EndSnapshot(Answered(first)),
                                   BeginRead(Left), EndSnapshot(Answered(second))]);
      !InOrder(n) && n.phase == WriteLeft && |n.transitions| == 3 && n.transitions[2].from == ReadLeft
  {
    var a, b, c, d := BeginSnapshot(true), EndSnapshot(Answered(first)), BeginRead(Left), EndSnapshot(Answered(second));
    assert [] + [a] == [a] && [a] + [a] == [a, a] && [a, a] + [b] == [a, a, b];
    assert [a, a, b] + [c] == [a, a, b, c] && [a, a, b, c] + [d] == [a, a, b, c, d];
    RunOnce(INITIAL, [], a);
    RunOnce(INITIAL, [a], a);
    RunOnce(INITIAL, [a, a], b);
    RunOnce(INITIAL, [a, a, b], c);
    RunOnce(INITIAL, [a, a, b, c], d);
    SecondAnswer(first, second);
    BrokenIsOutOfOrder(Run(INITIAL, [a, a, b, c, d]));
  }

  /**
   In a serial run a snapshot or a revert made by anybody passes exactly while the
   controller's own request of that name is in flight and the base guard admits it.
   */
  lemma ControlledRequestsPass(events: seq<Event>, r: Request)
    requires Serial(INITIAL, events)
    ensures var n := Run(INITIAL, events);
      && (r.name.EvmSnapshot? ==> (Gate(n, r) <==> n.snapshots == 1 && r.baseAdmits))
      && (r.name.EvmRevert? ==> (Gate(n, r) <==> n.reverts == 1 && r.baseAdmits))
  {
    SerialSound(events);
  }

  /**
   And any other request passes, in a serial run, exactly as its moment says: while a branch
   is written the base guard decides, while one is read the scope guard, for read methods
   under a lease; in between, and after the end, nothing passes.
   */
  lemma OtherRequestsPass(events: seq<Event>, r: Request)
    requires Serial(INITIAL, events) && !r.name.EvmSnapshot? && !r.name.EvmRevert?
    ensures var n := Run(INITIAL, events);
      && (n.generation in {0, 1, 4} ==> (Gate(n, r) <==> r.baseAdmits))
      && (n.generation in {2, 5} ==> (Gate(n, r) <==> n.leaseActive && IsRead(r.name) && r.scopeAdmits))
      && (n.generation in {3, 6} ==> !Gate(n, r)) && n.generation <= 6
  {
    SerialSound(events);
  }

  /**
   Whatever got past the gate in a run in order was entitled to: snapshots and reverts only
   under the controller's control and in their own phase, in a read phase only read methods
   and only while a lease was in use, a lease only in the generation that issued it; and the
   controller never sends a second revert.
   */
  lemma OnlyRightfulRequestsPass(events: seq<Event>)
    requires Run(INITIAL, events).answers <= 1
    ensures var n := Run(INITIAL, events);
      && (forall k: nat :: k < |n.passed| ==> Rightful(n, n.passed[k]))
      && Reverts(n.passed) <= 1
  {
    RunSound(INITIAL, events);
  }

  /** At most one request passes in a step, and through a lease only one of the present generation. */
  ghost predicate PassedInStep(n: Node, m: Node) {
    || m.passed == n.passed
    || (&& |m.passed| == |n.passed| + 1 && n.passed <= m.passed
        && (m.passed[|n.passed|].route.Through? ==> m.passed[|n.passed|].route.lease.generation == n.generation))
  }

  lemma ExecPasses(n: Node, event: Event)
    ensures PassedInStep(n, Exec(n, event).0)
  {
  }

  /** Once its generation is over a lease is never used again, in any run. */
  lemma {:induction false} RetiredLeaseStaysUnused(n: Node, k: nat, events: seq<Event>)
    requires k < |n.leases| && n.leases[k].generation < n.generation
    ensures n.passed <= Run(n, events).passed
    ensures forall j | |n.passed| <= j < |Run(n, events).passed| :: Run(n, events).passed[j].route != Through(n.leases[k])
  {
    hide Exec;
    if events != [] {
      RetiredLeaseStaysUnused(n, k, events[..|events| - 1]);
      RunGrows(n, events[..|events| - 1]);
      ExecPasses(Run(n, events[..|events| - 1]), events[|events| - 1]);
    }
  }

  predicate NoneEnds(events: seq<Event>) {
    forall k :: 0 <= k < |events| ==> !events[k].EndRead?
  }

  /** Between the start of a read and its end no phase changes, in any serial run, whatever else arrives. */
  lemma {:induction false} ReadsAreNotOvertaken(before: seq<Event>, during: seq<Event>)
    requires Serial(INITIAL, before) && Run(INITIAL, before).leaseActive && NoneEnds(during)
    ensures var n := Run(INITIAL, before);
      var m := Run(n, during);
      m.leaseActive && m.phase == n.phase && m.generation == n.generation && m.transitions == n.transitions
      && m.snapshots == 0 && m.reverts == 0
  {
    SerialSound(before);
    if during != [] {
      ReadsAreNotOvertaken(before, during[..|during| - 1]);
    }
  }

  predicate NoneAnswers(events: seq<Event>) {
    forall k :: 0 <= k < |events| ==> !events[k].EndRestore?
  }

  ghost predicate Switching(n: Node) {
    && n.phase.SwitchAtAncestor? && !n.leaseActive && n.control == Some(EvmRevert) && n.snapshots == 0
    && forall k: nat :: k < |n.leases| ==> ReadPhase(n.leases[k].phase)
  }

  /** Only the requests passed were added to, and only by further reverts made directly. */
  ghost predicate OnlyReverts(n: Node, m: Node) {
    && m == n.(passed := m.passed) && n.passed <= m.passed
    && forall j: nat :: |n.passed| <= j < |m.passed| ==> m.passed[j].request.name.EvmRevert? && m.passed[j].route.Direct?
  }

  lemma InFlightStep(n: Node, event: Event)
    requires Switching(n) && !event.EndRestore?
    ensures OnlyReverts(n, Exec(n, event).0)
  {
  }

  /** While the controller's revert is in flight nothing changes, and only further reverts of others pass. */
  lemma {:induction false} RevertInFlight(before: seq<Event>, during: seq<Event>)
    requires Serial(INITIAL, before) && Run(INITIAL, before).reverts == 1 && NoneAnswers(during)
    ensures OnlyReverts(Run(INITIAL, before), Run(Run(INITIAL, before), during))
  {
    hide Exec;
    SerialSound(before);
    if during != [] {
      RevertInFlight(before, during[..|during| - 1]);
      InFlightStep(Run(Run(INITIAL, before), during[..|during| - 1]), during[|during| - 1]);
    }
  }

  ghost predicate Shut(n: Node) {
    && Sound(n) && Waiting(n) && n.control.None?
    && (n.phase.SwitchAtAncestor? || n.phase.Closed?)
  }

  /** A node that is shut refuses every call and stays exactly as it is. */
  lemma {:induction false} ShutForever(n: Node, events: seq<Event>)
    requires Shut(n)
    ensures Run(n, events) == n
    ensures forall event: Event :: Exec(n, event) == (n, false)
  {
    if events != [] {
      ShutForever(n, events[..|events| - 1]);
    }
  }

  /** A revert that is unanswered, or answered with anything but true, shuts the node for good. */
  lemma FailedRevertShuts(before: seq<Event>, outcome: Reply<bool>, after: seq<Event>)
    requires Serial(INITIAL, before) && outcome != Answered(true) && Run(INITIAL, before).reverts == 1
    ensures Shut(Exec(Run(INITIAL, before), EndRestore(outcome)).0)
    ensures Run(Exec(Run(INITIAL, before), EndRestore(outcome)).0, after) == Exec(Run(INITIAL, before), EndRestore(outcome)).0
  {
    SerialSound(before);
    ExecWaits(Run(INITIAL, before), EndRestore(outcome));
    ShutForever(Exec(Run(INITIAL, before), EndRestore(outcome)).0, after);
  }

  /** So does a revert that the base guard refuses. */
  lemma RefusedRevertShuts(before: seq<Event>, after: seq<Event>)
    requires Serial(INITIAL, before) && Run(INITIAL, before).phase.ReadLeft? && !Run(INITIAL, before).leaseActive
    ensures Shut(Exec(Run(INITIAL, before), BeginRestore(false)).0)
    ensures Run(Exec(Run(INITIAL, before), BeginRestore(false)).0, after) == Exec(Run(INITIAL, before), BeginRestore(false)).0
  {
    SerialSound(before);
    ExecWaits(Run(INITIAL, before), BeginRestore(false));
    ShutForever(Exec(Run(INITIAL, before), BeginRestore(false)).0, after);
  }

  // A whole run.

  /** Both branches in order, with one leased read in each. */
  function WholeRun(snapshot: nat, left: Request, right: Request): seq<Event> {
    [BeginSnapshot(true), EndSnapshot(Answered(snapshot)), BeginRead(Left), IssueLease, StartRead(0, left), EndRead,
     BeginRestore(true), EndRestore(Answered(true)), BeginRead(Right), IssueLease, StartRead(1, right), EndRead, FinishReads]
  }

  /** Where the run stands: phase, requests passed and leases issued, with nothing in flight. */
  ghost predicate StandsAt(n: Node, generation: nat, passed: nat, leases: nat) {
    && n.generation == generation < 7 && n.phase == Order(generation) && |n.passed| == passed && |n.leases| == leases
    && !n.leaseActive && n.control.None? && n.snapshots == n.reverts == 0
    && (n.snapshot.Some? <==> 1 <= generation <= 3) && n.answers == (if generation == 0 then 0 else 1)
    && (1 <= leases ==> n.leases[0] == Lease(2, ReadLeft)) && (2 <= leases ==> n.leases[1] == Lease(5, ReadRight)) && leases <= 2
  }

  lemma Snapshotted(n: Node, snapshot: nat)
    requires StandsAt(n, 0, 0, 0)
    ensures StandsAt(Exec(Exec(n, BeginSnapshot(true)).0, EndSnapshot(Answered(snapshot))).0, 1, 1, 0)
  {
  }

  lemma ReadOnce(n: Node, branch: Branch, request: Request)
    requires StandsAt(n, if branch.Left? then 1 else 4, if branch.Left? then 1 else 3, if branch.Left? then 0 else 1)
    requires IsRead(request.name) && request.scopeAdmits
    ensures var k := if branch.Left? then 0 else 1;
      var issued := Exec(Exec(n, BeginRead(branch)).0, IssueLease).0;
      StandsAt(Exec(Exec(issued, StartRead(k, request)).0, EndRead).0, if branch.Left? then 2 else 5, if branch.Left? then 2 else 4, k + 1)
  {
    var k := if branch.Left? then 0 else 1;
    var issued := Exec(Exec(n, BeginRead(branch)).0, IssueLease).0;
    assert StandsAt(issued, if branch.Left? then 2 else 5, if branch.Left? then 1 else 3, k + 1);
  }

  lemma Reverted(n: Node)
    requires StandsAt(n, 2, 2, 1)
    ensures StandsAt(Exec(Exec(n, BeginRestore(true)).0, EndRestore(Answered(true))).0, 4, 3, 1)
  {
  }

  lemma RunNext(n: Node, events: seq<Event>, k: nat)
    requires k < |events|
    ensures Run(n, events[..k + 1]) == Exec(Run(n, events[..k]), events[k]).0
  {
    assert events[..k + 1][..k] == events[..k];
  }

  lemma RunTwo(n: Node, events: seq<Event>, k: nat)
    requires k + 1 < |events|
    ensures Run(n, events[..k + 2]) == Exec(Exec(Run(n, events[..k]), events[k]).0, events[k + 1]).0
  {
    hide Exec;
    RunNext(n, events, k);
    RunNext(n, events, k + 1);
  }

  /** If every guard admits and every answer is good the run goes through: closed after six transitions, with four requests passed. */
  lemma WholeRunCloses(snapshot: nat, left: Request, right: Request)
    requires IsRead(left.name) && left.scopeAdmits && IsRead(right.name) && right.scopeAdmits
    ensures StandsAt(Run(INITIAL, WholeRun(snapshot, left, right)), 6, 4, 2)
    ensures InOrder(Run(INITIAL, WholeRun(snapshot, left, right)))
  {
    var e := WholeRun(snapshot, left, right);
    PhasesFollowTheOrder(e);
    hide Exec, InOrder;
    assert StandsAt(Run(INITIAL, e[..0]), 0, 0, 0);
    RunTwo(INITIAL, e, 0);
    Snapshotted(Run(INITIAL, e[..0]), snapshot);
    RunTwo(INITIAL, e, 2);
    RunTwo(INITIAL, e, 4);
    ReadOnce(Run(INITIAL, e[..2]), Left, left);
    RunTwo(INITIAL, e, 6);
    Reverted(Run(INITIAL, e[..6]));
    RunTwo(INITIAL, e, 8);
    RunTwo(INITIAL, e, 10);
    ReadOnce(Run(INITIAL, e[..8]), Right, right);
    RunNext(INITIAL, e, 12);
    Closes(Run(INITIAL, e[..12]));
    assert e[..13] == e;
  }

  lemma Closes(n: Node)
    requires StandsAt(n, 5, 4, 2)
    ensures StandsAt(Exec(n, FinishReads).0, 6, 4, 2)
  {
  }

  // The node as an object; the replies of the RPC endpoint are arguments.

  class PhasedNode {
    var phase: Phase
    var generation: nat
    var scoped: bool
    var leaseActive: bool
    var control: Option<RpcMethod>
    var snapshot: Option<nat>
    var snapshots: nat
    var reverts: nat
    var answers: nat
    var transitions: seq<Transition>
    var leases: seq<Lease>
    var passed: seq<Passage>

    ghost function State(): Node
      reads this
    {
      Node(phase, generation, scoped, leaseActive, control, snapshot, snapshots, reverts, answers,
           transitions, leases, passed)
    }

    constructor ()
      ensures State() == INITIAL
    {
      phase, generation, scoped, leaseActive := Prefix, 0, false, false;
      control, snapshot, snapshots, reverts, answers := None, None, 0, 0, 0;
      transitions, leases, passed := [], [], [];
    }

    method Advance(to: Phase)
      modifies this
      ensures State() == Enter(old(State()), to)
    {
      transitions := transitions + [Transition(phase, to, |passed|)];
      phase := to;
      generation := generation + 1;
    }

    /** The gate every request goes through, with what it lets pass written down. */
    method Admit(request: Request, route: Route) returns (ok: bool)
      modifies this`passed
      ensures ok == Gate(old(State()), request)
      ensures State() == if ok then Pass(old(State()), request, route) else old(State())
    {
      if request.name.EvmSnapshot? || request.name.EvmRevert? {
        var wanted := if request.name.EvmSnapshot? then Prefix else SwitchAtAncestor;
        ok := phase == wanted && control == Some(request.name) && request.baseAdmits;
      } else if phase.ReadLeft? || phase.ReadRight? {
        ok := leaseActive && IsRead(request.name) && request.scopeAdmits;
      } else if phase.SwitchAtAncestor? || phase.Closed? {
        ok := false;
      } else {
        ok := request.baseAdmits;
      }
      if ok {
        passed := passed + [Passage(request, phase, generation, leaseActive, control, route)];
      }
    }

    method AskSnapshot(admits: bool) returns (ok: bool)
      modifies this
      ensures (State(), ok) == Exec(old(State()), BeginSnapshot(admits))
    {
      if !phase.Prefix? || snapshot.Some? {
        return false;
      }
      control := Some(EvmSnapshot);
      ok := Admit(SnapshotRequest(admits), Controller);
      if ok {
        snapshots := snapshots + 1;
      } else {
        control := None;
      }
    }

    method FinishSnapshot(reply: Reply<nat>) returns (ok: bool)
      requires snapshots > 0
      modifies this
      ensures (State(), ok) == Exec(old(State()), EndSnapshot(reply))
    {
      snapshots := snapshots - 1;
      if reply.Answered? {
        snapshot, answers := Some(reply.value), answers + 1;
      }
      control := None;
      ok := reply.Answered?;
      if ok {
        Advance(WriteLeft);
      }
    }

    method StartReading(branch: Branch) returns (ok: bool)
      modifies this
      ensures (State(), ok) == Exec(old(State()), BeginRead(branch))
    {
      if phase != (if branch.Left? then WriteLeft else WriteRight) {
        return false;
      }
      scoped := true;
      Advance(if branch.Left? then ReadLeft else ReadRight);
      ok := true;
    }

    method GiveLease() returns (ok: bool)
      modifies this
      ensures (State(), ok) == Exec(old(State()), IssueLease)
    {
      if !phase.ReadLeft? && !phase.ReadRight? {
        return false;
      }
      leases := leases + [Lease(generation, phase)];
      ok := true;
    }

    method Read(k: nat, request: Request) returns (ok: bool)
      modifies this
      ensures (State(), ok) == Exec(old(State()), StartRead(k, request))
    {
      if k >= |leases| || generation != leases[k].generation || phase != leases[k].phase || leaseActive {
        return false;
      }
      leaseActive := true;
      ok := Admit(request, Through(leases[k]));
      if !ok {
        leaseActive := false;
      }
    }

    /** The end of a read, whether the transport answered or raised. */
    method EndReading()
      requires leaseActive
      modifies this
      ensures (State(), true) == Exec(old(State()), EndRead)
    {
      leaseActive := false;
    }

    /** A request made outside any lease. */
    method Send(request: Request) returns (ok: bool)
      modifies this`passed
      ensures (State(), ok) == Exec(old(State()), Rpc(request))
    {
      ok := Admit(request, Direct);
    }

    method AskRestore(admits: bool) returns (ok: bool)
      modifies this
      ensures (State(), ok) == Exec(old(State()), BeginRestore(admits))
    {
      if !phase.ReadLeft? || snapshot.None? || leaseActive {
        return false;
      }
      Advance(SwitchAtAncestor);
      control := Some(EvmRevert);
      ok := Admit(RevertRequest(admits), Controller);
      if ok {
        reverts := reverts + 1;
      } else {
        control := None;
      }
    }

    method FinishRestore(outcome: Reply<bool>) returns (ok: bool)
      requires reverts > 0
      modifies this
      ensures (State(), ok) == Exec(old(State()), EndRestore(outcome))
    {
      reverts := reverts - 1;
      ok := outcome == Answered(true);
      if ok {
        snapshot := None;
      }
      control := None;
      if ok {
        Advance(WriteRight);
      }
    }

    method Close() returns (ok: bool)
      modifies this
      ensures (State(), ok) == Exec(old(State()), FinishReads)
    {
      if !phase.ReadRight? || leaseActive {
        return false;
      }
      Advance(Closed);
      ok := true;
    }
  }
}
