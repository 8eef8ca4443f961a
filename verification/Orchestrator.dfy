/** The orchestration graph: routing, the human-approval pause, kill-switch preemption, and whole runs of API calls. */
module Orchestrator {
  import opened Common
  import opened Nodes

  datatype Node = Regime | Signal | Reconciliation | Risk | Hitl | Kill

  /** The last two say whether the library hands values back when it paused, and when it had nothing to do. */
  datatype Config = Config(startingCapital: real, enableHitl: bool, pauseEchoes: bool, idleEchoes: bool)

  /** What the graph library keeps: the merged values, the node that wrote last, and the node it stopped before. */
  datatype Checkpoint = Checkpoint(values: SystemState, last: Node, next: Option<Node>)

  /** One executed node, with the state it was given. */
  datatype Visit = Visit(node: Node, before: SystemState)

  datatype Outcome = Outcome(checkpoint: Checkpoint, visits: seq<Visit>)

  /** The routing step: the kill switch and the circuit breaker win over a pending approval. */
  function RouteAfterRisk(s: SystemState): Option<Node> {
    if s.killSwitchActive || s.circuitBreakerActive then Some(Kill)
    else if s.pendingHitlApproval.Some? then Some(Hitl)
    else None
  }

  function Execute(node: Node, s: SystemState, cfg: Config, w: World): SystemState {
    match node
    case Regime => RegimeNode(s, w)
    case Signal => SignalNode(s, w)
    case Reconciliation => ReconciliationNode(s, w)
    case Risk => RiskNode(s, cfg.startingCapital, w)
    case Hitl => HitlNode(s)
    case Kill => KillSwitchNode(s, w)
  }

  /** The edges; None is END. */
  function Successor(node: Node, s: SystemState): Option<Node> {
    match node
    case Regime => Some(Signal)
    case Signal => Some(Reconciliation)
    case Reconciliation => Some(Risk)
    case Risk => RouteAfterRisk(s)
    case Hitl => None
    case Kill => None
  }

  function Rank(node: Node): nat {
    match node
    case Regime => 4
    case Signal => 3
    case Reconciliation => 2
    case Risk => 1
    case Hitl => 0
    case Kill => 0
  }

  /** Runs from a node to END or to the pause before the approval node; a resumed node is not paused again. */
  function Drive(s: SystemState, last: Node, node: Node, cfg: Config, w: World, resumed: bool): Outcome
    decreases Rank(node)
  {
    if node == Hitl && cfg.enableHitl && !resumed then Outcome(Checkpoint(s, last, Some(Hitl)), [])
    else
      var after := Execute(node, s, cfg, w);
      var next := Successor(node, after);
      if next.None? then Outcome(Checkpoint(after, node, None), [Visit(node, s)])
      else
        var rest := Drive(after, node, next.value, cfg, w, false);
        Outcome(rest.checkpoint, [Visit(node, s)] + rest.visits)
  }

  // ---- The library calls ----

  /** A full state as input starts at the entry point. */
  function Invoke(s: SystemState, cfg: Config, w: World): Outcome {
    Drive(s, Regime, Regime, cfg, w, false)
  }

  /** No input continues from the checkpoint; at END there is nothing to do. */
  function Resume(c: Checkpoint, cfg: Config, w: World): Outcome {
    if c.next.None? then Outcome(c, []) else Drive(c.values, c.last, c.next.value, cfg, w, true)
  }

  /** New values are written on behalf of the last node, whose outgoing edge is then taken again. */
  function Update(c: Checkpoint, values: SystemState): Checkpoint {
    Checkpoint(values, c.last, Successor(c.last, values))
  }

  // ---- API calls as a state machine ----

  datatype Session = Session(state: SystemState, checkpoint: Option<Checkpoint>)

  datatype Call =
    | Cycle(input: Option<SystemState>, world: World)
    | Approve(world: World)
    | Reject(world: World)
    | TriggerKill(world: World)

  /** An invocation that ran to END hands its values back; one that paused or had nothing to do may not. */
  predicate HandsBack(o: Outcome, cfg: Config) {
    if o.checkpoint.next.Some? then cfg.pauseEchoes else o.visits != [] || cfg.idleEchoes
  }

  function Adopt(s: SystemState, o: Outcome, cfg: Config): Session {
    Session(if HandsBack(o, cfg) then o.checkpoint.values else s, Some(o.checkpoint))
  }

  function Killed(s: SystemState): SystemState {
    s.(killSwitchActive := true, pendingHitlApproval := None)
  }

  /** The checkpoint a call other than a cycle resumes from. */
  function ResumedFrom(c: Checkpoint, call: Call): Checkpoint {
    if call.Reject? then Update(c, c.values.(pendingHitlApproval := None))
    else if call.TriggerKill? then Update(c, Killed(c.values))
    else c
  }

  /** What an API call makes the library do; None when it raises for want of a checkpoint. */
  function OutcomeOf(x: Session, call: Call, cfg: Config): Option<Outcome> {
    if call.Cycle? then Some(Invoke(if call.input.Some? then call.input.value else x.state, cfg, call.world))
    else if x.checkpoint.None? then None
    else Some(Resume(ResumedFrom(x.checkpoint.value, call), cfg, call.world))
  }

  function Perform(x: Session, call: Call, cfg: Config): Session {
    var local := if call.TriggerKill? then Killed(x.state) else x.state;
    var o := OutcomeOf(x, call, cfg);
    if o.None? then Session(local, None) else Adopt(local, o.value, cfg)
  }

  function VisitsOf(x: Session, call: Call, cfg: Config): seq<Visit> {
    var o := OutcomeOf(x, call, cfg);
    if o.None? then [] else o.value.visits
  }

  function Run(x: Session, calls: seq<Call>, cfg: Config): Session {
    if calls == [] then x else Perform(Run(x, Front(calls), cfg), Last(calls), cfg)
  }

  const START := Session(INITIAL, None)

  class OrchestratorGraph {
    const cfg: Config
    var state: SystemState
    var checkpoint: Option<Checkpoint>

    ghost function Value(): Session
      reads this
    {
      Session(state, checkpoint)
    }

    constructor (cfg: Config)
      ensures this.cfg == cfg && Value() == START
    {
      this.cfg := cfg;
      state := INITIAL;
      checkpoint := None;
    }

    /** Stores the new checkpoint and adopts what the library handed back, if anything. */
    method Finish(o: Outcome) returns (result: Option<SystemState>)
      modifies this
      ensures Value() == Adopt(old(state), o, cfg)
      ensures result == if HandsBack(o, cfg) then Some(o.checkpoint.values) else None
    {
      checkpoint := Some(o.checkpoint);
      if HandsBack(o, cfg) {
        state := o.checkpoint.values;
        result := Some(state);
      } else {
        result := None;
      }
    }

    method RunCycle(input: Option<SystemState>, w: World) returns (result: Option<SystemState>)
      modifies this
      ensures Value() == Perform(old(Value()), Cycle(input, w), cfg)
      ensures checkpoint == Some(Invoke(if input.Some? then input.value else old(state), cfg, w).checkpoint)
      ensures result.Some? <==> checkpoint.value.next == None || cfg.pauseEchoes
      ensures result == if result.Some? then Some(checkpoint.value.values) else None
      ensures state == if result.Some? then checkpoint.value.values else old(state)
    {
      var invokeInput := if input.Some? then input.value else state;
      InvokeVisits(invokeInput, cfg, w);
      result := Finish(Invoke(invokeInput, cfg, w));
    }

    method ApproveHitl(w: World) returns (result: Option<SystemState>, raised: bool)
      modifies this
      ensures Value() == Perform(old(Value()), Approve(w), cfg)
      ensures raised <==> old(checkpoint).None?
      ensures result.Some? ==> result.value == state
    {
      if checkpoint.None? {
        return None, true;
      }
      result := Finish(Resume(checkpoint.value, cfg, w));
      raised := false;
    }

    method RejectHitl(w: World) returns (raised: bool)
      modifies this
      ensures Value() == Perform(old(Value()), Reject(w), cfg)
      ensures raised <==> old(checkpoint).None?
    {
      if checkpoint.None? {
        return true;
      }
      var updated := Update(checkpoint.value, checkpoint.value.values.(pendingHitlApproval := None));
      var _ := Finish(Resume(updated, cfg, w));
      raised := false;
    }

    /** The local flags are set first, so they hold even when the library raises. */
    method TriggerKillSwitch(w: World) returns (raised: bool)
      modifies this
      ensures Value() == Perform(old(Value()), TriggerKill(w), cfg)
      ensures raised <==> old(checkpoint).None?
    {
      state := state.(killSwitchActive := true);
      state := state.(pendingHitlApproval := None);
      if checkpoint.None? {
        return true;
      }
      var updated := Update(checkpoint.value,
        checkpoint.value.values.(killSwitchActive := true, pendingHitlApproval := None));
      var _ := Finish(Resume(updated, cfg, w));
      raised := false;
    }

    method IsHalted() returns (halted: bool)
      ensures halted <==> Halted(state)
    {
      halted := state.killSwitchActive || state.circuitBreakerActive;
    }
  }

  // ---- Flags are never lowered ----

  /** Flags of the second state include those of the first. */
  predicate FlagsKept(s: SystemState, t: SystemState) {
    (s.killSwitchActive ==> t.killSwitchActive) && (s.circuitBreakerActive ==> t.circuitBreakerActive)
  }

  /** No node lowers a flag, at any point of an invocation. */
  lemma {:induction false} DriveKeepsFlags(s: SystemState, last: Node, node: Node, cfg: Config, w: World, resumed: bool)
    ensures FlagsKept(s, Drive(s, last, node, cfg, w, resumed).checkpoint.values)
    ensures forall v :: v in Drive(s, last, node, cfg, w, resumed).visits ==> FlagsKept(s, v.before)
    decreases Rank(node)
  {
    var after := Execute(node, s, cfg, w);
    assert FlagsKept(s, after);
    var next := Successor(node, after);
    if next.Some? && !(node == Hitl && cfg.enableHitl && !resumed) {
      DriveKeepsFlags(after, node, next.value, cfg, w, false);
    }
  }

  /** The checkpoint is at least as halted as the local state. */
  predicate Synced(x: Session) {
    x.checkpoint.Some? ==> FlagsKept(x.state, x.checkpoint.value.values)
  }

  ghost predicate OwnState(calls: seq<Call>) {
    forall c :: c in calls && c.Cycle? ==> c.input.None?
  }

  lemma CallKeepsFlags(x: Session, call: Call, cfg: Config)
    requires Synced(x) && (call.Cycle? ==> call.input.None?)
    ensures FlagsKept(x.state, Perform(x, call, cfg).state) && Synced(Perform(x, call, cfg))
  {
    if call.Cycle? {
      DriveKeepsFlags(x.state, Regime, Regime, cfg, call.world, false);
    } else if x.checkpoint.Some? {
      var d := ResumedFrom(x.checkpoint.value, call);
      if d.next.Some? {
        DriveKeepsFlags(d.values, d.last, d.next.value, cfg, call.world, true);
      }
    }
  }

  /** Over any run of calls that start from the graph's own state, neither flag is ever lowered. */
  lemma {:induction false} FlagsNeverLowered(x: Session, calls: seq<Call>, cfg: Config)
    requires Synced(x) && OwnState(calls)
    ensures FlagsKept(x.state, Run(x, calls, cfg).state) && Synced(Run(x, calls, cfg))
  {
    if calls != [] {
      assert OwnState(Front(calls));
      assert Last(calls) in calls;
      FlagsNeverLowered(x, Front(calls), cfg);
      CallKeepsFlags(Run(x, Front(calls), cfg), Last(calls), cfg);
    }
  }

  // ---- Where a run can stop, and what may run ----

  /** At END nothing is pending and a tripped breaker implies the kill switch; a pause is one routed to approval. */
  predicate Settled(c: Checkpoint) {
    if c.next.None? then
      && c.values.pendingHitlApproval.None?
      && (c.values.circuitBreakerActive ==> c.values.killSwitchActive)
      && (c.last == Risk ==> RouteAfterRisk(c.values).None?)
      && c.last in {Risk, Hitl, Kill}
    else c.next == Some(Hitl) && c.last == Risk && RouteAfterRisk(c.values) == Some(Hitl)
  }

  /** The approval node was given an unhalted state with a pending request. */
  predicate ProperVisit(v: Visit) {
    v.node == Hitl ==> !Halted(v.before) && v.before.pendingHitlApproval.Some?
  }

  predicate ProperVisits(vs: seq<Visit>) {
    forall i :: 0 <= i < |vs| ==> ProperVisit(vs[i])
  }

  lemma {:induction false} DriveSettles(s: SystemState, last: Node, node: Node, cfg: Config, w: World, resumed: bool)
    requires node in {Hitl, Kill} ==> last == Risk && RouteAfterRisk(s) == Some(node)
    ensures Settled(Drive(s, last, node, cfg, w, resumed).checkpoint)
    ensures ProperVisits(Drive(s, last, node, cfg, w, resumed).visits)
    decreases Rank(node)
  {
    var after := Execute(node, s, cfg, w);
    var next := Successor(node, after);
    if next.Some? && !(node == Hitl && cfg.enableHitl && !resumed) {
      DriveSettles(after, node, next.value, cfg, w, false);
    }
  }

  predicate SettledSession(x: Session) {
    x.checkpoint.Some? ==> Settled(x.checkpoint.value)
  }

  lemma CallSettles(x: Session, call: Call, cfg: Config)
    requires SettledSession(x)
    ensures SettledSession(Perform(x, call, cfg))
    ensures ProperVisits(VisitsOf(x, call, cfg))
  {
    if call.Cycle? {
      var start := if call.input.Some? then call.input.value else x.state;
      DriveSettles(start, Regime, Regime, cfg, call.world, false);
    } else if x.checkpoint.Some? {
      var d := ResumedFrom(x.checkpoint.value, call);
      if d.next.Some? {
        DriveSettles(d.values, d.last, d.next.value, cfg, call.world, true);
      }
    }
  }

  /**
   * In every run of API calls, whatever states are passed in: an invocation that ended left nothing pending and
   * no tripped breaker without the kill switch, and the approval node ran only unhalted and with a request.
   */
  lemma {:induction false} EveryRunSettles(calls: seq<Call>, next: Call, cfg: Config)
    ensures SettledSession(Run(START, calls, cfg))
    ensures ProperVisits(VisitsOf(Run(START, calls, cfg), next, cfg))
  {
    if calls != [] {
      EveryRunSettles(Front(calls), Last(calls), cfg);
      CallSettles(Run(START, Front(calls), cfg), Last(calls), cfg);
    }
    CallSettles(Run(START, calls, cfg), next, cfg);
  }

  // ---- The kill switch ----

  /** Triggering the kill switch at a pause runs the kill node alone and leaves no approval pending. */
  lemma {:induction false} KillPreemptsApproval(x: Session, w: World, cfg: Config)
    requires SettledSession(x) && x.checkpoint.Some? && x.checkpoint.value.next.Some?
    ensures var y := Perform(x, TriggerKill(w), cfg);
            && y.state == y.checkpoint.value.values
            && y.state.killSwitchActive && y.state.pendingHitlApproval.None?
            && y.checkpoint.value.next.None? && y.checkpoint.value.last == Kill
    ensures VisitsOf(x, TriggerKill(w), cfg) == [Visit(Kill, Killed(x.checkpoint.value.values))]
  {
    var d := Update(x.checkpoint.value, Killed(x.checkpoint.value.values));
    assert d.next == Some(Kill);
  }

  /** Killed for good: the local state, and the checkpoint it would be replaced by, are killed with nothing pending. */
  predicate Dead(x: Session) {
    && x.state.killSwitchActive && x.state.pendingHitlApproval.None?
    && (x.checkpoint.Some? ==>
          && x.checkpoint.value.values.killSwitchActive
          && x.checkpoint.value.values.pendingHitlApproval.None?
          && x.checkpoint.value.next.None?
          && x.checkpoint.value.last in {Hitl, Kill})
  }

  /** From a state with the kill switch on, a cycle visits the four checks and the kill node, and counts no signal. */
  lemma KilledCycle(s: SystemState, cfg: Config, w: World)
    requires s.killSwitchActive
    ensures var o := Invoke(s, cfg, w);
            && o.checkpoint.values.killSwitchActive && o.checkpoint.values.pendingHitlApproval.None?
            && o.checkpoint.next.None? && o.checkpoint.last == Kill
            && o.checkpoint.values.signalsToday == s.signalsToday
            && o.visits != [] && (forall v :: v in o.visits ==> v.node != Hitl)
  {
    var s1 := RegimeNode(s, w);
    var s2 := SignalNode(s1, w);
    var s3 := ReconciliationNode(s2, w);
    var s4 := RiskNode(s3, cfg.startingCapital, w);
    assert Drive(s4, Risk, Kill, cfg, w, false) ==
           Outcome(Checkpoint(KillSwitchNode(s4, w), Kill, None), [Visit(Kill, s4)]);
    var d3 := Drive(s3, Reconciliation, Risk, cfg, w, false);
    assert d3.checkpoint == Checkpoint(KillSwitchNode(s4, w), Kill, None);
    assert d3.visits == [Visit(Risk, s3), Visit(Kill, s4)];
    var d2 := Drive(s2, Signal, Reconciliation, cfg, w, false);
    assert d2.checkpoint == d3.checkpoint && d2.visits == [Visit(Reconciliation, s2)] + d3.visits;
    var d1 := Drive(s1, Regime, Signal, cfg, w, false);
    assert d1.checkpoint == d3.checkpoint && d1.visits == [Visit(Signal, s1)] + d2.visits;
  }

  lemma DeadStaysDead(x: Session, call: Call, cfg: Config)
    requires Dead(x) && (call.Cycle? ==> call.input.None?)
    ensures Dead(Perform(x, call, cfg))
    ensures forall v :: v in VisitsOf(x, call, cfg) ==> v.node != Hitl
    ensures call.Cycle? ==> Perform(x, call, cfg).state.signalsToday == x.state.signalsToday
  {
    hide Drive, Successor;
    if call.Cycle? {
      KilledCycle(x.state, cfg, call.world);
    } else if x.checkpoint.Some? {
      DeadResumes(x.checkpoint.value, call);
    }
  }

  /** After the approval or the kill node there is nothing to resume, whatever is written. */
  lemma DeadResumes(c: Checkpoint, call: Call)
    requires c.next.None? && c.last in {Hitl, Kill}
    requires c.values.killSwitchActive && c.values.pendingHitlApproval.None?
    ensures var d := ResumedFrom(c, call);
            && d.next.None? && d.last == c.last
            && d.values.killSwitchActive && d.values.pendingHitlApproval.None?
  {
  }

  lemma TriggerIsDeadly(x: Session, w: World, cfg: Config)
    requires SettledSession(x)
    ensures Dead(Perform(x, TriggerKill(w), cfg))
  {
    if x.checkpoint.Some? {
      var c := x.checkpoint.value;
      var d := Update(c, Killed(c.values));
      assert c.last == Risk ==> d.next == Some(Kill);
    }
  }

  /**
   * Once triggered, at any point of any run and even when the library raised, the kill switch stays on through every
   * later run of own-state calls; the approval node never executes again and nothing is left pending.
   */
  lemma {:induction false} KillIsFinal(before: seq<Call>, w: World, after: seq<Call>, next: Call, cfg: Config)
    requires OwnState(after) && (next.Cycle? ==> next.input.None?)
    ensures var x := Run(Perform(Run(START, before, cfg), TriggerKill(w), cfg), after, cfg);
            && Dead(x)
            && (forall v :: v in VisitsOf(x, next, cfg) ==> v.node != Hitl)
            && (next.Cycle? ==> Perform(x, next, cfg).state.signalsToday == x.state.signalsToday)
  {
    var y := Perform(Run(START, before, cfg), TriggerKill(w), cfg);
    if after == [] {
      EveryRunSettles(before, next, cfg);
      TriggerIsDeadly(Run(START, before, cfg), w, cfg);
    } else {
      assert OwnState(Front(after)) && Last(after) in after;
      KillIsFinal(before, w, Front(after), Last(after), cfg);
      DeadStaysDead(Run(y, Front(after), cfg), Last(after), cfg);
    }
    DeadStaysDead(Run(y, after, cfg), next, cfg);
  }

  // ---- Cycles, resumption and signals ----

  /** A cycle without input restarts from the local state: a paused approval is dropped, not resumed. */
  lemma {:induction false} CycleNeverResumes(s: SystemState, c: Option<Checkpoint>, d: Option<Checkpoint>, w: World,
      cfg: Config)
    ensures Perform(Session(s, c), Cycle(None, w), cfg) == Perform(Session(s, d), Cycle(None, w), cfg)
    ensures VisitsOf(Session(s, c), Cycle(None, w), cfg) == VisitsOf(Session(s, c), Cycle(Some(s), w), cfg)
  {
  }

  /** Every gate of the signal node is open and the newest entry is not blocked. */
  predicate SignalAdmitted(s: SystemState, w: World) {
    && !Halted(s)
    && w.redis.Some? && !w.redis.value.halted && !w.redis.value.degraded
    && RegimeNode(s, w).marketRegime != CHAOS
    && w.redis.value.signal.Entry? && !SignalBlocked(w, w.redis.value.signal.value)
  }

  /** The nodes after the signal node leave the count alone. */
  lemma {:induction false} CountSettled(s: SystemState, last: Node, node: Node, cfg: Config, w: World, resumed: bool)
    requires node !in {Regime, Signal}
    ensures Drive(s, last, node, cfg, w, resumed).checkpoint.values.signalsToday == s.signalsToday
    decreases Rank(node)
  {
    var after := Execute(node, s, cfg, w);
    var next := Successor(node, after);
    if next.Some? && !(node == Hitl && cfg.enableHitl && !resumed) {
      CountSettled(after, node, next.value, cfg, w, false);
    }
  }

  /** A cycle counts one signal when every gate is open, and none otherwise. */
  lemma {:induction false} CycleCountsAdmitted(s: SystemState, cfg: Config, w: World)
    ensures Invoke(s, cfg, w).checkpoint.values.signalsToday == s.signalsToday + (if SignalAdmitted(s, w) then 1 else 0)
  {
    var s1 := RegimeNode(s, w);
    var s2 := SignalNode(s1, w);
    CountSettled(s2, Signal, Reconciliation, cfg, w, false);
    assert Drive(s1, Regime, Signal, cfg, w, false).checkpoint
        == Drive(s2, Signal, Reconciliation, cfg, w, false).checkpoint;
    assert Halted(s1) <==> Halted(s);
  }

  /** The state a cycle's four checks leave, one node after the other. */
  ghost function Checked(s: SystemState, cfg: Config, w: World): SystemState {
    RiskNode(ReconciliationNode(SignalNode(RegimeNode(s, w), w), w), cfg.startingCapital, w)
  }

  /** After the four checks the kill node or the approval node runs, or nothing. */
  lemma InvokeRoutes(s: SystemState, cfg: Config, w: World)
    ensures var c, t := Invoke(s, cfg, w).checkpoint, Checked(s, cfg, w);
            c == if Halted(t) then Checkpoint(KillSwitchNode(t, w), Kill, None)
                 else if t.pendingHitlApproval == None then Checkpoint(t, Risk, None)
                 else if cfg.enableHitl then Checkpoint(t, Risk, Some(Hitl))
                 else Checkpoint(HitlNode(t), Hitl, None)
  {
    hide RegimeNode, SignalNode, ReconciliationNode, RiskNode, KillSwitchNode, HitlNode;
    var s1 := RegimeNode(s, w);
    var s2 := SignalNode(s1, w);
    var s3 := ReconciliationNode(s2, w);
    assert Drive(s2, Signal, Reconciliation, cfg, w, false).checkpoint
        == Drive(s3, Reconciliation, Risk, cfg, w, false).checkpoint;
    assert Drive(s1, Regime, Signal, cfg, w, false).checkpoint
        == Drive(s2, Signal, Reconciliation, cfg, w, false).checkpoint;
  }

  /** The regime a cycle works with: the newest entry's if it could be read and names one, else the one it had. */
  lemma RegimeOfCycle(s: SystemState, w: World)
    ensures var t := RegimeNode(s, w);
            && t == s.(marketRegime := t.marketRegime, regimeConfidence := t.regimeConfidence)
            && (w.redis == None || !w.redis.value.regime.Entry? ==> t == s)
            && (w.redis.Some? && w.redis.value.regime.Entry? ==>
                  var RegimeEntry(name, confidence) := w.redis.value.regime.value;
                  if name == "" then t == s
                  else
                    && t.marketRegime == name
                    && t.regimeConfidence == (if confidence == None then 0.0 else confidence.value))
  {
  }

  /**
   * What a cycle does, from the state and the surroundings alone. A flag, the halt key or a loss of 2 percent or more
   * ends it in the kill node. Otherwise an approval that was pending already or that the first position over the
   * threshold asks for makes it pause before the approval node, or run that node when approvals are switched off;
   * with neither it ends after the risk node.
   */
  lemma {:induction false} CycleOutcome(s: SystemState, cfg: Config, w: World)
    ensures var c := Invoke(s, cfg, w).checkpoint;
            var stopped := s.killSwitchActive || s.circuitBreakerActive || (w.redis.Some? && w.redis.value.halted)
                           || s.pnlTodayPct <= -0.02;
            && c.values.circuitBreakerActive == (s.circuitBreakerActive || s.pnlTodayPct <= -0.02)
            && c.values.killSwitchActive == stopped
            && c.values.lastReconciliationAt == Some(w.now)
            && c.values.openPositions == s.openPositions && c.values.tradesToday == s.tradesToday
            && c.values.pnlTodayPct == s.pnlTodayPct
            && if stopped then
                 && c.last == Kill && c.next == None && c.values.pendingHitlApproval == None
                 && c.values.lastError == Some(KillSwitchActivated) && c.values.lastErrorAt == Some(w.now)
               else
                 && c.values.lastError == s.lastError && c.values.lastErrorAt == s.lastErrorAt
                 && exists asked ::
                      && AsksAboutFirst(s.openPositions, cfg.startingCapital, w.now, s.pendingHitlApproval, asked)
                      && if asked == None then
                           c.last == Risk && c.next == None && c.values.pendingHitlApproval == None
                         else if cfg.enableHitl then
                           c.last == Risk && c.next == Some(Hitl) && c.values.pendingHitlApproval == asked
                         else c.last == Hitl && c.next == None && c.values.pendingHitlApproval == None
  {
    var s1 := RegimeNode(s, w);
    var s2 := SignalNode(s1, w);
    var s3 := ReconciliationNode(s2, w);
    var s4 := RiskNode(s3, cfg.startingCapital, w);
    InvokeRoutes(s, cfg, w);
    RiskNodeDecides(s3, cfg.startingCapital, w);
    ReconciliationNodeCounts(s2, w);
    RegimeOfCycle(s, w);
    hide Drive, AsksAboutFirst, RiskNode, ReconciliationNode, RegimeNode;
  }

  /** A position worth more than 5 percent of the capital stops an otherwise quiet cycle for approval. */
  lemma {:induction false} LargePositionPauses(s: SystemState, cfg: Config, w: World, n: nat, value: real)
    requires cfg.enableHitl && cfg.startingCapital > 0.0 && s.pnlTodayPct > -0.02 && !Halted(s)
    requires w.redis.Some? ==> !w.redis.value.halted
    requires n < |s.openPositions| && IsWorth(s.openPositions[n], value) && value > 0.05 * cfg.startingCapital
    ensures var c := Invoke(s, cfg, w).checkpoint;
            && c.next == Some(Hitl) && c.values.pendingHitlApproval.Some?
            && exists m :: 0 <= m <= n && s.openPositions[m].symbol == c.values.pendingHitlApproval.value.symbol
                           && OverThreshold(s.openPositions[m], cfg.startingCapital)
  {
    CycleOutcome(s, cfg, w);
    assert OverThreshold(s.openPositions[n], cfg.startingCapital);
    hide Drive, Invoke, OverThreshold, IsWorth;
  }

  /** The signal count of a cycle in full: the gates read the flags, Redis and the regime the cycle works with. */
  lemma {:induction false} CycleCounts(s: SystemState, cfg: Config, w: World)
    ensures var regime := if w.redis.Some? && w.redis.value.regime.Entry? && w.redis.value.regime.value.regime != ""
                          then w.redis.value.regime.value.regime else s.marketRegime;
            var c := Invoke(s, cfg, w).checkpoint;
            && c.values.marketRegime == regime
            && (w.redis == None || !w.redis.value.regime.Entry? || w.redis.value.regime.value.regime == "" ==>
                  c.values.regimeConfidence == s.regimeConfidence)
            && c.values.signalsToday == s.signalsToday +
                 (if && !s.killSwitchActive && !s.circuitBreakerActive && w.redis.Some? && !w.redis.value.halted
                     && !w.redis.value.degraded && regime != "HIGH_VOL_CHAOS" && w.redis.value.signal.Entry?
                     && (w.blocked.Some? ==> !w.blocked.value(w.redis.value.signal.value.symbol,
                                                              w.redis.value.signal.value.exchange))
                  then 1 else 0)
  {
    CycleCountsAdmitted(s, cfg, w);
    InvokeRoutes(s, cfg, w);
    RiskNodeDecides(ReconciliationNode(SignalNode(RegimeNode(s, w), w), w), cfg.startingCapital, w);
    hide Drive, Invoke, RiskNode;
  }

  function Cycles(calls: seq<Call>): nat {
    if calls == [] then 0 else Cycles(Front(calls)) + (if Last(calls).Cycle? then 1 else 0)
  }

  predicate CountedAtMost(x: Session, n: int) {
    x.state.signalsToday <= n && (x.checkpoint.Some? ==> x.checkpoint.value.values.signalsToday <= n)
  }

  /** Over any run from the graph's own state, at most one signal is counted per cycle call. */
  lemma {:induction false} AtMostOneSignalPerCycle(calls: seq<Call>, cfg: Config)
    requires OwnState(calls)
    ensures CountedAtMost(Run(START, calls, cfg), Cycles(calls))
  {
    if calls != [] {
      assert OwnState(Front(calls)) && Last(calls) in calls;
      AtMostOneSignalPerCycle(Front(calls), cfg);
      EveryRunSettles(Front(calls), Last(calls), cfg);
      CallCounts(Run(START, Front(calls), cfg), Last(calls), cfg);
      hide Perform, SignalAdmitted;
    }
  }

  /** The values of the last invocation, whether or not they were handed back. */
  function Latest(x: Session): SystemState {
    if x.checkpoint.Some? then x.checkpoint.value.values else x.state
  }

  /** How many signals the checkpoint has counted that the local state has not. */
  function Ahead(x: Session): int {
    Latest(x).signalsToday - x.state.signalsToday
  }

  /** The cycle calls whose signal was admitted. */
  function Admitted(calls: seq<Call>, cfg: Config): nat {
    if calls == [] then 0
    else
      var call, x := Last(calls), Run(START, Front(calls), cfg);
      Admitted(Front(calls), cfg) + (if call.Cycle? && SignalAdmitted(x.state, call.world) then 1 else 0)
  }

  /** The signals a cycle forgets: it starts from a local state that an earlier pause had not handed its count to. */
  function Dropped(calls: seq<Call>, cfg: Config): int {
    if calls == [] then 0
    else Dropped(Front(calls), cfg) + (if Last(calls).Cycle? then Ahead(Run(START, Front(calls), cfg)) else 0)
  }

  /** A cycle counts from the local state, any other call leaves the latest count alone. */
  lemma CallCounts(x: Session, call: Call, cfg: Config)
    requires SettledSession(x) && (call.Cycle? ==> call.input.None?)
    ensures var y := Perform(x, call, cfg);
            && (if call.Cycle? then
                  Latest(y).signalsToday ==
                  x.state.signalsToday + (if SignalAdmitted(x.state, call.world) then 1 else 0)
                else Latest(y).signalsToday == Latest(x).signalsToday)
            && (y.state.signalsToday == x.state.signalsToday || Ahead(y) == 0)
            && (cfg.pauseEchoes && Ahead(x) == 0 ==> Ahead(y) == 0)
  {
    if call.Cycle? {
      CycleCountsAdmitted(x.state, cfg, call.world);
      InvokeVisits(x.state, cfg, call.world);
    } else if x.checkpoint.Some? {
      var d := ResumedFrom(x.checkpoint.value, call);
      if d.next.Some? {
        CountSettled(d.values, d.last, d.next.value, cfg, call.world, true);
      }
    }
  }

  lemma InvokeVisits(s: SystemState, cfg: Config, w: World)
    ensures Invoke(s, cfg, w).visits != []
  {
  }

  /**
   * Over every own-state run the latest count is the number of admitted signals less the dropped ones. A signal is
   * dropped when a cycle follows a pause that handed nothing back; when pauses hand their values back none is, and the
   * local state counts exactly the admitted signals.
   */
  lemma {:induction false} SignalsCountedExactly(calls: seq<Call>, cfg: Config)
    requires OwnState(calls)
    ensures var x := Run(START, calls, cfg);
            && Latest(x).signalsToday == Admitted(calls, cfg) - Dropped(calls, cfg)
            && 0 <= Ahead(x) <= 1
            && (cfg.pauseEchoes ==> Dropped(calls, cfg) == 0 && x.state.signalsToday == Admitted(calls, cfg))
  {
    if calls != [] {
      assert OwnState(Front(calls)) && Last(calls) in calls;
      SignalsCountedExactly(Front(calls), cfg);
      EveryRunSettles(Front(calls), Last(calls), cfg);
      CallCounts(Run(START, Front(calls), cfg), Last(calls), cfg);
      hide Perform, SignalAdmitted;
    }
  }

  /** An approval that was asked for and given ends the cycle with the request cleared and nothing else changed. */
  lemma {:induction false} ApprovalClears(x: Session, w: World, cfg: Config)
    requires SettledSession(x) && x.checkpoint.Some? && x.checkpoint.value.next.Some?
    ensures var v := x.checkpoint.value.values;
            && Perform(x, Approve(w), cfg).state == v.(pendingHitlApproval := None)
            && VisitsOf(x, Approve(w), cfg) == [Visit(Hitl, v)]
  {
  }

  /** A rejection clears the request without running the approval node. */
  lemma {:induction false} RejectionClears(x: Session, w: World, cfg: Config)
    requires SettledSession(x) && x.checkpoint.Some? && x.checkpoint.value.next.Some?
    ensures var y := Perform(x, Reject(w), cfg);
            && VisitsOf(x, Reject(w), cfg) == []
            && y.checkpoint == Some(Checkpoint(x.checkpoint.value.values.(pendingHitlApproval := None), Risk, None))
            && y.state == if cfg.idleEchoes then y.checkpoint.value.values else x.state
  {
  }
}
