/** Whole runs of the clock-crossing bridge.

    A run is any list of clock edges: slave edge, master edge, or both at once.  What
    happened is read off the port pins alone (started, accepted, completed), so the
    theorems at the end speak about two Avalon ports and not about the FSMs. */
module ClockBridgeRuns {
  import opened ClockBridge

  /** One bus request as the pins of a port show it; a read carries no write data. */
  datatype Request = Request(write: bool, address: Nibble, byteenable: Nibble, writedata: Word32)
  /** A request that has been answered; a write brings no data back. */
  datatype Transfer = Transfer(request: Request, readdata: Word32)

  function PinsRequest(write: bool, address: Nibble, byteenable: Nibble, writedata: Word32): Request {
    Request(write, address, byteenable, if write then writedata else 0)
  }

  // What the strobes ask for: read takes precedence.
  predicate Writes(i: SlaveIn) { i.write && !i.read }

  function SlaveRequest(i: SlaveIn): Request {
    PinsRequest(Writes(i), i.address, i.byteenable, i.writedata)
  }

  function MasterRequest(m: MasterSide): Request {
    PinsRequest(m.write, m.address, m.byteenable, m.writedata)
  }

  function Requests(ts: seq<Transfer>): (rs: seq<Request>)
    ensures |rs| == |ts| && forall k :: 0 <= k < |ts| ==> rs[k] == ts[k].request
  {
    seq(|ts|, k requires 0 <= k < |ts| => ts[k].request)
  }

  datatype Edge =
    | Slave(i: SlaveIn)
    | Master(j: MasterIn)
    | Both(i: SlaveIn, j: MasterIn)

  predicate TicksSlave(e: Edge) { e.Slave? || e.Both? }
  predicate TicksMaster(e: Edge) { e.Master? || e.Both? }

  /** The registers, with a monitor on each port.  held: slave_waitrequest was high at
      the last slave edge, whose pins were lastIn. */
  datatype World = World(
    s: SlaveSide, m: MasterSide,
    held: bool, lastIn: SlaveIn,
    started: seq<Request>, accepted: seq<Transfer>, completed: seq<Transfer>)

  function Reset(d: nat): World
    requires d >= 1
  {
    World(ResetSlave(d), ResetMaster(d), false, SlaveIn(false, false, 0, 0, 0), [], [], [])
  }

  // The master on the slave port starts a request: pins asserted, none pending.
  predicate Starts(w: World, i: SlaveIn) {
    !w.held && (i.read || i.write)
  }

  // The bridge lets the pending request go.
  predicate Completes(w: World, i: SlaveIn) {
    (i.read || i.write) && !SlaveWait(w.s, i)
  }

  // The slave on the master port takes the request.
  predicate Accepts(w: World, j: MasterIn) {
    (w.m.read || w.m.write) && !j.waitrequest
  }

  function Step(w: World, e: Edge): World {
    World(
      if TicksSlave(e) then SlaveEdge(w.s, w.m, e.i) else w.s,
      if TicksMaster(e) then MasterEdge(w.s, w.m, e.j) else w.m,
      if TicksSlave(e) then SlaveWait(w.s, e.i) else w.held,
      if TicksSlave(e) then e.i else w.lastIn,
      if TicksSlave(e) && Starts(w, e.i) then w.started + [SlaveRequest(e.i)] else w.started,
      if TicksMaster(e) && Accepts(w, e.j)
      then w.accepted + [Transfer(MasterRequest(w.m), if w.m.write then 0 else e.j.readdata)] else w.accepted,
      if TicksSlave(e) && Completes(w, e.i)
      then w.completed + [Transfer(SlaveRequest(e.i), if Writes(e.i) then 0 else w.s.readdata)] else w.completed)
  }

  /** The Avalon rule for whoever drives the slave port: pins are held while waitrequest is
      high.  Asserting read and write together is allowed, and is a read. */
  predicate Obeys(w: World, e: Edge) {
    TicksSlave(e) && w.held ==> e.i == w.lastIn
  }

  function Run(w: World, es: seq<Edge>): World
    decreases |es|
  {
    if es == [] then w else Run(Step(w, es[0]), es[1..])
  }

  predicate LegalRun(w: World, es: seq<Edge>)
    decreases |es|
  {
    es != [] ==> Obeys(w, es[0]) && LegalRun(Step(w, es[0]), es[1..])
  }

  ghost predicate Reachable(d: nat, w: World) {
    d >= 1 && exists es :: LegalRun(Reset(d), es) && Run(Reset(d), es) == w
  }

  // ---------- the protocol invariant ----------

  /** How far a toggle has walked into a chain: with v at the source, the first k flops
      hold v and the rest hold the old value; at |flops| the pulse is out, and at
      |flops| + 1 the chain is flat. */
  predicate Walked(c: Chain, v: bool, k: nat) {
    && k <= |c.flops| + 1
    && (forall n :: 0 <= n < |c.flops| ==> c.flops[n] == if n < k then v else !v)
    && c.last == if k <= |c.flops| then !v else v
  }

  lemma WalkClock(c: Chain, v: bool, k: nat)
    requires Walked(c, v, k)
    ensures |ClockChain(c, v).flops| == |c.flops|
    ensures Walked(ClockChain(c, v), v, if k <= |c.flops| then k + 1 else k)
  {}

  /** Where the one outstanding request is. */
  datatype Phase = Quiet | Requesting(k: nat) | Busy | Finishing(k: nat)

  function NextPhase(d: nat, w: World, p: Phase, e: Edge): Phase {
    match p
    case Quiet => if TicksSlave(e) && Starts(w, e.i) then Requesting(0) else Quiet
    case Requesting(k) => if !TicksMaster(e) then p else if k == d then Busy else Requesting(k + 1)
    case Busy => if TicksMaster(e) && !e.j.waitrequest then Finishing(0) else p
    case Finishing(k) => if !TicksSlave(e) then p else if k == d then Quiet else Finishing(k + 1)
  }

  // A chain of depth d that carries the toggle of an operation that is (or is not) under way.
  predicate ChainAt(d: nat, c: Chain, v: bool, moving: bool, k: nat) {
    |c.flops| == d && Walked(c, v, if moving then k else d + 1)
  }

  predicate RequestChainsAt(d: nat, w: World, p: Phase) {
    var k := if p.Requesting? then p.k else 0;
    && ChainAt(d, w.m.readRequest, w.s.readRequest, p.Requesting? && !Writes(w.lastIn), k)
    && ChainAt(d, w.m.writeRequest, w.s.writeRequest, p.Requesting? && Writes(w.lastIn), k)
  }

  predicate DoneChainsAt(d: nat, w: World, p: Phase) {
    var k := if p.Finishing? then p.k else 0;
    && ChainAt(d, w.s.readDone, w.m.readDone, p.Finishing? && !Writes(w.lastIn), k)
    && ChainAt(d, w.s.writeDone, w.m.writeDone, p.Finishing? && Writes(w.lastIn), k)
  }
  predicate FsmsAt(d: nat, w: World, p: Phase) {
    var write := Writes(w.lastIn);
    && (p.Requesting? || p.Finishing? ==> p.k <= d)
    && w.s.state == (if p.Quiet? then IDLE else if write then WRITE_WAIT else READ_WAIT)
    && w.m.state == (if !p.Busy? then IDLE else if write then WRITE_WAIT else READ_WAIT)
    && w.m.read == (p.Busy? && !write)
    && w.m.write == (p.Busy? && write)
    && w.held == !p.Quiet?
  }

  predicate DataAt(w: World, p: Phase) {
    && (!p.Quiet? ==>
          && (w.lastIn.read || w.lastIn.write)
          && (w.s.address, w.s.byteenable, w.s.writedata) == (w.lastIn.address, w.lastIn.byteenable, w.lastIn.writedata))
    && (p.Busy? ==> (w.m.address, w.m.byteenable, w.m.writedata) == (w.s.address, w.s.byteenable, w.s.writedata))
  }

  predicate LogsAt(w: World, p: Phase) {
    && |w.started| == |w.completed| + (if p.Quiet? then 0 else 1)
    && |w.accepted| == |w.completed| + (if p.Finishing? then 1 else 0)
    && (forall n :: 0 <= n < |w.accepted| ==> w.accepted[n].request == w.started[n])
    && w.completed == w.accepted[..|w.completed|]
    && (!p.Quiet? ==> w.started[|w.started| - 1] == SlaveRequest(w.lastIn))
    && (p.Finishing? ==>
          var t := w.accepted[|w.accepted| - 1];
          if Writes(w.lastIn) then t.readdata == 0
          else w.m.readdataP1 == t.readdata && (p.k >= 1 ==> w.s.readdata == t.readdata))
  }

  predicate At(d: nat, w: World, p: Phase) {
    d >= 1 && RequestChainsAt(d, w, p) && DoneChainsAt(d, w, p) && FsmsAt(d, w, p) && DataAt(w, p) && LogsAt(w, p)
  }

  // When each edge detector emits its pulse.
  predicate PulsesAt(d: nat, w: World, p: Phase) {
    && (Token(w.m.readRequest) <==> p == Requesting(d) && !Writes(w.lastIn))
    && (Token(w.m.writeRequest) <==> p == Requesting(d) && Writes(w.lastIn))
    && (Token(w.s.readDone) <==> p == Finishing(d) && !Writes(w.lastIn))
    && (Token(w.s.writeDone) <==> p == Finishing(d) && Writes(w.lastIn))
  }

  lemma ChainsPulse(d: nat, w: World, p: Phase)
    requires d >= 1 && RequestChainsAt(d, w, p) && DoneChainsAt(d, w, p)
    ensures PulsesAt(d, w, p)
  {}

  lemma ResetIsQuiet(d: nat)
    requires d >= 1
    ensures At(d, Reset(d), Quiet)
  {}

  lemma ChainStep(d: nat, c: Chain, v: bool, moving: bool, k: nat, clocked: bool, toggles: bool)
    requires ChainAt(d, c, v, moving, k) && k <= d && (toggles ==> !moving)
    ensures ChainAt(d, if clocked then ClockChain(c, v) else c, if toggles then !v else v,
                    toggles || (moving && !(clocked && k == d)),
                    if toggles then 0 else if clocked && k < d then k + 1 else k)
  {
    WalkClock(c, v, if moving then k else d + 1);
  }

  lemma RequestChainsStep(d: nat, w: World, p: Phase, e: Edge)
    requires RequestChainsAt(d, w, p) && FsmsAt(d, w, p) && DataAt(w, p) && Obeys(w, e)
    ensures RequestChainsAt(d, Step(w, e), NextPhase(d, w, p, e))
  {
    var k := if p.Requesting? then p.k else 0;
    var starts := TicksSlave(e) && p.Quiet?;
    ChainStep(d, w.m.readRequest, w.s.readRequest, p.Requesting? && !Writes(w.lastIn), k,
              TicksMaster(e), starts && e.i.read);
    ChainStep(d, w.m.writeRequest, w.s.writeRequest, p.Requesting? && Writes(w.lastIn), k,
              TicksMaster(e), starts && Writes(e.i));
  }

  lemma DoneChainsStep(d: nat, w: World, p: Phase, e: Edge)
    requires DoneChainsAt(d, w, p) && PulsesAt(d, w, p) && FsmsAt(d, w, p) && DataAt(w, p) && Obeys(w, e)
    ensures DoneChainsAt(d, Step(w, e), NextPhase(d, w, p, e))
  {
    var k := if p.Finishing? then p.k else 0;
    var accepts := TicksMaster(e) && p.Busy? && !e.j.waitrequest;
    ChainStep(d, w.s.readDone, w.m.readDone, p.Finishing? && !Writes(w.lastIn), k,
              TicksSlave(e), accepts && !Writes(w.lastIn));
    ChainStep(d, w.s.writeDone, w.m.writeDone, p.Finishing? && Writes(w.lastIn), k,
              TicksSlave(e), accepts && Writes(w.lastIn));
  }

  lemma FsmsStep(d: nat, w: World, p: Phase, e: Edge)
    requires PulsesAt(d, w, p) && FsmsAt(d, w, p) && DataAt(w, p) && Obeys(w, e)
    ensures FsmsAt(d, Step(w, e), NextPhase(d, w, p, e))
    ensures DataAt(Step(w, e), NextPhase(d, w, p, e))
  {
  }

  // The three observable happenings, in terms of the phase.
  lemma WhatHappens(d: nat, w: World, p: Phase, e: Edge)
    requires PulsesAt(d, w, p) && FsmsAt(d, w, p) && DataAt(w, p) && Obeys(w, e)
    ensures TicksSlave(e) ==> (Starts(w, e.i) <==> p.Quiet? && (e.i.read || e.i.write))
    ensures TicksSlave(e) ==> (Completes(w, e.i) <==> p == Finishing(d))
    ensures TicksSlave(e) && !p.Quiet? ==> SlaveRequest(e.i) == SlaveRequest(w.lastIn) && Writes(e.i) == Writes(w.lastIn)
    ensures TicksMaster(e) ==> (Accepts(w, e.j) <==> p.Busy? && !e.j.waitrequest)
    ensures p.Busy? ==> MasterRequest(w.m) == SlaveRequest(w.lastIn) && w.m.write == Writes(w.lastIn)
  {}

  lemma LogsStep(d: nat, w: World, p: Phase, e: Edge)
    requires d >= 1 && PulsesAt(d, w, p) && FsmsAt(d, w, p) && DataAt(w, p) && LogsAt(w, p) && Obeys(w, e)
    ensures LogsAt(Step(w, e), NextPhase(d, w, p, e))
  {
    WhatHappens(d, w, p, e);
    var w' := Step(w, e);
    match p
    case Quiet =>
      assert w'.accepted == w.accepted && w'.completed == w.completed;
    case Requesting(_) =>
      assert w'.started == w.started && w'.accepted == w.accepted && w'.completed == w.completed;
    case Busy =>
      assert w'.started == w.started && w'.completed == w.completed;
    case Finishing(_) =>
      assert w'.started == w.started && w'.accepted == w.accepted;
  }

  lemma StepKeeps(d: nat, w: World, p: Phase, e: Edge)
    requires At(d, w, p) && Obeys(w, e)
    ensures At(d, Step(w, e), NextPhase(d, w, p, e))
  {
    ChainsPulse(d, w, p);
    RequestChainsStep(d, w, p, e);
    DoneChainsStep(d, w, p, e);
    FsmsStep(d, w, p, e);
    LogsStep(d, w, p, e);
  }

  lemma {:induction false} RunKeeps(d: nat, w: World, p: Phase, es: seq<Edge>) returns (q: Phase)
    requires At(d, w, p) && LegalRun(w, es)
    ensures At(d, Run(w, es), q)
    decreases |es|
  {
    if es == [] {
      q := p;
    } else {
      StepKeeps(d, w, p, es[0]);
      q := RunKeeps(d, Step(w, es[0]), NextPhase(d, w, p, es[0]), es[1..]);
    }
  }

  lemma PhaseOf(d: nat, w: World) returns (p: Phase)
    requires Reachable(d, w)
    ensures At(d, w, p)
  {
    var es :| LegalRun(Reset(d), es) && Run(Reset(d), es) == w;
    ResetIsQuiet(d);
    p := RunKeeps(d, Reset(d), Quiet, es);
  }

  // ---------- safety ----------

  /** Seen from its two ports the bridge is a bus with a register in it: what is
      accepted on the far side is what was started here, in order and at most one
      behind; what is handed back, read data included, is what the far side answered,
      in order; and at most one request is ever open. */
  lemma RefinesAtomicBus(d: nat, w: World)
    requires Reachable(d, w)
    ensures Requests(w.accepted) <= w.started && |w.started| - |w.accepted| <= 1
    ensures w.completed <= w.accepted && |w.started| - |w.completed| <= 1
  {
    var p := PhaseOf(d, w);
  }

  /** The registers that cross without a synchroniser: while the master port asserts a
      request, its pins show exactly the request the slave port started last, which is
      the one not yet accepted. */
  lemma MasterPinsShowRequest(d: nat, w: World)
    requires Reachable(d, w)
    ensures !(w.m.read && w.m.write)
    ensures w.m.read || w.m.write ==>
              |w.started| == |w.accepted| + 1 && MasterRequest(w.m) == w.started[|w.accepted|]
  {
    var p := PhaseOf(d, w);
  }

  /** The bridge keeps at its master port the rule it relies on at its slave port: a
      request that has not been accepted stays on the pins, unchanged, over any edge. */
  lemma MasterPinsHold(d: nat, w: World, e: Edge)
    requires Reachable(d, w) && Obeys(w, e)
    requires w.m.read || w.m.write
    requires !(TicksMaster(e) && Accepts(w, e.j))
    ensures var m' := Step(w, e).m;
            (m'.read, m'.write, m'.address, m'.byteenable, m'.writedata)
            == (w.m.read, w.m.write, w.m.address, w.m.byteenable, w.m.writedata)
  {
    var p := PhaseOf(d, w);
    StepKeeps(d, w, p, e);
  }

  /** In the cycle slave_waitrequest drops for a read, slave_readdata is what the far
      side answered to this very request. */
  lemma ReadDataReturns(d: nat, w: World, i: SlaveIn)
    requires Reachable(d, w) && Obeys(w, Slave(i))
    requires i.read && !SlaveWait(w.s, i)
    ensures |w.accepted| == |w.completed| + 1
    ensures w.accepted[|w.completed|] == Transfer(SlaveRequest(i), w.s.readdata)
  {
    var p := PhaseOf(d, w);
    ChainsPulse(d, w, p);
    WhatHappens(d, w, p, Slave(i));
  }

  /** What the last accepted read was answered; writes leave it alone. */
  function LastRead(accepted: seq<Transfer>): Word32 {
    if accepted == [] then 0
    else
      var last := accepted[|accepted| - 1];
      if last.request.write then LastRead(accepted[..|accepted| - 1]) else last.readdata
  }

  lemma CaptureStep(d: nat, w: World, p: Phase, e: Edge)
    requires At(d, w, p) && Obeys(w, e) && w.m.readdataP1 == LastRead(w.accepted)
    ensures Step(w, e).m.readdataP1 == LastRead(Step(w, e).accepted)
  {
    var w' := Step(w, e);
    if TicksMaster(e) && Accepts(w, e.j) {
      assert w'.accepted[..|w.accepted|] == w.accepted;
    }
  }

  lemma {:induction false} CaptureRuns(d: nat, w: World, p: Phase, es: seq<Edge>)
    requires At(d, w, p) && LegalRun(w, es) && w.m.readdataP1 == LastRead(w.accepted)
    ensures Run(w, es).m.readdataP1 == LastRead(Run(w, es).accepted)
    decreases |es|
  {
    if es == [] {
    } else {
      StepKeeps(d, w, p, es[0]);
      CaptureStep(d, w, p, es[0]);
      CaptureRuns(d, Step(w, es[0]), NextPhase(d, w, p, es[0]), es[1..]);
    }
  }

  /** The capture register on the master side always holds the answer to the last accepted
      read, whatever writes have come since. */
  lemma ReadDataCaptured(d: nat, w: World)
    requires Reachable(d, w)
    ensures w.m.readdataP1 == LastRead(w.accepted)
  {
    var es :| LegalRun(Reset(d), es) && Run(Reset(d), es) == w;
    ResetIsQuiet(d);
    CaptureRuns(d, Reset(d), Quiet, es);
  }

  /** The number of places where neighbouring bits differ. */
  function Changes(bits: seq<bool>): nat {
    if |bits| < 2 then 0 else (if bits[0] != bits[1] then 1 else 0) + Changes(bits[1..])
  }

  // The toggle register, the synchroniser flops and the edge flop, in wire order.
  function Wire(source: bool, c: Chain): seq<bool> {
    [source] + c.flops + [c.last]
  }

  lemma {:induction false} ChangesOfWalk(bits: seq<bool>, v: bool, k: nat)
    requires k <= |bits|
    requires forall n :: 0 <= n < |bits| ==> bits[n] == if n < k then v else !v
    ensures Changes(bits) == if 0 < k < |bits| then 1 else 0
    decreases |bits|
  {
    if |bits| >= 2 {
      ChangesOfWalk(bits[1..], v, if k > 0 then k - 1 else 0);
    }
  }

  lemma WireChanges(c: Chain, v: bool, k: nat)
    requires Walked(c, v, k)
    ensures Changes(Wire(v, c)) == if k <= |c.flops| then 1 else 0
  {
    ChangesOfWalk(Wire(v, c), v, k + 1);
  }

  /** All four toggle wires together carry at most one value change; when the slave FSM
      is idle they carry none and the master FSM is idle too.  Both FSMs stay on their
      three one-hot codes. */
  lemma OneToggleInFlight(d: nat, w: World)
    requires Reachable(d, w)
    ensures var total := Changes(Wire(w.s.readRequest, w.m.readRequest)) + Changes(Wire(w.s.writeRequest, w.m.writeRequest))
                       + Changes(Wire(w.m.readDone, w.s.readDone)) + Changes(Wire(w.m.writeDone, w.s.writeDone));
            total <= 1 && (w.s.state == IDLE ==> total == 0 && w.m.state == IDLE)
                       && (w.m.state != IDLE ==> total == 0 && w.s.state == w.m.state)
    ensures w.s.state in {IDLE, READ_WAIT, WRITE_WAIT} && w.m.state in {IDLE, READ_WAIT, WRITE_WAIT}
  {
    var p := PhaseOf(d, w);
    var write := Writes(w.lastIn);
    WireChanges(w.m.readRequest, w.s.readRequest, if p.Requesting? && !write then p.k else d + 1);
    WireChanges(w.m.writeRequest, w.s.writeRequest, if p.Requesting? && write then p.k else d + 1);
    WireChanges(w.s.readDone, w.m.readDone, if p.Finishing? && !write then p.k else d + 1);
    WireChanges(w.s.writeDone, w.m.writeDone, if p.Finishing? && write then p.k else d + 1);
  }

  /** A pulse only ever reaches an FSM that is waiting for it. */
  lemma PulsesAreAwaited(d: nat, w: World)
    requires Reachable(d, w)
    ensures Token(w.m.readRequest) || Token(w.m.writeRequest) ==>
              w.m.state == IDLE && !(Token(w.m.readRequest) && Token(w.m.writeRequest))
    ensures Token(w.s.readDone) ==> w.s.state == READ_WAIT
    ensures Token(w.s.writeDone) ==> w.s.state == WRITE_WAIT
  {
    var p := PhaseOf(d, w);
    ChainsPulse(d, w, p);
  }

  // ---------- how long it takes ----------

  function MasterTicks(es: seq<Edge>): nat {
    if es == [] then 0 else (if TicksMaster(es[0]) then 1 else 0) + MasterTicks(es[1..])
  }

  function Stalls(es: seq<Edge>): nat {
    if es == [] then 0 else (if TicksMaster(es[0]) && es[0].j.waitrequest then 1 else 0) + Stalls(es[1..])
  }

  function SlaveTicks(es: seq<Edge>): nat {
    if es == [] then 0 else (if TicksSlave(es[0]) then 1 else 0) + SlaveTicks(es[1..])
  }

  lemma {:induction false} LogsGrow(w: World, es: seq<Edge>)
    ensures w.started <= Run(w, es).started
    ensures w.accepted <= Run(w, es).accepted
    ensures w.completed <= Run(w, es).completed
    decreases |es|
  {
    if es == [] {
    } else {
      LogsGrow(Step(w, es[0]), es[1..]);
    }
  }

  // Master edges still needed before acceptance, if none of them stalls.
  function EdgesToAccept(d: nat, p: Phase): int {
    match p
    case Requesting(k) => d + 2 - k
    case Busy => 1
    case _ => 0
  }

  // Slave edges still needed before the slave FSM is idle again.
  function EdgesToComplete(d: nat, p: Phase): int {
    match p
    case Finishing(k) => d + 1 - k
    case _ => 0
  }

  predicate Unstalled(e: Edge) {
    TicksMaster(e) && !e.j.waitrequest
  }

  /** Some unstalled master edge of the list is its master edge number n, or a later one. */
  ghost predicate UnstalledFrom(es: seq<Edge>, n: int) {
    exists k :: 0 <= k < |es| && Unstalled(es[k]) && MasterTicks(es[..k + 1]) >= n
  }

  // The same, edge by edge.
  predicate Served(es: seq<Edge>, n: int) {
    es != [] && ((n <= 1 && Unstalled(es[0])) || Served(es[1..], if TicksMaster(es[0]) && n > 1 then n - 1 else n))
  }

  lemma TicksOfPrefix(es: seq<Edge>, k: nat)
    requires k < |es|
    ensures MasterTicks(es[..k + 1]) == (if TicksMaster(es[0]) then 1 else 0) + MasterTicks(es[1..][..k])
  {
    assert es[..k + 1][1..] == es[1..][..k];
  }

  lemma {:induction false} UnstalledCounts(es: seq<Edge>, k: nat)
    requires k < |es| && Unstalled(es[k])
    ensures MasterTicks(es[..k + 1]) >= 1
    decreases k
  {
    TicksOfPrefix(es, k);
    if k == 0 {
    } else {
      UnstalledCounts(es[1..], k - 1);
    }
  }

  lemma {:induction false} ServedHas(es: seq<Edge>, n: int) returns (k: nat)
    requires Served(es, n)
    ensures k < |es| && Unstalled(es[k]) && MasterTicks(es[..k + 1]) >= n
  {
    if n <= 1 && Unstalled(es[0]) {
      k := 0;
      UnstalledCounts(es, 0);
    } else {
      var j := ServedHas(es[1..], if TicksMaster(es[0]) && n > 1 then n - 1 else n);
      k := j + 1;
      TicksOfPrefix(es, k);
    }
  }

  lemma {:induction false} HasServed(es: seq<Edge>, n: int, k: nat)
    requires k < |es| && Unstalled(es[k]) && MasterTicks(es[..k + 1]) >= n
    ensures Served(es, n)
    decreases k
  {
    TicksOfPrefix(es, k);
    if k == 0 {
    } else {
      UnstalledCounts(es[1..], k - 1);
      HasServed(es[1..], if TicksMaster(es[0]) && n > 1 then n - 1 else n, k - 1);
    }
  }

  lemma ServedMeans(es: seq<Edge>, n: int)
    ensures Served(es, n) <==> UnstalledFrom(es, n)
  {
    if Served(es, n) {
      var k := ServedHas(es, n);
    }
    if UnstalledFrom(es, n) {
      var k :| 0 <= k < |es| && Unstalled(es[k]) && MasterTicks(es[..k + 1]) >= n;
      HasServed(es, n, k);
    }
  }

  // Counting edges and stalls settles it in the clear cases.
  lemma {:induction false} ServedBounds(es: seq<Edge>, n: int)
    ensures MasterTicks(es) > Stalls(es) && MasterTicks(es) >= n + Stalls(es) ==> Served(es, n)
    ensures MasterTicks(es) < n || MasterTicks(es) == Stalls(es) ==> !Served(es, n)
    ensures MasterTicks(es) >= Stalls(es)
  {
    if es == [] {
    } else {
      ServedBounds(es[1..], if TicksMaster(es[0]) && n > 1 then n - 1 else n);
    }
  }

  // What one edge does to a request on its way to acceptance.
  lemma AcceptanceStep(d: nat, w: World, p: Phase, e: Edge)
    requires At(d, w, p) && Obeys(w, e) && (p.Requesting? || p.Busy?)
    ensures var w', p', n := Step(w, e), NextPhase(d, w, p, e), EdgesToAccept(d, p);
            && At(d, w', p') && n >= 1
            && (if n <= 1 && Unstalled(e) then |w'.accepted| > |w.accepted|
                else
                  && w'.accepted == w.accepted && (p'.Requesting? || p'.Busy?)
                  && EdgesToAccept(d, p') == if TicksMaster(e) && n > 1 then n - 1 else n)
  {
    ChainsPulse(d, w, p);
    WhatHappens(d, w, p, e);
    StepKeeps(d, w, p, e);
  }

  /** The open request is accepted exactly at the first unstalled master edge that is not too
      early; stalled edges before that cost nothing. */
  lemma {:induction false} AcceptanceRank(d: nat, w: World, p: Phase, es: seq<Edge>)
    requires At(d, w, p) && LegalRun(w, es) && (p.Requesting? || p.Busy?)
    ensures Served(es, EdgesToAccept(d, p)) ==> |Run(w, es).accepted| > |w.accepted|
    ensures !Served(es, EdgesToAccept(d, p)) ==> Run(w, es).accepted == w.accepted
    decreases |es|
  {
    if es == [] {
    } else {
      var e := es[0];
      AcceptanceStep(d, w, p, e);
      if EdgesToAccept(d, p) <= 1 && Unstalled(e) {
        LogsGrow(Step(w, e), es[1..]);
      } else {
        AcceptanceRank(d, Step(w, e), NextPhase(d, w, p, e), es[1..]);
      }
    }
  }

  lemma {:induction false} CompletionRank(d: nat, w: World, p: Phase, es: seq<Edge>)
    requires At(d, w, p) && LegalRun(w, es) && p.Finishing?
    ensures SlaveTicks(es) >= EdgesToComplete(d, p) <==> |Run(w, es).completed| > |w.completed|
    decreases |es|
  {
    if es == [] {
    } else {
      var e := es[0];
      ChainsPulse(d, w, p);
      WhatHappens(d, w, p, e);
      StepKeeps(d, w, p, e);
      var w', p' := Step(w, e), NextPhase(d, w, p, e);
      if p'.Quiet? {
        LogsGrow(w', es[1..]);
      } else {
        CompletionRank(d, w', p', es[1..]);
      }
    }
  }

  /** From any reachable moment, d + 2 master edges beyond the stalled ones get the open
      request accepted. */
  lemma AcceptedInTime(d: nat, w: World, es: seq<Edge>)
    requires Reachable(d, w) && LegalRun(w, es)
    ensures |w.started| > |w.accepted| && MasterTicks(es) >= d + 2 + Stalls(es) ==>
              |Run(w, es).accepted| > |w.accepted|
  {
    var p := PhaseOf(d, w);
    if |w.started| > |w.accepted| {
      AcceptanceRank(d, w, p, es);
      ServedBounds(es, EdgesToAccept(d, p));
    }
  }

  lemma RunCons(w: World, e: Edge, es: seq<Edge>)
    ensures Run(w, [e] + es) == Run(Step(w, e), es)
    ensures LegalRun(w, [e] + es) <==> Obeys(w, e) && LegalRun(Step(w, e), es)
  {
    assert ([e] + es)[0] == e && ([e] + es)[1..] == es;
  }

  lemma StartThenServed(d: nat, w: World, e: Edge, es: seq<Edge>)
    requires Reachable(d, w) && LegalRun(w, [e] + es)
    requires TicksSlave(e) && Starts(w, e.i)
    ensures |Run(w, [e] + es).accepted| > |w.accepted| <==> Served(es, d + 2)
  {
    var p := PhaseOf(d, w);
    RunCons(w, e, es);
    StepKeeps(d, w, p, e);
    AcceptanceRank(d, Step(w, e), Requesting(0), es);
  }

  /** The exact moment, whatever the stalls: counted from the edge that starts a request, it
      has been accepted precisely if some unstalled master edge is number d + 2 or later.
      Stalled edges before that number cost nothing; without stalls it is edge d + 2. */
  lemma AcceptanceLatency(d: nat, w: World, e: Edge, es: seq<Edge>)
    requires Reachable(d, w) && LegalRun(w, [e] + es)
    requires TicksSlave(e) && Starts(w, e.i)
    ensures |Run(w, [e] + es).accepted| > |w.accepted| <==> UnstalledFrom(es, d + 2)
    ensures Stalls(es) == 0 ==> (UnstalledFrom(es, d + 2) <==> MasterTicks(es) >= d + 2)
  {
    StartThenServed(d, w, e, es);
    ServedMeans(es, d + 2);
    ServedBounds(es, d + 2);
  }

  /** Once accepted, d + 1 slave edges bring the answer home. */
  lemma CompletedInTime(d: nat, w: World, es: seq<Edge>)
    requires Reachable(d, w) && LegalRun(w, es)
    ensures |w.accepted| > |w.completed| && SlaveTicks(es) >= d + 1 ==> |Run(w, es).completed| > |w.completed|
  {
    var p := PhaseOf(d, w);
    if |w.accepted| > |w.completed| {
      CompletionRank(d, w, p, es);
    }
  }

  /** This bound is exact as well: counted from the edge that accepts the request, the
      answer is handed back precisely at slave edge number d + 1, never before. */
  lemma CompletionLatency(d: nat, w: World, e: Edge, es: seq<Edge>)
    requires Reachable(d, w) && LegalRun(w, [e] + es)
    requires TicksMaster(e) && Accepts(w, e.j)
    ensures |Run(w, [e] + es).completed| > |w.completed| <==> SlaveTicks(es) >= d + 1
  {
    var p := PhaseOf(d, w);
    StepKeeps(d, w, p, e);
    RunCons(w, e, es);
    CompletionRank(d, Step(w, e), Finishing(0), es);
  }

  lemma {:induction false} RunAppend(w: World, a: seq<Edge>, b: seq<Edge>)
    ensures Run(w, a + b) == Run(Run(w, a), b)
    ensures LegalRun(w, a + b) <==> LegalRun(w, a) && LegalRun(Run(w, a), b)
    decreases |a|
  {
    if a == [] {
      assert a + b == b;
    } else {
      assert (a + b)[0] == a[0] && (a + b)[1..] == a[1..] + b;
      RunAppend(Step(w, a[0]), a[1..], b);
    }
  }

  lemma ReachableOn(d: nat, w: World, es: seq<Edge>)
    requires Reachable(d, w) && LegalRun(w, es)
    ensures Reachable(d, Run(w, es))
  {
    var before :| LegalRun(Reset(d), before) && Run(Reset(d), before) == w;
    RunAppend(Reset(d), before, es);
  }

  /** No request is lost or stuck: any open request is over after d + 2 unstalled master
      edges followed by d + 1 slave edges, whatever else the clocks do meanwhile. */
  lemma EveryRequestCompletes(d: nat, w: World, a: seq<Edge>, b: seq<Edge>)
    requires Reachable(d, w) && LegalRun(w, a + b)
    requires |w.started| > |w.completed|
    requires MasterTicks(a) >= d + 2 + Stalls(a) && SlaveTicks(b) >= d + 1
    ensures |Run(w, a + b).completed| > |w.completed|
  {
    RunAppend(w, a, b);
    ReachableOn(d, w, a);
    var mid := Run(w, a);
    LogsGrow(w, a);
    LogsGrow(mid, b);
    if |w.started| > |w.accepted| {
      AcceptedInTime(d, w, a);
    }
    if |mid.completed| == |w.completed| {
      RefinesAtomicBus(d, w);
      CompletedInTime(d, mid, b);
    }
  }

  // ---------- the registers in a run ----------

  // The registers of a bridge are those of a world.
  predicate Shows(bridge: Bridge, w: World)
    reads bridge.slave, bridge.master
  {
    bridge.slave.Value() == w.s && bridge.master.Value() == w.m
  }

  /** One clock edge on the registers, with the monitors on the two ports. */
  method Drive(bridge: Bridge, w: World, e: Edge) returns (w': World)
    requires Shows(bridge, w)
    modifies bridge.slave, bridge.master
    ensures w' == Step(w, e) && Shows(bridge, w')
  {
    w' := Step(w, e);
    match e {
      case Slave(i) => bridge.ClockSlave(i);
      case Master(j) => bridge.ClockMaster(j);
      case Both(i, j) => bridge.ClockBoth(i, j);
    }
  }

  // One edge more of a list.
  lemma RunPrefix(w: World, es: seq<Edge>, n: nat)
    requires n < |es|
    ensures Run(w, es[..n + 1]) == Step(Run(w, es[..n]), es[n])
  {
    assert es[..n + 1] == es[..n] + [es[n]];
    RunAppend(w, es[..n], [es[n]]);
  }

  lemma ReachedBy(d: nat, es: seq<Edge>, prefix: seq<Edge>)
    requires d >= 1 && LegalRun(Reset(d), es) && prefix == es
    ensures Reachable(d, Run(Reset(d), prefix)) && Run(Reset(d), prefix) == Run(Reset(d), es)
  {}

  /** A bridge out of reset under any legal clock edges: its registers are those of the
      run, so the theorems about Reachable speak about them. */
  method DriveAll(depth: nat, es: seq<Edge>) returns (bridge: Bridge, w: World)
    requires depth >= 1 && LegalRun(Reset(depth), es)
    ensures w == Run(Reset(depth), es) && Shows(bridge, w) && Reachable(depth, w)
    ensures Requests(w.accepted) <= w.started && w.completed <= w.accepted
  {
    bridge := new Bridge(depth);
    w := Reset(depth);
    var n := 0;
    while n < |es|
      invariant 0 <= n <= |es| && w == Run(Reset(depth), es[..n]) && Shows(bridge, w)
      invariant fresh(bridge) && fresh(bridge.slave) && fresh(bridge.master)
    {
      RunPrefix(Reset(depth), es, n);
      w := Drive(bridge, w, es[n]);
      n := n + 1;
    }
    ReachedBy(depth, es, es[..n]);
    RefinesAtomicBus(depth, w);
  }
}
