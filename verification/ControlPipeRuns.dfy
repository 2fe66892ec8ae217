/** Whole runs of the control-pipe engine from power-on: which states are reachable, and
    which SETUP a dispatched request belongs to. */
module ControlPipeRuns {
  import opened Bytes
  import opened Hal
  import opened ControlPipe

  datatype Option<T> = None | Some(value: T)

  function RunFromPowerOn(es: seq<Event>): Pipe {
    Run(PowerOn(), es)
  }

  // ---------- what a dispatched handler can do ----------

  predicate IsStandard(r: Setup, code: Byte) {
    RequestClass(r) == 0 && RequestCode(r) == code
  }

  predicate IsSetAddress(r: Setup) { IsStandard(r, 5) }
  predicate IsGetConfiguration(r: Setup) { IsStandard(r, 8) }
  predicate IsSetConfiguration(r: Setup) { IsStandard(r, 9) }

  // How any handler leaves the engine.
  predicate Settled(s: Pipe, t: Pipe) {
    && t.request == s.request && t.fifo == s.fifo && !t.abort
    && t.dcp in {IDLE, HANDSHAKE, STALL, DATAIN}
    && (t.dcp == DATAIN ==> t.wCount == EP0_PACKET_SIZE <= t.wLength <= |t.data|)
  }

  /** The state bits, the configuration and the chip's address register are left alone. */
  predicate SameDevice(s: Pipe, t: Pipe) {
    (t.isDefault, t.isAddress, t.isConfigured, t.configuration, t.address)
    == (s.isDefault, s.isAddress, s.isConfigured, s.configuration, s.address)
  }

  predicate SettledAsWas(s: Pipe, t: Pipe) {
    Settled(s, t) && SameDevice(s, t)
  }

  // The moment a handler is entered, and between its actions.
  predicate AtRest(s: Pipe) {
    !s.abort && s.dcp in {IDLE, HANDSHAKE, STALL}
  }

  lemma StallSettles(s: Pipe)
    requires !s.abort
    ensures SettledAsWas(s, StallEP0(s)) && SettledAsWas(s, StallEP0InControlRead(s)) && SettledAsWas(s, StallEP0InControlWrite(s))
  {}

  lemma SingleSettles(s: Pipe, bytes: Blob)
    requires AtRest(s)
    ensures SettledAsWas(s, SingleTransmitEP0(s, bytes))
  {}

  // Single transmits after a change of halt flags, or of the remote-wakeup flag.
  lemma HaltSettles(s: Pipe, ops: seq<ChipOp>)
    requires AtRest(s)
    ensures SettledAsWas(s, ChangeHalt(s, ops))
  {}

  lemma WakeupSettles(s: Pipe, enabled: bool)
    requires AtRest(s)
    ensures SettledAsWas(s, EnableWakeup(s, enabled))
  {}

  lemma BurstSettles(s: Pipe, data: Blob)
    requires !s.abort
    ensures SettledAsWas(s, BurstTransmitEP0(s, data))
  {}

  lemma GetDescriptorSettles(s: Pipe, descriptor: Blob)
    requires AtRest(s)
    ensures SettledAsWas(s, GetDescriptor(s, descriptor))
  {
    BurstSettles(s, descriptor);
    StallSettles(s);
    StallSettles(BurstTransmitEP0(s, descriptor));
    StallSettles(StallEP0InControlRead(s));
  }

  lemma GetStatusSettles(s: Pipe, halted: bool)
    requires AtRest(s)
    ensures SettledAsWas(s, GetStatus(s, halted))
  {
    StallSettles(s);
    SingleSettles(s, DeviceStatus(s));
    SingleSettles(s, HaltStatus(halted));
    SingleSettles(s, [0, 0]);
  }

  // Where CLEAR_FEATURE looks at the endpoint it names.
  lemma ClearHaltSettles(s: Pipe)
    requires AtRest(s) && Recipient(s.request) == 2
    ensures SettledAsWas(s, ClearFeature(s))
  {
    var ep := EndpointIndex(WIndex(s.request));
    if WLength(s.request) != 0 || WValue(s.request) != ENDPOINT_STALL {
      StallSettles(s);
    } else if !s.isAddress {
      HaltSettles(s, [Unstall(ep), Unstall(ep)]);
    } else {
      HaltSettles(s, [Unstall(EP0_OUT)]);
      StallSettles(s);
    }
  }

  lemma ClearFeatureSettles(s: Pipe)
    requires AtRest(s)
    ensures SettledAsWas(s, ClearFeature(s))
  {
    if Recipient(s.request) == 2 {
      ClearHaltSettles(s);
    } else {
      WakeupSettles(s, false);
      StallSettles(s);
    }
  }

  lemma SetFeatureAddressedSettles(s: Pipe)
    requires AtRest(s)
    ensures SettledAsWas(s, SetFeatureAddressed(s))
  {
    var ep := if WIndex(s.request) == 0 then EP0_OUT else EP0_IN;
    if Recipient(s.request) == 2 && WValue(s.request) == ENDPOINT_STALL {
      HaltSettles(s, [Stall(ep)]);
    } else {
      WakeupSettles(s, true);
      StallSettles(s);
    }
  }

  lemma SetFeatureOtherSettles(s: Pipe)
    requires AtRest(s)
    ensures SettledAsWas(s, SetFeatureOther(s))
  {
    var ep := EndpointIndex(WIndex(s.request));
    if Recipient(s.request) == 2 {
      HaltSettles(s, [if WValue(s.request) == ENDPOINT_STALL then Stall(ep) else Unstall(EP0_IN)]);
    } else {
      WakeupSettles(s, true);
      StallSettles(s);
    }
  }

  lemma SetFeatureSettles(s: Pipe)
    requires AtRest(s)
    ensures SettledAsWas(s, SetFeature(s))
  {
    SetFeatureAddressedSettles(s);
    SetFeatureOtherSettles(s);
  }

  lemma SetAddressSettles(s: Pipe)
    requires AtRest(s)
    ensures Settled(s, SetAddress(s))
  {}

  lemma GetConfigurationSettles(s: Pipe)
    requires AtRest(s)
    ensures SettledAsWas(s, GetConfiguration(s))
  {
    SingleSettles(s, [0]);
    SingleSettles(s, [s.configuration]);
  }

  lemma ConfigureSettles(s: Pipe)
    requires AtRest(s)
    ensures Settled(s, Configure(s))
  {}

  lemma ConfigureAddressedSettles(s: Pipe)
    requires AtRest(s)
    ensures Settled(s, ConfigureAddressed(s))
  {
    SingleSettles(s.(configuration := 0, isAddress := true), []);
    ConfigureSettles(s);
    StallSettles(s);
  }

  lemma ConfigureOtherSettles(s: Pipe)
    requires AtRest(s)
    ensures Settled(s, ConfigureOther(s))
  {
    SingleSettles(s.(configuration := 0, isAddress := true, isConfigured := false), []);
    ConfigureSettles(s);
    StallSettles(s);
  }

  lemma SetConfigurationSettles(s: Pipe)
    requires AtRest(s)
    ensures Settled(s, SetConfiguration(s))
  {
    ConfigureAddressedSettles(s);
    ConfigureOtherSettles(s);
  }

  lemma GetInterfaceSettles(s: Pipe)
    requires AtRest(s)
    ensures SettledAsWas(s, GetInterface(s))
  {
    SingleSettles(s, [s.alternativeSetting]);
    StallSettles(s);
  }

  lemma SetInterfaceSettles(s: Pipe)
    requires AtRest(s)
    ensures SettledAsWas(s, SetInterface(s))
  {
    var t := if DeviceToHost(s.request) then StallEP0InControlRead(s) else s;
    StallSettles(s);
    StallSettles(t);
    if WValue(s.request) <= 1 {
      SingleSettles(t.(alternativeSetting := WValue(s.request)), []);
    }
  }

  lemma StandardSettles(s: Pipe, env: Env)
    requires AtRest(s)
    ensures Settled(s, StandardRequest(s, env))
    ensures RequestCode(s.request) !in {5, 9} ==> SameDevice(s, StandardRequest(s, env))
  {
    match RequestCode(s.request)
    case 0 => GetStatusSettles(s, env.halted);
    case 1 => ClearFeatureSettles(s);
    case 3 => SetFeatureSettles(s);
    case 5 => SetAddressSettles(s);
    case 6 => GetDescriptorSettles(s, env.descriptor);
    case 8 => GetConfigurationSettles(s);
    case 9 => SetConfigurationSettles(s);
    case 10 => GetInterfaceSettles(s);
    case 11 => SetInterfaceSettles(s);
    case _ => StallSettles(s);
  }

  lemma VendorSettles(s: Pipe)
    requires AtRest(s)
    ensures SettledAsWas(s, VendorRequest(s))
  {
    StallSettles(s);
    SingleSettles(s, []);
    SingleSettles(s, [1]);
  }

  lemma HandlerSettles(s: Pipe, env: Env)
    requires AtRest(s)
    ensures Settled(s, DeviceRequestHandler(s, env))
    ensures !IsSetAddress(s.request) && !IsSetConfiguration(s.request) ==> SameDevice(s, DeviceRequestHandler(s, env))
  {
    StandardSettles(s, env);
    VendorSettles(s);
    StallSettles(s);
  }

  // ---------- the control-pipe invariant ----------

  predicate Sound(s: Pipe) {
    && s.dcp in {IDLE, DATAIN, DATAOUT, REQUESTPROC, HANDSHAKE, SETUPPROC, STALL}
    && (s.abort ==> s.dcp in {SETUPPROC, IDLE, STALL})
    && (s.dcp == DATAOUT ==> s.wCount == 0 && 0 < s.wLength <= MAX_CONTROLDATA_SIZE)
    && (s.dcp == DATAIN ==> 0 < s.wCount <= s.wLength <= |s.data| && s.wCount % EP0_PACKET_SIZE == 0)
  }

  lemma TxDoneKeepsSound(s: Pipe)
    requires Sound(s)
    ensures Sound(TxDone(s))
  {
    if s.dcp == DATAIN && s.wLength - s.wCount < 0x8000 && s.wLength - s.wCount >= EP0_PACKET_SIZE {
      assert TxDone(s).wCount == s.wCount + EP0_PACKET_SIZE;
    }
  }

  lemma OutKeepsSound(s: Pipe, packet: Fifo)
    requires Sound(s)
    ensures Sound(OutRxDone(s, packet))
  {}

  // What the setup branch makes of a complete request.
  predicate Decodes(r: Setup, t: Pipe) {
    && t.request == r && t.wLength == WLength(r) && t.wCount == 0 && !t.abort
    && (t.dcp == HANDSHAKE <==> RequestType(r) == 0xC0 && RequestCode(r) == 0)
    && (t.dcp == DATAOUT <==> !DeviceToHost(r) && 1 <= WLength(r) <= MAX_CONTROLDATA_SIZE)
    && (t.dcp == STALL <==> !DeviceToHost(r) && WLength(r) > MAX_CONTROLDATA_SIZE)
    && t.dcp in {HANDSHAKE, DATAOUT, STALL, REQUESTPROC}
  }

  lemma DecodeGetDecodes(s: Pipe, overwritten: bool)
    requires !s.abort && s.wCount == 0 && s.wLength == WLength(s.request) && DeviceToHost(s.request)
    ensures Decodes(s.request, DecodeGet(s, overwritten))
  {}

  lemma DecodeSetDecodes(s: Pipe, overwritten: bool)
    requires !s.abort && s.wCount == 0 && s.wLength == WLength(s.request) && !DeviceToHost(s.request)
    ensures Decodes(s.request, DecodeSet(s, overwritten))
  {}

  lemma SetupDecodes(s: Pipe, overwritten: bool)
    requires !s.abort
    ensures Decodes(s.request, DecodeSetup(s, overwritten))
  {
    var t := s.(wLength := WLength(s.request), wCount := 0);
    if DeviceToHost(s.request) {
      DecodeGetDecodes(t, overwritten);
    } else {
      DecodeSetDecodes(t, overwritten);
    }
  }

  // A packet of at least eight bytes is decoded, a shorter one stalled.
  lemma SetupBranch(s: Pipe, overwritten: bool)
    ensures |TakenBytes(s.fifo, 8)| == 8 ==> Decodes(TakenBytes(s.fifo, 8), SetupTokenHandler(s, overwritten))
    ensures |TakenBytes(s.fifo, 8)| < 8 ==>
              var t := SetupTokenHandler(s, overwritten); t.dcp == STALL && !t.abort && t.wLength == 0
  {
    var read := ReadSetup(s);
    if |TakenBytes(s.fifo, 8)| == 8 {
      assert read.request == TakenBytes(s.fifo, 8);
      SetupDecodes(read, overwritten);
    }
  }

  lemma SetupSound(s: Pipe, overwritten: bool)
    ensures Sound(SetupTokenHandler(s, overwritten))
  {
    SetupBranch(s, overwritten);
  }

  lemma RequestKeepsSound(s: Pipe, env: Env)
    requires Sound(s) && Dispatches(s)
    ensures Sound(DeviceRequestHandler(s.(dcp := IDLE), env))
  {
    HandlerSettles(s.(dcp := IDLE), env);
  }

  lemma StepKeepsSound(s: Pipe, e: Event)
    requires Sound(s)
    ensures Sound(Step(s, e))
  {
    match e
    case Reset =>
    case SetupIn(_) =>
    case OutIn(packet) => OutKeepsSound(s, packet);
    case InDone => TxDoneKeepsSound(s);
    case MainSetup(overwritten) => SetupSound(s, overwritten);
    case MainRequest(env) =>
      if Dispatches(s) {
        RequestKeepsSound(s, env);
      }
  }

  /** Over every run: only seven of the sixteen codes of DCP_state occur; an aborted
      transfer waits for its new SETUP, or has been reset or stalled; an OUT data stage
      starts at count zero with one to sixteen bytes to come; an IN data stage has sent
      whole packets and never more than was asked for. */
  lemma {:induction false} ControlPipeInvariant(es: seq<Event>)
    ensures Sound(RunFromPowerOn(es))
  {
    if es == [] {
    } else {
      ControlPipeInvariant(es[..|es| - 1]);
      StepKeepsSound(RunFromPowerOn(es[..|es| - 1]), es[|es| - 1]);
    }
  }

  /** The error arm of the transmit interrupt is dead: after any run an IN-done interrupt
      stalls nothing. */
  lemma TxDoneErrorIsDead(es: seq<Event>)
    ensures var s := RunFromPowerOn(es);
            TxDone(s).dcp == STALL ==> s.dcp == STALL && TxDone(s) == s
  {
    ControlPipeInvariant(es);
  }

  /** An OUT data stage is over after exactly one packet, of whatever length. */
  lemma OutDataStageIsOnePacket(es: seq<Event>, packet: Fifo)
    requires RunFromPowerOn(es).dcp == DATAOUT
    ensures RunFromPowerOn(es + [OutIn(packet)]).dcp == REQUESTPROC
  {
    ControlPipeInvariant(es);
    RunSnoc(PowerOn(), es, OutIn(packet));
  }

  /** Nothing is left of an abort once the newer SETUP has been decoded: no handler ever
      runs, and no data stage is ever entered, with the flag still up. */
  lemma AbortNeverReachesHandlers(es: seq<Event>)
    ensures RunFromPowerOn(es).abort ==> RunFromPowerOn(es).dcp !in {DATAIN, DATAOUT, REQUESTPROC, HANDSHAKE}
    ensures RunFromPowerOn(es).dcp == REQUESTPROC ==> Dispatches(RunFromPowerOn(es))
  {
    ControlPipeInvariant(es);
  }

  // ---------- the newest SETUP wins ----------

  /** The newest SETUP packet since the last bus reset, read off the events alone. */
  function LastSetup(es: seq<Event>): Option<Fifo> {
    if es == [] then None else
      match es[|es| - 1]
      case SetupIn(fifo) => Some(fifo)
      case Reset => None
      case _ => LastSetup(es[..|es| - 1])
  }

  /** How many requests have been handed to a handler since then. */
  function DispatchesSince(es: seq<Event>): nat {
    if es == [] then 0 else
      var before := es[..|es| - 1];
      match es[|es| - 1]
      case SetupIn(_) => 0
      case Reset => 0
      case MainRequest(_) => DispatchesSince(before) + if Dispatches(RunFromPowerOn(before)) then 1 else 0
      case _ => DispatchesSince(before)
  }

  /** The OUT packet of the data stage since then. */
  function DataStage(es: seq<Event>): Option<seq<Byte>> {
    if es == [] then None else
      var before := es[..|es| - 1];
      match es[|es| - 1]
      case SetupIn(_) => None
      case Reset => None
      case OutIn(fifo) =>
        if RunFromPowerOn(before).dcp == DATAOUT then Some(TakenBytes(fifo, EP0_PACKET_SIZE)) else DataStage(before)
      case _ => DataStage(before)
  }

  predicate HasDataStage(r: Setup) {
    !DeviceToHost(r) && WLength(r) > 0
  }

  predicate Holds(buf: ControlBuffer, bytes: seq<Byte>) {
    forall n :: 0 <= n < |bytes| && n < MAX_CONTROLDATA_SIZE ==> buf[n] == bytes[n]
  }

  // The engine's state agrees with the history of events.
  predicate Current(s: Pipe, last: Option<Fifo>, dispatched: nat, stage: Option<seq<Byte>>) {
    && (s.dcp in {SETUPPROC, REQUESTPROC, DATAOUT} ==> last.Some? && dispatched == 0)
    && (s.dcp == SETUPPROC ==> s.fifo == last.value)
    && (s.dcp in {REQUESTPROC, DATAOUT} ==> s.request == TakenBytes(last.value, 8) && s.wLength == WLength(s.request))
    && (s.dcp == DATAOUT ==> HasDataStage(s.request))
    && (s.dcp == REQUESTPROC && HasDataStage(s.request) ==>
          stage.Some? && s.wCount == |stage.value| && Holds(s.dataBuffer, stage.value))
    && dispatched <= 1
  }

  predicate CurrentAt(es: seq<Event>) {
    Current(RunFromPowerOn(es), LastSetup(es), DispatchesSince(es), DataStage(es))
  }

  lemma OutKeepsCurrent(s: Pipe, fifo: Fifo, last: Option<Fifo>, dispatched: nat, stage: Option<seq<Byte>>)
    requires Sound(s) && Current(s, last, dispatched, stage)
    ensures Current(OutRxDone(s, fifo), last, dispatched,
                    if s.dcp == DATAOUT then Some(TakenBytes(fifo, EP0_PACKET_SIZE)) else stage)
  {}

  lemma SetupKeepsCurrent(s: Pipe, overwritten: bool, last: Option<Fifo>, dispatched: nat, stage: Option<seq<Byte>>)
    requires s.dcp == SETUPPROC && Current(s, last, dispatched, stage)
    ensures Current(SetupTokenHandler(s, overwritten), last, dispatched, stage)
  {
    SetupBranch(s, overwritten);
  }

  lemma RequestKeepsCurrent(s: Pipe, env: Env, last: Option<Fifo>, dispatched: nat, stage: Option<seq<Byte>>)
    requires Dispatches(s) && Current(s, last, dispatched, stage)
    ensures Current(DeviceRequestHandler(s.(dcp := IDLE), env), last, dispatched + 1, stage)
  {
    HandlerSettles(s.(dcp := IDLE), env);
  }

  lemma MainKeepsCurrent(s: Pipe, e: Event, last: Option<Fifo>, dispatched: nat, stage: Option<seq<Byte>>)
    requires Current(s, last, dispatched, stage)
    requires e.MainSetup? || e.MainRequest?
    ensures Current(Step(s, e), last, dispatched + (if e.MainRequest? && Dispatches(s) then 1 else 0), stage)
  {
    if e.MainSetup? && s.dcp == SETUPPROC {
      SetupKeepsCurrent(s, e.overwritten, last, dispatched, stage);
    } else if e.MainRequest? && Dispatches(s) {
      RequestKeepsCurrent(s, e.env, last, dispatched, stage);
    }
  }

  lemma IsrKeepsCurrent(s: Pipe, e: Event, last: Option<Fifo>, dispatched: nat, stage: Option<seq<Byte>>)
    requires Sound(s) && Current(s, last, dispatched, stage)
    ensures e.InDone? ==> Current(Step(s, e), last, dispatched, stage)
    ensures e.SetupIn? ==> Current(Step(s, e), Some(e.fifo), 0, None)
    ensures e.Reset? ==> Current(Step(s, e), None, 0, None)
  {}

  lemma {:induction false} RunsStayCurrent(es: seq<Event>)
    ensures CurrentAt(es)
  {
    if es == [] {
    } else {
      var before, e := es[..|es| - 1], es[|es| - 1];
      var s := RunFromPowerOn(before);
      var last, dispatched, stage := LastSetup(before), DispatchesSince(before), DataStage(before);
      RunsStayCurrent(before);
      ControlPipeInvariant(before);
      if e.OutIn? {
        OutKeepsCurrent(s, e.fifo, last, dispatched, stage);
      } else if e.MainSetup? || e.MainRequest? {
        MainKeepsCurrent(s, e, last, dispatched, stage);
      } else {
        IsrKeepsCurrent(s, e, last, dispatched, stage);
      }
    }
  }

  /** Whatever the interleaving, the request about to be handled is the newest SETUP
      received since the last bus reset, decoded; it has not been handled before; and if
      it announced OUT data, the buffer and its count are those of its one data packet. */
  lemma NewestSetupWins(es: seq<Event>)
    requires Dispatches(RunFromPowerOn(es))
    ensures var s := RunFromPowerOn(es);
            && LastSetup(es).Some? && DispatchesSince(es) == 0
            && s.request == TakenBytes(LastSetup(es).value, 8) && s.wLength == WLength(s.request)
            && (HasDataStage(s.request) ==>
                  DataStage(es).Some? && s.wCount == |DataStage(es).value| && Holds(s.dataBuffer, DataStage(es).value))
  {
    RunsStayCurrent(es);
  }

  /** No SETUP is handled twice. */
  lemma AtMostOneDispatchPerSetup(es: seq<Event>)
    ensures DispatchesSince(es) <= 1
  {
    RunsStayCurrent(es);
  }

  // ---------- SETUP decoding, end to end ----------

  // What the interrupt and the setup branch make of a packet.
  lemma SetupOutcome(s: Pipe, packet: Fifo, overwritten: bool)
    ensures var t := SetupTokenHandler(SetupRxDone(s, packet), overwritten);
            if packet[0] < 8 then t.dcp == STALL && t.wLength == 0 && !t.abort
            else Decodes(TakenBytes(packet, 8), t)
  {
    SetupBranch(SetupRxDone(s, packet), overwritten);
  }

  lemma AfterSetup(es: seq<Event>, packet: Fifo, overwritten: bool)
    ensures RunFromPowerOn(es + [SetupIn(packet), MainSetup(overwritten)])
            == SetupTokenHandler(SetupRxDone(RunFromPowerOn(es), packet), overwritten)
  {
    RunTwo(PowerOn(), es, SetupIn(packet), MainSetup(overwritten));
  }

  // A 16-bit field at offset k, least significant byte first.
  function LittleEndian(b: Setup, k: nat): int
    requires k < 7
  {
    var low: int, high: int := b[k], b[k + 1];
    low + 0x100 * high
  }

  lemma FieldsAreLittleEndian(b: Setup)
    ensures WValue(b) == LittleEndian(b, 2) && WIndex(b) == LittleEndian(b, 4) && WLength(b) == LittleEndian(b, 6)
  {}

  lemma SetupTaken(b: Setup)
    ensures HoldsPacket(BulkStream(b, 8)) && BulkStream(b, 8)[0] == 8 && TakenBytes(BulkStream(b, 8), 8) == b
  {
    FifoRoundTrip(b, 8, 8);
    assert b[..8] == b;
  }

  /** The eight bytes of a SETUP packet as they stand in the FIFO come out as the fields of
      section 9.3 of the USB 2.0 specification, and the transfer type decides the state. */
  lemma SetupDecodesEndToEnd(es: seq<Event>, b: Setup, overwritten: bool)
    ensures HoldsPacket(BulkStream(b, 8))
    ensures var t := RunFromPowerOn(es + [SetupIn(BulkStream(b, 8)), MainSetup(overwritten)]);
            && RequestType(t.request) == b[0] && RequestCode(t.request) == b[1]
            && WValue(t.request) == LittleEndian(b, 2)
            && WIndex(t.request) == LittleEndian(b, 4)
            && WLength(t.request) == LittleEndian(b, 6) == t.wLength
            && !t.abort
            && (t.dcp == HANDSHAKE <==> b[0] == 0xC0 && b[1] == 0)
            && (t.dcp == DATAOUT <==> b[0] < 0x80 && 1 <= LittleEndian(b, 6) <= 16)
            && (t.dcp == STALL <==> b[0] < 0x80 && LittleEndian(b, 6) > 16)
            && (t.dcp == REQUESTPROC <==> (b[0] >= 0x80 && !(b[0] == 0xC0 && b[1] == 0)) || (b[0] < 0x80 && LittleEndian(b, 6) == 0))
  {
    SetupTaken(b);
    FieldsAreLittleEndian(b);
    AfterSetup(es, BulkStream(b, 8), overwritten);
    SetupOutcome(RunFromPowerOn(es), BulkStream(b, 8), overwritten);
  }

  /** A SETUP is refused for its size exactly when it has fewer than eight bytes: a longer
      packet is cut to eight and decoded. */
  lemma ShortSetupStalls(es: seq<Event>, packet: Fifo, overwritten: bool)
    ensures var t := RunFromPowerOn(es + [SetupIn(packet), MainSetup(overwritten)]);
            if packet[0] < 8 then t.dcp == STALL && t.wLength == 0
            else t.request == TakenBytes(packet, 8) && t.wLength == WLength(t.request)
  {
    AfterSetup(es, packet, overwritten);
    SetupOutcome(RunFromPowerOn(es), packet, overwritten);
  }

  // ---------- the data buffer ----------

  // The bytes of an OUT packet do not fit ControlData.dataBuffer.
  predicate Overruns(s: Pipe, packet: Fifo) {
    s.dcp == DATAOUT && s.wCount + |TakenBytes(packet, EP0_PACKET_SIZE)| > MAX_CONTROLDATA_SIZE
  }

  /** In an OUT data stage, whatever length was announced, the interrupt stores past the end
      of the buffer exactly when the packet has more than sixteen bytes; any other packet is
      in the buffer afterwards as it came, and the bytes behind it are untouched. */
  lemma OverrunIff(es: seq<Event>, packet: Fifo)
    requires RunFromPowerOn(es).dcp == DATAOUT
    ensures Overruns(RunFromPowerOn(es), packet) <==> packet[0] > MAX_CONTROLDATA_SIZE
    ensures packet[0] <= MAX_CONTROLDATA_SIZE ==>
              RunFromPowerOn(es + [OutIn(packet)]).dataBuffer
              == TakenBytes(packet, EP0_PACKET_SIZE) + RunFromPowerOn(es).dataBuffer[packet[0]..]
  {
    ControlPipeInvariant(es);
    RunSnoc(PowerOn(), es, OutIn(packet));
  }

  // No OUT packet of the run overruns the buffer.
  predicate NeverOverruns(es: seq<Event>) {
    es != [] ==>
      var before, e := es[..|es| - 1], es[|es| - 1];
      !(e.OutIn? && Overruns(RunFromPowerOn(before), e.fifo)) && NeverOverruns(before)
  }

  // No OUT packet that arrives in a data stage is longer than sixteen bytes.
  predicate ShortOutData(es: seq<Event>) {
    es != [] ==>
      var before, e := es[..|es| - 1], es[|es| - 1];
      (e.OutIn? && RunFromPowerOn(before).dcp == DATAOUT ==> e.fifo[0] <= MAX_CONTROLDATA_SIZE) && ShortOutData(before)
  }

  lemma {:induction false} NeverOverrunsIff(es: seq<Event>)
    ensures NeverOverruns(es) <==> ShortOutData(es)
  {
    if es == [] {
    } else {
      var before, e := es[..|es| - 1], es[|es| - 1];
      NeverOverrunsIff(before);
      if e.OutIn? && RunFromPowerOn(before).dcp == DATAOUT {
        OverrunIff(before, e.fifo);
      }
    }
  }

  /** It can happen after any run: a SETUP that announces as little as one byte, then a
      packet of more than sixteen. */
  lemma OverrunFollows(es: seq<Event>, b: Setup, overwritten: bool, packet: Fifo)
    requires HasDataStage(b) && WLength(b) <= MAX_CONTROLDATA_SIZE && packet[0] > MAX_CONTROLDATA_SIZE
    ensures HoldsPacket(BulkStream(b, 8))
    ensures Overruns(RunFromPowerOn(es + [SetupIn(BulkStream(b, 8)), MainSetup(overwritten)]), packet)
  {
    SetupTaken(b);
    AfterSetup(es, BulkStream(b, 8), overwritten);
    SetupOutcome(RunFromPowerOn(es), BulkStream(b, 8), overwritten);
    OverrunIff(es + [SetupIn(BulkStream(b, 8)), MainSetup(overwritten)], packet);
  }

  // A vendor request that announces one byte, and a packet of seventeen.
  function OneByteWrite(code: Byte): Setup {
    [0x40, code, 0, 0, 0, 0, 1, 0]
  }

  function SeventeenBytes(w: Word): Fifo {
    [17, w, w, w, w, w, w, w, w, w]
  }

  lemma OverrunOccurs(code: Byte, w: Word)
    ensures Overruns(RunFromPowerOn([SetupIn(BulkStream(OneByteWrite(code), 8)), MainSetup(false)]), SeventeenBytes(w))
  {
    var b := OneByteWrite(code);
    var es := [SetupIn(BulkStream(b, 8)), MainSetup(false)];
    assert WLength(b) == 1;
    OverrunFollows([], b, false, SeventeenBytes(w));
    assert [] + es == es;
  }
}
