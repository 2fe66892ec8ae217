/** The device-state bits against section 9.1 of the USB 2.0 specification, and against
    what a host knows that watches which of its requests are acknowledged. */
module DeviceStates {
  import opened Bytes
  import opened Hal
  import opened ControlPipe
  import opened ControlPipeRuns

  // The step hands the standing request to its handler.
  predicate Due(s: Pipe, e: Event) {
    e.MainRequest? && Dispatches(s)
  }

  // ---------- what each step does to the device state ----------

  lemma DecodeGetKeepsDevice(s: Pipe, overwritten: bool)
    ensures SameDevice(s, DecodeGet(s, overwritten))
  {}

  lemma DecodeSetKeepsDevice(s: Pipe, overwritten: bool)
    ensures SameDevice(s, DecodeSet(s, overwritten))
  {}

  lemma SetupKeepsDevice(s: Pipe, overwritten: bool)
    ensures SameDevice(s, SetupTokenHandler(s, overwritten))
  {
    var read := ReadSetup(s);
    var armed := read.(wLength := WLength(read.request), wCount := 0);
    DecodeGetKeepsDevice(armed, overwritten);
    DecodeSetKeepsDevice(armed, overwritten);
    StallSettles(read);
  }

  lemma OutKeepsDevice(s: Pipe, packet: Fifo)
    ensures SameDevice(s, OutRxDone(s, packet))
  {}

  lemma SendNextKeepsDevice(s: Pipe)
    ensures SameDevice(s, SendNext(s))
  {}

  lemma TxDoneKeepsDevice(s: Pipe)
    ensures SameDevice(s, TxDone(s))
  {
    SendNextKeepsDevice(s);
  }

  lemma RequestKeepsDevice(s: Pipe, env: Env)
    requires Dispatches(s) && !IsSetAddress(s.request) && !IsSetConfiguration(s.request)
    ensures SameDevice(s, DeviceRequestHandler(s.(dcp := IDLE), env))
  {
    HandlerSettles(s.(dcp := IDLE), env);
  }

  /** Nothing but a bus reset and the dispatch of SET_ADDRESS and SET_CONFIGURATION
      touches the state bits, the configuration or the chip's address register. */
  lemma OthersKeepDevice(s: Pipe, e: Event)
    requires !e.Reset?
    requires Due(s, e) ==> !IsSetAddress(s.request) && !IsSetConfiguration(s.request)
    ensures SameDevice(s, Step(s, e))
  {
    match e
    case SetupIn(_) =>
    case OutIn(packet) => OutKeepsDevice(s, packet);
    case InDone => TxDoneKeepsDevice(s);
    case MainSetup(overwritten) => SetupKeepsDevice(s, overwritten);
    case MainRequest(env) =>
      if Dispatches(s) {
        RequestKeepsDevice(s, env);
      }
  }

  // ---------- at least one bit, exactly one bit ----------

  function Bits(s: Pipe): int {
    (if s.isDefault then 1 else 0) + (if s.isAddress then 1 else 0) + (if s.isConfigured then 1 else 0)
  }

  // SET_CONFIGURATION to 0 or 1 while the default bit is up; section 9.4.7 leaves it open.
  predicate EarlyConfiguration(s: Pipe, e: Event) {
    Due(s, e) && IsSetConfiguration(s.request) && s.isDefault && WValue(s.request) <= 1
  }

  lemma BitsStep(s: Pipe, e: Event)
    requires Sound(s) && Bits(s) >= 1
    ensures Bits(Step(s, e)) >= 1
    ensures Bits(s) == 1 ==> (Bits(Step(s, e)) == 1 <==> !EarlyConfiguration(s, e))
  {
    if !e.Reset? && !(Due(s, e) && (IsSetAddress(s.request) || IsSetConfiguration(s.request))) {
      OthersKeepDevice(s, e);
    }
  }

  /** In every run the device is always in some state of section 9.1.1. */
  lemma {:induction false} SomeBitAlways(es: seq<Event>)
    ensures Bits(RunFromPowerOn(es)) >= 1
  {
    if es == [] {
    } else {
      SomeBitAlways(es[..|es| - 1]);
      ControlPipeInvariant(es[..|es| - 1]);
      BitsStep(RunFromPowerOn(es[..|es| - 1]), es[|es| - 1]);
    }
  }

  // One state bit at every moment of the run.
  predicate OneBitThroughout(es: seq<Event>) {
    Bits(RunFromPowerOn(es)) == 1 && (es != [] ==> OneBitThroughout(es[..|es| - 1]))
  }

  predicate NeverEarly(es: seq<Event>) {
    es != [] ==>
      !EarlyConfiguration(RunFromPowerOn(es[..|es| - 1]), es[|es| - 1]) && NeverEarly(es[..|es| - 1])
  }

  /** The device is in exactly one state all through a run if and only if the run never
      accepts a SET_CONFIGURATION in the default state. */
  lemma {:induction false} OneBitIff(es: seq<Event>)
    ensures OneBitThroughout(es) <==> NeverEarly(es)
  {
    if es == [] {
    } else {
      var before := es[..|es| - 1];
      OneBitIff(before);
      SomeBitAlways(before);
      ControlPipeInvariant(before);
      BitsStep(RunFromPowerOn(before), es[|es| - 1]);
    }
  }

  // ---------- the host's view ----------

  /** A host's record of the device: section 9.1's states, with the address it assigned and
      the configuration value it set. */
  datatype Host = Default | Addressed(a: nat) | Configured(a: nat, value: nat)

  // The request was answered by a zero-length status packet and nothing else.
  predicate Acknowledged(s: Pipe, t: Pipe) {
    t.log == s.log + [Packet([])]
  }

  /** How the record follows an acknowledged request (sections 9.4.6 and 9.4.7). */
  function Record(h: Host, r: Setup): Host {
    if IsSetAddress(r) then
      var a := WValue(r) % 0x80;
      if a == 0 then Default else Addressed(a)
    else if IsSetConfiguration(r) && !h.Default? then
      if WValue(r) == 0 then Addressed(h.a) else Configured(h.a, WValue(r))
    else h
  }

  function HostStep(h: Host, s: Pipe, e: Event): Host {
    if e.Reset? then Default
    else if Due(s, e) && Acknowledged(s, Step(s, e)) then Record(h, s.request)
    else h
  }

  function HostView(es: seq<Event>): Host {
    if es == [] then Default
    else HostStep(HostView(es[..|es| - 1]), RunFromPowerOn(es[..|es| - 1]), es[|es| - 1])
  }

  // What section 9.4.2 wants reported: the value set last.
  function ReportedConfiguration(h: Host): nat {
    if h.Configured? then h.value else 0
  }

  /** The state bits, the stored configuration and the chip's address register all say
      what the host thinks; 0x80 is the register's enable bit. */
  predicate Agrees(s: Pipe, h: Host) {
    && Bits(s) == 1
    && s.isDefault == h.Default? && s.isAddress == h.Addressed? && s.isConfigured == h.Configured?
    && s.configuration == ReportedConfiguration(h) <= 1
    && (h.Configured? ==> h.value == 1)
    && (!h.Default? ==> 0 < h.a < 0x80 && s.address == 0x80 + h.a)
  }

  // SET_ADDRESS to a configured device; section 9.4.6 leaves it open.
  predicate LateAddress(s: Pipe, e: Event) {
    Due(s, e) && IsSetAddress(s.request) && s.isConfigured
  }

  predicate Unspecified(s: Pipe, e: Event) {
    EarlyConfiguration(s, e) || LateAddress(s, e)
  }

  lemma NotAcknowledged(s: Pipe, t: Pipe)
    requires t.log == s.log || t.log == s.log + [Stall(EP0_IN), Stall(EP0_OUT)]
    ensures !Acknowledged(s, t)
  {
    assert |s.log + [Packet([])]| == |s.log| + 1;
  }

  lemma SetAddressAgrees(s: Pipe, h: Host, env: Env)
    requires Dispatches(s) && IsSetAddress(s.request) && Agrees(s, h)
    ensures Agrees(Step(s, MainRequest(env)), HostStep(h, s, MainRequest(env))) <==> !s.isConfigured
  {
    NotAcknowledged(s, s);
  }

  lemma SetConfigurationAgrees(s: Pipe, h: Host, env: Env)
    requires Dispatches(s) && IsSetConfiguration(s.request) && Agrees(s, h)
    ensures Agrees(Step(s, MainRequest(env)), HostStep(h, s, MainRequest(env)))
            <==> !(s.isDefault && WValue(s.request) <= 1)
  {
    var t := Step(s, MainRequest(env));
    if t.log == s.log || t.log == s.log + [Stall(EP0_IN), Stall(EP0_OUT)] {
      NotAcknowledged(s, t);
    }
  }

  lemma AgreementStep(s: Pipe, h: Host, e: Event)
    requires Sound(s) && Agrees(s, h)
    ensures Agrees(Step(s, e), HostStep(h, s, e)) <==> !Unspecified(s, e)
  {
    if Due(s, e) && IsSetAddress(s.request) {
      SetAddressAgrees(s, h, e.env);
    } else if Due(s, e) && IsSetConfiguration(s.request) {
      SetConfigurationAgrees(s, h, e.env);
    } else if !e.Reset? {
      OthersKeepDevice(s, e);
    }
  }

  predicate AgreesThroughout(es: seq<Event>) {
    Agrees(RunFromPowerOn(es), HostView(es)) && (es != [] ==> AgreesThroughout(es[..|es| - 1]))
  }

  predicate NeverUnspecified(es: seq<Event>) {
    es != [] ==>
      !Unspecified(RunFromPowerOn(es[..|es| - 1]), es[|es| - 1]) && NeverUnspecified(es[..|es| - 1])
  }

  /** Device and host agree at every moment of a run if and only if the run contains
      neither of the two requests whose effect the specification leaves open. */
  lemma {:induction false} AgreementIff(es: seq<Event>)
    ensures AgreesThroughout(es) <==> NeverUnspecified(es)
  {
    if es == [] {
    } else {
      var before := es[..|es| - 1];
      AgreementIff(before);
      ControlPipeInvariant(before);
      if AgreesThroughout(before) {
        AgreementStep(RunFromPowerOn(before), HostView(before), es[|es| - 1]);
      }
    }
  }

  /** Spelled out for the configuration and the address. */
  lemma ConfigurationAndAddressAgree(es: seq<Event>)
    requires NeverUnspecified(es)
    ensures var s := RunFromPowerOn(es);
            && (s.configuration == 1 <==> s.isConfigured) && s.configuration <= 1
            && (s.isAddress || s.isConfigured ==> s.address > 0x80)
  {
    AgreementIff(es);
  }

  // ---------- GET_CONFIGURATION ----------

  // The request has the only form section 9.4.2 defines.
  predicate WellFormedGetConfiguration(r: Setup) {
    WValue(r) == 0 && WIndex(r) == 0 && WLength(r) == 1
  }

  lemma GetConfigurationRuns(s: Pipe, env: Env)
    requires IsGetConfiguration(s.request)
    ensures DeviceRequestHandler(s, env) == GetConfiguration(s)
  {
    assert DeviceRequestHandler(s, env) == StandardRequest(s, env);
  }

  lemma ReplyAgrees(s: Pipe, h: Host)
    requires Agrees(s, h) && AtRest(s)
    ensures var t := GetConfiguration(s);
            if WellFormedGetConfiguration(s.request) || h.Addressed?
            then t.log == s.log + [Packet([s.configuration])] && s.configuration == ReportedConfiguration(h) && t.dcp == HANDSHAKE
            else t == s
  {}

  /** A GET_CONFIGURATION is answered with the configuration value the host last got
      acknowledged, zero after a reset; a malformed one is answered all the same in the
      address state and met with silence, not a stall, in the others. */
  lemma GetConfigurationReply(es: seq<Event>, env: Env)
    requires NeverUnspecified(es)
    requires Dispatches(RunFromPowerOn(es)) && IsGetConfiguration(RunFromPowerOn(es).request)
    ensures var s, t := RunFromPowerOn(es), RunFromPowerOn(es + [MainRequest(env)]);
            if WellFormedGetConfiguration(s.request) || HostView(es).Addressed?
            then
              && t.log == s.log + [Packet([s.configuration])] && t.dcp == HANDSHAKE
              && s.configuration == ReportedConfiguration(HostView(es))
            else t.log == s.log && t.dcp == IDLE
  {
    var s := RunFromPowerOn(es).(dcp := IDLE);
    AgreementIff(es);
    RunSnoc(PowerOn(), es, MainRequest(env));
    GetConfigurationRuns(s, env);
    ReplyAgrees(s, HostView(es));
  }

  // ---------- the two open requests, on concrete runs ----------

  // The events by which a request without data stage is received and handled.
  function Exchange(r: Setup): seq<Event> {
    [SetupIn(BulkStream(r, 8)), MainSetup(false), MainRequest(NO_ENV)]
  }

  const NO_ENV := Env([], false)

  // Goes to its handler without a data stage from the host.
  predicate Direct(r: Setup) {
    if DeviceToHost(r) then !(RequestType(r) == 0xC0 && RequestCode(r) == 0) else WLength(r) == 0
  }

  // Host to device, standard, to the device, no data stage.
  predicate Plain(r: Setup, code: Byte, value: Word) {
    RequestType(r) == 0 && RequestCode(r) == code && WValue(r) == value && WIndex(r) == 0 && WLength(r) == 0
  }

  // The moment before the request branch, when the SETUP has been received and decoded at s.
  function Decoded(s: Pipe, r: Setup): Pipe {
    SetupTokenHandler(SetupRxDone(s, BulkStream(r, 8)), false)
  }

  lemma DirectIsDue(s: Pipe, r: Setup)
    requires Direct(r)
    ensures Dispatches(Decoded(s, r)) && Decoded(s, r).request == r
  {
    SetupTaken(r);
    SetupOutcome(s, BulkStream(r, 8), false);
  }

  lemma AfterExchange(es: seq<Event>, r: Setup)
    ensures RunFromPowerOn(es + Exchange(r)) == Step(Decoded(RunFromPowerOn(es), r), MainRequest(NO_ENV))
  {
    var setup := [SetupIn(BulkStream(r, 8)), MainSetup(false)];
    AfterSetup(es, BulkStream(r, 8), false);
    assert es + Exchange(r) == es + setup + [MainRequest(NO_ENV)];
    RunSnoc(PowerOn(), es + setup, MainRequest(NO_ENV));
  }

  lemma DueStep(s: Pipe, env: Env)
    requires Dispatches(s)
    ensures Step(s, MainRequest(env)) == DeviceRequestHandler(s.(dcp := IDLE), env)
  {}

  // An exchange from any state brings the request to its handler: s is the moment before.
  lemma ExchangeDispatches(es: seq<Event>, r: Setup) returns (s: Pipe)
    requires Direct(r)
    ensures s == Decoded(RunFromPowerOn(es), r)
    ensures Dispatches(s) && s.request == r && SameDevice(RunFromPowerOn(es), s)
    ensures RunFromPowerOn(es + Exchange(r)) == DeviceRequestHandler(s.(dcp := IDLE), NO_ENV)
  {
    s := Decoded(RunFromPowerOn(es), r);
    DirectIsDue(RunFromPowerOn(es), r);
    SetupKeepsDevice(SetupRxDone(RunFromPowerOn(es), BulkStream(r, 8)), false);
    AfterExchange(es, r);
    DueStep(s, NO_ENV);
  }

  lemma PlainIsStandard(r: Setup, code: Byte, value: Word)
    requires Plain(r, code, value)
    ensures IsStandard(r, code)
  {}

  lemma ConfigurationHandler(s: Pipe)
    requires IsSetConfiguration(s.request) && WValue(s.request) == 1 && WIndex(s.request) == 0 && WLength(s.request) == 0
    ensures DeviceRequestHandler(s, NO_ENV) == Configure(s)
  {
    assert DeviceRequestHandler(s, NO_ENV) == StandardRequest(s, NO_ENV);
  }

  lemma Configured1(s: Pipe)
    ensures var t := Configure(s);
            && t.isDefault == s.isDefault && !t.isAddress && t.isConfigured
            && t.configuration == 1 && t.address == s.address
  {}

  lemma AddressHandler(s: Pipe)
    requires IsSetAddress(s.request)
    ensures DeviceRequestHandler(s, NO_ENV) == SetAddress(s)
  {
    assert DeviceRequestHandler(s, NO_ENV) == StandardRequest(s, NO_ENV);
  }

  lemma AddressUp(s: Pipe, a: Word)
    requires WValue(s.request) == a && !s.abort && s.isDefault && 0 < a < 0x80
    ensures var t := SetAddress(s);
            && !t.isDefault && t.isAddress && t.isConfigured == s.isConfigured
            && t.address == 0x80 + a && t.configuration == s.configuration
  {}

  lemma AddressDown(s: Pipe)
    requires !s.abort && !s.isDefault && !s.isAddress
    ensures var t := SetAddress(s);
            t.isDefault && !t.isAddress && !t.isConfigured && t.configuration == s.configuration
  {}

  /** SET_CONFIGURATION(1) in the default state leaves the device default and configured. */
  lemma EarlyConfigurationSetsTwoBits(es: seq<Event>, r: Setup)
    requires Plain(r, 9, 1) && RunFromPowerOn(es).isDefault
    ensures var t := RunFromPowerOn(es + Exchange(r)); t.isDefault && t.isConfigured
  {
    var s := ExchangeDispatches(es, r);
    PlainIsStandard(r, 9, 1);
    ConfigurationHandler(s.(dcp := IDLE));
    Configured1(s.(dcp := IDLE));
  }

  /** SET_ADDRESS to a configured device takes it back to the default state, where it goes
      on reporting configuration 1. */
  lemma LateAddressKeepsConfiguration(es: seq<Event>, r: Setup, a: Word)
    requires Plain(r, 5, a)
    requires var s := RunFromPowerOn(es); s.isConfigured && !s.isDefault && !s.isAddress && s.configuration == 1
    ensures var t := RunFromPowerOn(es + Exchange(r));
            t.isDefault && !t.isConfigured && t.configuration == 1
  {
    var s := ExchangeDispatches(es, r);
    PlainIsStandard(r, 5, a);
    AddressHandler(s.(dcp := IDLE));
    AddressDown(s.(dcp := IDLE));
  }

  /** The regular way up: a device in the default state given a nonzero address and then
      configuration 1 is configured at that address. */
  lemma RegularEnumeration(es: seq<Event>, r: Setup, a: Word, q: Setup)
    requires RunFromPowerOn(es).isDefault && Bits(RunFromPowerOn(es)) == 1
    requires Plain(r, 5, a) && 0 < a < 0x80 && Plain(q, 9, 1)
    ensures var t := RunFromPowerOn(es + Exchange(r) + Exchange(q));
            t.isConfigured && Bits(t) == 1 && t.configuration == 1 && t.address == 0x80 + a
  {
    var s := ExchangeDispatches(es, r);
    PlainIsStandard(r, 5, a);
    AddressHandler(s.(dcp := IDLE));
    AddressUp(s.(dcp := IDLE), a);
    var u := ExchangeDispatches(es + Exchange(r), q);
    PlainIsStandard(q, 9, 1);
    ConfigurationHandler(u.(dcp := IDLE));
    Configured1(u.(dcp := IDLE));
  }

  const SET_CONFIGURATION_1: Setup := [0, 9, 1, 0, 0, 0, 0, 0]
  const SET_ADDRESS_5: Setup := [0, 5, 5, 0, 0, 0, 0, 0]

  /** Both open requests do occur: after power-on, and after a regular enumeration. */
  lemma OpenRequestsOccur()
    ensures var t := RunFromPowerOn(Exchange(SET_CONFIGURATION_1)); t.isDefault && t.isConfigured
    ensures var t := RunFromPowerOn(Exchange(SET_ADDRESS_5) + Exchange(SET_CONFIGURATION_1) + Exchange(SET_ADDRESS_5));
            t.isDefault && !t.isConfigured && t.configuration == 1
  {
    assert Plain(SET_CONFIGURATION_1, 9, 1) && Plain(SET_ADDRESS_5, 5, 5);
    assert [] + Exchange(SET_CONFIGURATION_1) == Exchange(SET_CONFIGURATION_1);
    EarlyConfigurationSetsTwoBits([], SET_CONFIGURATION_1);
    assert [] + Exchange(SET_ADDRESS_5) == Exchange(SET_ADDRESS_5);
    RegularEnumeration([], SET_ADDRESS_5, 5, SET_CONFIGURATION_1);
    LateAddressKeepsConfiguration(Exchange(SET_ADDRESS_5) + Exchange(SET_CONFIGURATION_1), SET_ADDRESS_5, 5);
  }
}
