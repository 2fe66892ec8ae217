/** What a host knows of the device from its own requests and their acknowledgements, and that
    every answer follows from it. */
module Knowledge {
  import opened Bytes
  import opened Hal
  import opened ControlPipe
  import opened ControlPipeRuns
  import opened DeviceStates
  import opened Replies
  import opened Flags
  import opened InterfaceSetting
  import opened RemoteWakeup

  // ---------- SET_CONFIGURATION ----------

  /** A due SET_CONFIGURATION is acknowledged if and only if its value is 0 or 1 and it is not
      one of those met with silence; then the device is unconfigured or configured as asked.
      An unsupported value is refused and changes nothing. */
  lemma SetConfigurationAcknowledgedIff(es: seq<Event>, env: Env)
    requires Dispatches(RunFromPowerOn(es)) && IsSetConfiguration(RunFromPowerOn(es).request)
    ensures var s, t := RunFromPowerOn(es), RunFromPowerOn(es + [MainRequest(env)]);
            var v := WValue(s.request);
            var silent := s.isAddress && (WIndex(s.request) != 0 || WLength(s.request) != 0);
            && (Acknowledged(s, t) <==> v <= 1 && !silent)
            && (v <= 1 && !silent ==> t.configuration == v && (if v == 1 then t.isConfigured && !t.isAddress else t.isAddress))
            && (v > 1 && !silent ==> t.log == s.log + REFUSE_WRITE && SameDevice(s, t))
            && (silent ==> SameDevice(s, t))
  {
    var s := RunFromPowerOn(es);
    var entered := s.(dcp := IDLE);
    RequestsAreAnswered(es, env);
    RunSnoc(PowerOn(), es, MainRequest(env));
    SetConfigurationRuns(entered, env);
    ConfigurationTaken(entered);
    ReplyAcknowledges(s, RunFromPowerOn(es + [MainRequest(env)]), SetConfigurationReply(KnownOf(s), s.request));
  }

  lemma SetConfigurationRuns(s: Pipe, env: Env)
    requires IsSetConfiguration(s.request)
    ensures DeviceRequestHandler(s, env) == SetConfiguration(s)
  {
    assert DeviceRequestHandler(s, env) == StandardRequest(s, env);
  }

  lemma ReplyAcknowledges(s: Pipe, t: Pipe, ops: seq<ChipOp>)
    requires t.log == s.log + ops && (|ops| == 1 ==> ops == STATUS)
    ensures Acknowledged(s, t) <==> ops == STATUS
  {
    assert |s.log + STATUS| == |s.log| + 1;
  }

  // What SET_CONFIGURATION does to the device state.
  lemma ConfigurationTaken(s: Pipe)
    ensures var t, v := SetConfiguration(s), WValue(s.request);
            if v > 1 || (s.isAddress && (WIndex(s.request) != 0 || WLength(s.request) != 0)) then SameDevice(s, t)
            else t.configuration == v && (if v == 1 then t.isConfigured && !t.isAddress else t.isAddress)
  {}

  lemma ConfigureKeepsRegister(s: Pipe)
    ensures ConfigureAddressed(s).address == s.address
  {}

  lemma ConfigureOtherKeepsRegister(s: Pipe)
    ensures ConfigureOther(s).address == s.address
  {}

  lemma ConfigurationKeepsRegister(s: Pipe)
    ensures SetConfiguration(s).address == s.address
  {
    ConfigureKeepsRegister(s);
    ConfigureOtherKeepsRegister(s);
  }

  // ---------- the chip's address register ----------

  /** The register as the acknowledged SET_ADDRESS requests in the default and the address
      state leave it, zero included; 0x80 is its enable bit. */
  function LastAddress(es: seq<Event>): int {
    if es == [] then 0
    else
      var before, e := es[..|es| - 1], es[|es| - 1];
      var s := RunFromPowerOn(before);
      if Due(s, e) && IsSetAddress(s.request) && (s.isDefault || s.isAddress) && Acknowledged(s, Step(s, e))
      then 0x80 + WValue(s.request) % 0x80
      else LastAddress(before)
  }

  lemma SetAddressRegister(s: Pipe)
    requires Entered(s)
    ensures SetAddress(s).address
            == if (s.isDefault || s.isAddress) && SetAddressReply(KnownOf(s), s.request) == STATUS
               then 0x80 + WValue(s.request) % 0x80 else s.address
  {}

  lemma RegisterStep(s: Pipe, e: Event)
    requires Sound(s)
    ensures Step(s, e).address
            == if Due(s, e) && IsSetAddress(s.request) && (s.isDefault || s.isAddress) && Acknowledged(s, Step(s, e))
               then 0x80 + WValue(s.request) % 0x80 else s.address
  {
    if Due(s, e) && IsSetAddress(s.request) {
      var entered := s.(dcp := IDLE);
      assert DeviceRequestHandler(entered, e.env) == StandardRequest(entered, e.env);
      SetAddressRegister(entered);
      SetAddressSends(entered);
      ReplyAcknowledges(s, Step(s, e), SetAddressReply(KnownOf(s), s.request));
    } else if Due(s, e) && IsSetConfiguration(s.request) {
      SetConfigurationRuns(s.(dcp := IDLE), e.env);
      ConfigurationKeepsRegister(s.(dcp := IDLE));
    } else if !e.Reset? {
      OthersKeepDevice(s, e);
    }
  }

  /** After every run the address register holds the last such address, in the default state
      too; a bus reset does not touch it. */
  lemma {:induction false} RegisterIsHistory(es: seq<Event>)
    ensures RunFromPowerOn(es).address == LastAddress(es)
  {
    if es == [] {
    } else {
      RegisterIsHistory(es[..|es| - 1]);
      ControlPipeInvariant(es[..|es| - 1]);
      RegisterStep(RunFromPowerOn(es[..|es| - 1]), es[|es| - 1]);
    }
  }

  // ---------- every answer from the history ----------

  /** The knowledge of a host that has watched the run: its record of the device state, the
      last accepted wakeup feature, the last accepted setting. */
  predicate FromHistory(k: Known, es: seq<Event>) {
    var h := HostView(es);
    && k.isDefault == h.Default? && k.isAddress == h.Addressed?
    && k.configuration == ReportedConfiguration(h)
    && k.wakeup == WakeupEnabled(es)
    && k.setting == Selected(es)
  }

  lemma HistoryTells(es: seq<Event>)
    requires NeverUnspecified(es)
    ensures FromHistory(KnownOf(RunFromPowerOn(es)), es)
  {
    AgreementIff(es);
    WakeupIsHistory(es);
    SettingIsSelected(es);
  }

  /** In runs without the requests that the specification leaves open, what answers a due
      request follows from the history alone: from the newest SETUP and from which requests
      have been acknowledged.  The driver is a device with this state and no other. */
  lemma AnsweredFromHistory(es: seq<Event>, env: Env, k: Known)
    requires NeverUnspecified(es) && Dispatches(RunFromPowerOn(es)) && FromHistory(k, es)
    ensures LastSetup(es).Some? && |TakenBytes(LastSetup(es).value, 8)| == 8
    ensures RunFromPowerOn(es + [MainRequest(env)]).log
            == RunFromPowerOn(es).log + Reply(k, TakenBytes(LastSetup(es).value, 8), env)
  {
    NewestSetupWins(es);
    HistoryTells(es);
    assert k == KnownOf(RunFromPowerOn(es));
    RequestsAreAnswered(es, env);
  }

  // ---------- which endpoint a halt request reaches ----------

  /** The chip's index of the endpoint that wIndex names (figure 9-2 of the USB 2.0
      specification): the number in bits 3 to 0, the direction in bit 7. */
  function NamedEndpoint(wIndex: Word): int {
    var number := wIndex % 0x10;
    if number > 0 then number + 1 else if wIndex / 0x80 % 2 == 1 then EP0_IN else EP0_OUT
  }

  /** SET_FEATURE(ENDPOINT_HALT) sets the flag of the endpoint it names if and only if that is
      endpoint 0 named without stray bits, or endpoint 0 IN, or any other endpoint outside
      the address state. */
  lemma HaltTargetIff(k: Known, r: Setup)
    ensures HaltTarget(k, r) == NamedEndpoint(WIndex(r))
            <==> WIndex(r) == 0
                 || (WIndex(r) % 0x10 == 0 && WIndex(r) / 0x80 % 2 == 1)
                 || (WIndex(r) % 0x10 != 0 && !k.isAddress)
  {}

  /** The flag that a due SET_FEATURE(ENDPOINT_HALT) sets, and the flag that CLEAR_FEATURE
      clears, outside the address state and with wLength 0: the same one. */
  lemma HaltAndBack(es: seq<Event>, env: Env)
    requires Dispatches(RunFromPowerOn(es)) && OfHalt(RunFromPowerOn(es).request)
    requires !RunFromPowerOn(es).isAddress && WLength(RunFromPowerOn(es).request) == 0
    ensures var s, t := RunFromPowerOn(es), RunFromPowerOn(es + [MainRequest(env)]);
            var ep := HaltTarget(KnownOf(s), s.request);
            && (IsSetFeature(s.request) ==> t.log == s.log + [Stall(ep), Packet([])])
            && (IsClearFeature(s.request) ==> t.log == s.log + [Unstall(ep), Unstall(ep), Packet([])])
            && (WIndex(s.request) % 0x10 != 0 ==> ep == NamedEndpoint(WIndex(s.request)))
  {
    RequestsAreAnswered(es, env);
    HaltTargetIff(KnownOf(RunFromPowerOn(es)), RunFromPowerOn(es).request);
  }
}
