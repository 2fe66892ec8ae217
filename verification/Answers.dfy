/** Which dispatched requests the device answers at all.  Section 9.2.7 of the USB 2.0
    specification asks for a request error (a stall) where a request cannot be handled;
    several handlers of CHAP_9.c fall through without doing anything instead. */
module Answers {
  import opened Bytes
  import opened Hal
  import opened ControlPipe
  import opened ControlPipeRuns
  import opened DeviceStates

  predicate SilentStandard(s: Pipe) {
    var r := s.request;
    match RequestCode(r)
    case 0 => !s.isAddress && (WValue(r) != 0 || WLength(r) != 2)       // GET_STATUS
    case 1 => WLength(r) != 0                                           // CLEAR_FEATURE
    case 3 => !s.isAddress && WLength(r) != 0                           // SET_FEATURE
    case 5 => s.isDefault && WValue(r) % 0x80 == 0                      // SET_ADDRESS
    case 8 => !s.isAddress && !WellFormedGetConfiguration(r)            // GET_CONFIGURATION
    case 9 => s.isAddress && (WIndex(r) != 0 || WLength(r) != 0)        // SET_CONFIGURATION
    case _ => false
  }

  /** The requests, by state bits and fields, that get no answer: six standard ones, and
      every write to the vendor's registers. */
  predicate Silent(s: Pipe) {
    var kind := RequestClass(s.request);
    || (kind == 0 && SilentStandard(s))
    || (kind == 2 && RequestCode(s.request) == 12 && !DeviceToHost(s.request))
  }

  // The handler has put something on the chip, or has done nothing at all.
  predicate Answers(s: Pipe, t: Pipe, silent: bool) {
    if silent then t == s else |t.log| > |s.log| && t.log[..|s.log|] == s.log
  }

  lemma StallAnswers(s: Pipe)
    ensures Answers(s, StallEP0(s), false)
    ensures Answers(s, StallEP0InControlRead(s), false) && Answers(s, StallEP0InControlWrite(s), false)
  {}

  lemma SingleAnswers(s: Pipe, bytes: Blob)
    requires |bytes| <= EP0_PACKET_SIZE
    ensures Answers(s, SingleTransmitEP0(s, bytes), false)
  {}

  // One answer after another.
  lemma AnswersChain(s: Pipe, t: Pipe, u: Pipe)
    requires |s.log| <= |t.log| && t.log[..|s.log|] == s.log && Answers(t, u, false)
    ensures Answers(s, u, false)
  {
    assert u.log[..|s.log|] == u.log[..|t.log|][..|s.log|];
  }

  lemma GetStatusAnswers(s: Pipe, halted: bool)
    ensures Answers(s, GetStatus(s, halted), !s.isAddress && (WValue(s.request) != 0 || WLength(s.request) != 2))
  {
    StallAnswers(s);
    SingleAnswers(s, DeviceStatus(s));
    SingleAnswers(s, HaltStatus(halted));
    SingleAnswers(s, [0, 0]);
  }

  lemma HaltAnswers(s: Pipe, ops: seq<ChipOp>)
    ensures Answers(s, ChangeHalt(s, ops), false)
  {
    SingleAnswers(LogOps(s, ops), []);
    AnswersChain(s, LogOps(s, ops), ChangeHalt(s, ops));
  }

  lemma ClearFeatureAnswers(s: Pipe)
    ensures Answers(s, ClearFeature(s), WLength(s.request) != 0)
  {
    var ep := EndpointIndex(WIndex(s.request));
    StallAnswers(s);
    SingleAnswers(s.(remoteWakeup := false), []);
    HaltAnswers(s, [Unstall(EP0_OUT)]);
    HaltAnswers(s, [Unstall(ep), Unstall(ep)]);
  }

  lemma SetFeatureAnswers(s: Pipe)
    ensures Answers(s, SetFeatureAddressed(s), false) && Answers(s, SetFeatureOther(s), false)
    ensures Answers(s, SetFeature(s), !s.isAddress && WLength(s.request) != 0)
  {
    StallAnswers(s);
    SingleAnswers(s.(remoteWakeup := true), []);
    HaltAnswers(s, [Stall(if WIndex(s.request) == 0 then EP0_OUT else EP0_IN)]);
    HaltAnswers(s, [Stall(EndpointIndex(WIndex(s.request)))]);
    HaltAnswers(s, [Unstall(EP0_IN)]);
  }

  lemma SetAddressAnswers(s: Pipe)
    requires !s.abort
    ensures Answers(s, SetAddress(s), s.isDefault && WValue(s.request) % 0x80 == 0)
  {}

  lemma GetDescriptorAnswers(s: Pipe, descriptor: Blob)
    ensures Answers(s, GetDescriptor(s, descriptor), false)
  {
    var sent := BurstTransmitEP0(s, descriptor);
    StallAnswers(s);
    StallAnswers(sent);
    StallAnswers(StallEP0InControlRead(s));
    AnswersChain(s, sent, StallEP0InControlRead(sent));
    AnswersChain(s, StallEP0InControlRead(s), StallEP0InControlRead(StallEP0InControlRead(s)));
  }

  lemma GetConfigurationAnswers(s: Pipe)
    ensures Answers(s, GetConfiguration(s), !s.isAddress && !WellFormedGetConfiguration(s.request))
  {
    SingleAnswers(s, [0]);
    SingleAnswers(s, [s.configuration]);
  }

  lemma ConfigureAddressedAnswers(s: Pipe)
    ensures Answers(s, ConfigureAddressed(s), false)
  {
    SingleAnswers(s.(configuration := 0, isAddress := true), []);
    SingleAnswers(s.(configuration := 1, isAddress := false, isConfigured := true), []);
    StallAnswers(s);
  }

  lemma ConfigureOtherAnswers(s: Pipe)
    ensures Answers(s, ConfigureOther(s), false)
  {
    SingleAnswers(s.(configuration := 0, isAddress := true, isConfigured := false), []);
    SingleAnswers(s.(configuration := 1, isAddress := false, isConfigured := true), []);
    StallAnswers(s);
  }

  lemma SetConfigurationAnswers(s: Pipe)
    ensures Answers(s, SetConfiguration(s), s.isAddress && (WIndex(s.request) != 0 || WLength(s.request) != 0))
  {
    ConfigureAddressedAnswers(s);
    ConfigureOtherAnswers(s);
  }

  lemma InterfaceAnswers(s: Pipe)
    ensures Answers(s, GetInterface(s), false) && Answers(s, SetInterface(s), false)
  {
    var t := if DeviceToHost(s.request) then StallEP0InControlRead(s) else s;
    StallAnswers(s);
    StallAnswers(t);
    SingleAnswers(s, [s.alternativeSetting]);
    AnswersChain(s, t, StallEP0InControlRead(t));
    AnswersChain(s, t, StallEP0InControlWrite(t));
    if WValue(s.request) <= 1 {
      var u := t.(alternativeSetting := WValue(s.request));
      SingleAnswers(u, []);
      AnswersChain(s, u, SingleTransmitEP0(u, []));
    }
  }

  lemma StandardAnswers(s: Pipe, env: Env)
    requires !s.abort
    ensures Answers(s, StandardRequest(s, env), SilentStandard(s))
  {
    match RequestCode(s.request)
    case 0 => GetStatusAnswers(s, env.halted);
    case 1 => ClearFeatureAnswers(s);
    case 3 => SetFeatureAnswers(s);
    case 5 => SetAddressAnswers(s);
    case 6 => GetDescriptorAnswers(s, env.descriptor);
    case 8 => GetConfigurationAnswers(s);
    case 9 => SetConfigurationAnswers(s);
    case 10 => InterfaceAnswers(s);
    case 11 => InterfaceAnswers(s);
    case _ => StallAnswers(s);
  }

  lemma VendorAnswers(s: Pipe)
    ensures Answers(s, VendorRequest(s), RequestCode(s.request) == 12 && !DeviceToHost(s.request))
  {
    StallAnswers(s);
    SingleAnswers(s, []);
    SingleAnswers(s, [1]);
  }

  lemma HandlerAnswers(s: Pipe, env: Env)
    requires !s.abort
    ensures Answers(s, DeviceRequestHandler(s, env), Silent(s))
  {
    StandardAnswers(s, env);
    VendorAnswers(s);
    StallAnswers(s);
  }

  /** After any run, a request that is due is left without any answer if and only if it is
      one of the silent ones; then nothing has changed but that the engine is idle. */
  lemma SilentIff(es: seq<Event>, env: Env)
    requires Dispatches(RunFromPowerOn(es))
    ensures var s, t := RunFromPowerOn(es), RunFromPowerOn(es + [MainRequest(env)]);
            && (t.log == s.log <==> Silent(s))
            && (Silent(s) ==> t == s.(dcp := IDLE))
            && |t.log| >= |s.log| && t.log[..|s.log|] == s.log
  {
    RunSnoc(PowerOn(), es, MainRequest(env));
    HandlerAnswers(RunFromPowerOn(es).(dcp := IDLE), env);
  }

  // ---------- from SETUP to silence ----------

  lemma GetLogs(s: Pipe)
    requires !s.abort
    ensures DecodeGet(s, false).log == s.log + [AcknowledgeSetup]
  {}

  lemma SetLogs(s: Pipe)
    requires !s.abort && WLength(s.request) == 0
    ensures DecodeSet(s, false).log == s.log + [AcknowledgeSetup]
  {}

  predicate NoDataStage(r: Setup) {
    DeviceToHost(r) || WLength(r) == 0
  }

  // The one request that the setup branch takes for finished without any dispatch.
  predicate NeverDispatched(r: Setup) {
    RequestType(r) == 0xC0 && RequestCode(r) == 0
  }

  /** The request gets no answer from a device in the state s. */
  predicate Unanswered(s: Pipe, r: Setup) {
    NeverDispatched(r) || Silent(s.(request := r))
  }

  // Up to the dispatch the host has got its SETUP acknowledged and nothing else.
  lemma DecodedLogs(s: Pipe, r: Setup)
    requires NoDataStage(r)
    ensures Decoded(s, r).log == s.log + [AcknowledgeSetup]
  {
    var read := ReadSetup(SetupRxDone(s, BulkStream(r, 8)));
    SetupTaken(r);
    assert read.request == r;
    var armed := read.(wLength := WLength(r), wCount := 0);
    if DeviceToHost(r) {
      GetLogs(armed);
    } else {
      SetLogs(armed);
    }
  }

  lemma NeverDispatchedStays(es: seq<Event>, r: Setup)
    requires NeverDispatched(r)
    ensures RunFromPowerOn(es + Exchange(r)) == Decoded(RunFromPowerOn(es), r)
    ensures RunFromPowerOn(es + Exchange(r)).dcp == HANDSHAKE
  {
    AfterExchange(es, r);
    SetupTaken(r);
    SetupOutcome(RunFromPowerOn(es), BulkStream(r, 8), false);
  }

  lemma SilentBySight(s: Pipe, t: Pipe)
    requires t.request == s.request && SameDevice(s, t)
    ensures Silent(s) == Silent(t)
  {}

  // A request that is dispatched, from the state s before its SETUP to the state after.
  lemma DispatchAnswers(es: seq<Event>, r: Setup)
    requires Direct(r)
    ensures Answers(Decoded(RunFromPowerOn(es), r).(dcp := IDLE), RunFromPowerOn(es + Exchange(r)),
                    Silent(RunFromPowerOn(es).(request := r)))
  {
    var s := ExchangeDispatches(es, r);
    HandlerAnswers(s.(dcp := IDLE), NO_ENV);
    SilentBySight(s.(dcp := IDLE), RunFromPowerOn(es).(request := r));
  }

  /** A request without a data stage, sent after any run, is acknowledged and then left
      without an answer if and only if the setup branch never dispatches it or it is silent
      in the state the run has led to. */
  lemma UnansweredIff(es: seq<Event>, r: Setup)
    requires NoDataStage(r)
    ensures var s, t := RunFromPowerOn(es), RunFromPowerOn(es + Exchange(r));
            t.log == s.log + [AcknowledgeSetup] <==> Unanswered(s, r)
  {
    DecodedLogs(RunFromPowerOn(es), r);
    if NeverDispatched(r) {
      NeverDispatchedStays(es, r);
    } else {
      DispatchAnswers(es, r);
    }
  }

  // Nothing comes from the host but IN tokens.
  predicate HostWaits(es: seq<Event>) {
    forall n :: 0 <= n < |es| ==> es[n].InDone? || es[n].MainSetup? || es[n].MainRequest?
  }

  lemma {:induction false} RestStays(s: Pipe, es: seq<Event>)
    requires s.dcp in {IDLE, HANDSHAKE} && HostWaits(es)
    ensures Run(s, es) == s
  {
    if es == [] {
    } else {
      RestStays(s, es[..|es| - 1]);
    }
  }

  /** And no answer comes later: as long as the host only waits, nothing at all happens. */
  lemma SilenceLasts(es: seq<Event>, r: Setup, more: seq<Event>)
    requires NoDataStage(r) && Unanswered(RunFromPowerOn(es), r) && HostWaits(more)
    ensures RunFromPowerOn(es + Exchange(r) + more) == RunFromPowerOn(es + Exchange(r))
  {
    if NeverDispatched(r) {
      NeverDispatchedStays(es, r);
    } else {
      DispatchAnswers(es, r);
    }
    RunAppend(PowerOn(), es + Exchange(r), more);
    RestStays(RunFromPowerOn(es + Exchange(r)), more);
  }

  // ---------- one run for each silent request ----------

  // GET_STATUS, CLEAR_FEATURE, SET_FEATURE with length 1, GET_CONFIGURATION with length 2,
  // SET_ADDRESS(0), a vendor write; and SET_CONFIGURATION(1) with wIndex 1.
  function SilentRequest(k: nat): Setup {
    match k
    case 0 => [0x80, 0, 0, 0, 0, 0, 1, 0]
    case 1 => [0x80, 1, 0, 0, 0, 0, 1, 0]
    case 2 => [0x80, 3, 0, 0, 0, 0, 1, 0]
    case 3 => [0x80, 8, 0, 0, 0, 0, 2, 0]
    case 4 => [0, 5, 0, 0, 0, 0, 0, 0]
    case 5 => [0x40, 12, 0, 0, 0, 0, 0, 0]
    case _ => [0, 9, 1, 0, 1, 0, 0, 0]
  }

  // The request is acknowledged after these events and then never answered.
  predicate LeftAlone(es: seq<Event>, r: Setup) {
    RunFromPowerOn(es + Exchange(r)).log == RunFromPowerOn(es).log + [AcknowledgeSetup]
  }

  lemma SilentByFields(s: Pipe, r: Setup)
    requires s.isDefault && !s.isAddress && s.request == r && RequestClass(r) == 0 && WLength(r) != 2 && WValue(r) == 0
    ensures RequestCode(r) == 0 || (RequestCode(r) in {1, 3} && WLength(r) > 0) || RequestCode(r) == 5 ==> Silent(s)
  {}

  lemma SilentRequestIsSilent(s: Pipe, k: nat)
    requires s.request == SilentRequest(k)
    requires if k <= 5 then s.isDefault && !s.isAddress else s.isAddress
    ensures Direct(s.request) && Silent(s)
  {
    var r := s.request;
    assert SilentRequest(k)[0] == (if k <= 3 then 0x80 else if k == 5 then 0x40 else 0);
    if k <= 2 || k == 4 {
      assert RequestClass(r) == 0 && WValue(r) == 0;
      SilentByFields(s, r);
    } else if k == 3 {
      assert RequestClass(r) == 0 && RequestCode(r) == 8 && WLength(r) == 2;
      assert Silent(s);
    } else if k == 5 {
      assert RequestClass(r) == 2 && RequestCode(r) == 12;
      assert Silent(s);
    } else {
      assert RequestClass(r) == 0 && RequestCode(r) == 9 && WIndex(r) == 1;
      assert Silent(s);
    }
  }

  lemma AddressedAfter(r: Setup, a: Word)
    requires Plain(r, 5, a) && 0 < a < 0x80
    ensures RunFromPowerOn(Exchange(r)).isAddress
  {
    var s := ExchangeDispatches([], r);
    assert [] + Exchange(r) == Exchange(r);
    PlainIsStandard(r, 5, a);
    AddressHandler(s.(dcp := IDLE));
    AddressUp(s.(dcp := IDLE), a);
  }

  /** Every disjunct occurs: six right after power-on, the other once the device has been
      given an address a. */
  lemma SilentRequestsOccur(k: nat, r: Setup, a: Word)
    requires Plain(r, 5, a) && 0 < a < 0x80
    ensures LeftAlone(if k <= 5 then [] else Exchange(r), SilentRequest(k))
  {
    var es := if k <= 5 then [] else Exchange(r);
    AddressedAfter(r, a);
    SilentRequestIsSilent(RunFromPowerOn(es).(request := SilentRequest(k)), k);
    UnansweredIff(es, SilentRequest(k));
  }
}
