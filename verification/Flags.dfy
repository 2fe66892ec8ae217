/** The two flags of the driver that outlive a request without being part of the device state
    of section 9.1.1: remote wakeup and the alternative setting. */
module Flags {
  import opened Bytes
  import opened Hal
  import opened ControlPipe
  import opened ControlPipeRuns
  import opened DeviceStates
  import opened Replies

  predicate IsGetInterface(r: Setup) { IsStandard(r, 10) }
  predicate IsSetInterface(r: Setup) { IsStandard(r, 11) }
  predicate IsClearFeature(r: Setup) { IsStandard(r, 1) }
  predicate IsSetFeature(r: Setup) { IsStandard(r, 3) }

  predicate ChangesFlags(r: Setup) {
    IsSetInterface(r) || IsClearFeature(r) || IsSetFeature(r)
  }

  // The last thing put on the chip is the zero-length status packet.
  predicate Accepted(s: Pipe, t: Pipe) {
    |t.log| > |s.log| && t.log[|t.log| - 1] == Packet([])
  }

  // ---------- what leaves both alone ----------

  predicate SameFlags(s: Pipe, t: Pipe) {
    (t.alternativeSetting, t.remoteWakeup) == (s.alternativeSetting, s.remoteWakeup)
  }

  lemma StallsKeepFlags(s: Pipe)
    ensures SameFlags(s, StallEP0(s)) && SameFlags(s, StallEP0InControlRead(s)) && SameFlags(s, StallEP0InControlWrite(s))
  {}

  lemma TransmitsKeepFlags(s: Pipe, data: Blob)
    ensures SameFlags(s, SingleTransmitEP0(s, data)) && SameFlags(s, BurstTransmitEP0(s, data))
  {}

  lemma GetDescriptorKeepsFlags(s: Pipe, descriptor: Blob)
    ensures SameFlags(s, GetDescriptor(s, descriptor))
  {
    TransmitsKeepFlags(s, descriptor);
    StallsKeepFlags(s);
    StallsKeepFlags(BurstTransmitEP0(s, descriptor));
    StallsKeepFlags(StallEP0InControlRead(s));
  }

  lemma StatusKeepsFlags(s: Pipe, halted: bool)
    ensures SameFlags(s, GetStatus(s, halted))
  {
    StallsKeepFlags(s);
    TransmitsKeepFlags(s, DeviceStatus(s));
    TransmitsKeepFlags(s, HaltStatus(halted));
    TransmitsKeepFlags(s, [0, 0]);
  }

  lemma SetAddressKeepsFlags(s: Pipe)
    ensures SameFlags(s, SetAddress(s))
  {}

  lemma GetConfigurationKeepsFlags(s: Pipe)
    ensures SameFlags(s, GetConfiguration(s))
  {}

  lemma ConfigureAddressedKeepsFlags(s: Pipe)
    ensures SameFlags(s, ConfigureAddressed(s))
  {}

  lemma ConfigureOtherKeepsFlags(s: Pipe)
    ensures SameFlags(s, ConfigureOther(s))
  {}

  lemma SetConfigurationKeepsFlags(s: Pipe)
    ensures SameFlags(s, SetConfiguration(s))
  {
    ConfigureAddressedKeepsFlags(s);
    ConfigureOtherKeepsFlags(s);
  }

  lemma StandardKeepsFlags(s: Pipe, env: Env)
    requires RequestCode(s.request) !in {1, 3, 11}
    ensures SameFlags(s, StandardRequest(s, env))
  {
    match RequestCode(s.request)
    case 0 => StatusKeepsFlags(s, env.halted);
    case 6 => GetDescriptorKeepsFlags(s, env.descriptor);
    case 10 =>
      TransmitsKeepFlags(s, [s.alternativeSetting]);
      StallsKeepFlags(s);
    case 5 => SetAddressKeepsFlags(s);
    case 8 => GetConfigurationKeepsFlags(s);
    case 9 => SetConfigurationKeepsFlags(s);
    case _ => StallsKeepFlags(s);
  }

  lemma VendorKeepsFlags(s: Pipe)
    ensures SameFlags(s, VendorRequest(s))
  {
    StallsKeepFlags(s);
    TransmitsKeepFlags(s, []);
    TransmitsKeepFlags(s, [1]);
  }

  lemma HandlerKeepsFlags(s: Pipe, env: Env)
    requires !ChangesFlags(s.request)
    ensures SameFlags(s, DeviceRequestHandler(s, env))
  {
    if RequestCode(s.request) !in {1, 3, 11} {
      StandardKeepsFlags(s, env);
    }
    VendorKeepsFlags(s);
    StallsKeepFlags(s);
  }

  lemma DecodeKeepsFlags(s: Pipe, overwritten: bool)
    ensures SameFlags(s, DecodeGet(s, overwritten)) && SameFlags(s, DecodeSet(s, overwritten))
  {}

  lemma SetupKeepsFlags(s: Pipe, overwritten: bool)
    ensures SameFlags(s, SetupTokenHandler(s, overwritten))
  {
    var read := ReadSetup(s);
    DecodeKeepsFlags(read.(wLength := WLength(read.request), wCount := 0), overwritten);
    StallsKeepFlags(read);
  }

  lemma OutKeepsFlags(s: Pipe, packet: Fifo)
    ensures SameFlags(s, OutRxDone(s, packet))
  {}

  lemma TxDoneKeepsFlags(s: Pipe)
    ensures SameFlags(s, TxDone(s))
  {}

  /** No event but a bus reset, and no request but these three, touches either flag. */
  lemma OthersKeepFlags(s: Pipe, e: Event)
    requires !e.Reset? && (Due(s, e) ==> !ChangesFlags(s.request))
    ensures SameFlags(s, Step(s, e))
  {
    match e
    case SetupIn(_) =>
    case OutIn(packet) => OutKeepsFlags(s, packet);
    case InDone => TxDoneKeepsFlags(s);
    case MainSetup(overwritten) => SetupKeepsFlags(s, overwritten);
    case MainRequest(env) =>
      if Dispatches(s) {
        HandlerKeepsFlags(s.(dcp := IDLE), env);
      }
  }

  // ---------- what changes them ----------

  lemma ResetFlags(s: Pipe)
    ensures BusReset(s).alternativeSetting == s.alternativeSetting && !BusReset(s).remoteWakeup
  {}

  lemma WakeupFlags(s: Pipe, enabled: bool)
    ensures EnableWakeup(s, enabled).alternativeSetting == s.alternativeSetting
    ensures EnableWakeup(s, enabled).remoteWakeup == enabled
  {}

  lemma HaltKeepsFlags(s: Pipe, ops: seq<ChipOp>)
    ensures SameFlags(s, ChangeHalt(s, ops))
  {}

  lemma ClearFeatureFlags(s: Pipe)
    ensures ClearFeature(s).alternativeSetting == s.alternativeSetting
    ensures ClearFeature(s).remoteWakeup == if OfWakeup(s.request) && WLength(s.request) == 0 then false else s.remoteWakeup
  {
    var ep := EndpointIndex(WIndex(s.request));
    StallsKeepFlags(s);
    WakeupFlags(s, false);
    HaltKeepsFlags(s, [Unstall(EP0_OUT)]);
    HaltKeepsFlags(s, [Unstall(ep), Unstall(ep)]);
  }

  // What SET_FEATURE makes of the flags, where it does not fall silent.
  predicate WakeupOn(s: Pipe, t: Pipe) {
    && t.alternativeSetting == s.alternativeSetting
    && t.remoteWakeup == (OfWakeup(s.request) || s.remoteWakeup)
  }

  lemma SetFeatureAddressedFlags(s: Pipe)
    ensures WakeupOn(s, SetFeatureAddressed(s))
  {
    if Recipient(s.request) == 2 {
      HaltKeepsFlags(s, [Stall(if WIndex(s.request) == 0 then EP0_OUT else EP0_IN)]);
    } else {
      WakeupFlags(s, true);
    }
    StallsKeepFlags(s);
  }

  lemma SetFeatureOtherFlags(s: Pipe)
    ensures WakeupOn(s, SetFeatureOther(s))
  {
    if Recipient(s.request) == 2 {
      HaltKeepsFlags(s, [Stall(EndpointIndex(WIndex(s.request)))]);
      HaltKeepsFlags(s, [Unstall(EP0_IN)]);
    } else {
      WakeupFlags(s, true);
      StallsKeepFlags(s);
    }
  }

  lemma SetFeatureFlags(s: Pipe)
    ensures SetFeature(s).alternativeSetting == s.alternativeSetting
    ensures SetFeature(s).remoteWakeup
            == if OfWakeup(s.request) && (s.isAddress || WLength(s.request) == 0) then true else s.remoteWakeup
  {
    SetFeatureAddressedFlags(s);
    SetFeatureOtherFlags(s);
  }

  lemma FeatureRuns(s: Pipe, env: Env)
    ensures IsClearFeature(s.request) ==> DeviceRequestHandler(s, env) == ClearFeature(s)
    ensures IsSetFeature(s.request) ==> DeviceRequestHandler(s, env) == SetFeature(s)
  {
    assert IsClearFeature(s.request) || IsSetFeature(s.request) ==> DeviceRequestHandler(s, env) == StandardRequest(s, env);
  }

  lemma SetInterfaceKeepsWakeup(s: Pipe)
    ensures SetInterface(s).remoteWakeup == s.remoteWakeup
  {}
}
