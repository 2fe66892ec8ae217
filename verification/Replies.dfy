/** What the device sends in answer to every request, byte for byte and stall for stall, said
    from the outside: from the request and from what is known of the device's state.  Each
    table entry is proved of the handler that a SETUP is dispatched to. */
module Replies {
  import opened Bytes
  import opened Hal
  import opened ControlPipe
  import opened ControlPipeRuns
  import opened DeviceStates
  import opened InTransfer

  // What answers a request that is accepted without data, and one that is refused.
  const STATUS: seq<ChipOp> := [Packet([])]
  const REFUSE_READ: seq<ChipOp> := [Stall(EP0_OUT), Stall(EP0_IN)]
  const REFUSE_WRITE: seq<ChipOp> := [Stall(EP0_IN), Stall(EP0_OUT)]

  function Refuse(r: Setup): seq<ChipOp> {
    if DeviceToHost(r) then REFUSE_READ else REFUSE_WRITE
  }

  /** As much of the device's state as its answers depend on. */
  datatype Known = Known(isDefault: bool, isAddress: bool, configuration: Byte, wakeup: bool, setting: Byte)

  function KnownOf(s: Pipe): Known {
    Known(s.isDefault, s.isAddress, s.configuration, s.remoteWakeup, s.alternativeSetting)
  }

  // ---------- the standard requests ----------

  /** The device is self-powered (bit 0); bit 1 says whether remote wakeup is enabled. */
  function StatusReply(k: Known, r: Setup, halted: bool): seq<ChipOp> {
    var proper := WValue(r) == 0 && WLength(r) == 2;
    if !k.isAddress && !proper then []
    else
      match Recipient(r)
      case 0 => [Packet([1 + if k.wakeup then 2 else 0, 0])]
      case 1 => if k.isAddress then REFUSE_READ else [Packet([0, 0])]
      case 2 => if k.isAddress && WIndex(r) != 0 then REFUSE_READ else [Packet([if halted then 1 else 0, 0])]
      case _ => REFUSE_READ
  }

  // The feature selectors of table 9-6, with the recipients they belong to.
  predicate OfWakeup(r: Setup) { Recipient(r) == 0 && WValue(r) == 1 }
  predicate OfHalt(r: Setup) { Recipient(r) == 2 && WValue(r) == 0 }

  /** The chip's index of the endpoint whose halt flag SET_FEATURE sets. */
  function HaltTarget(k: Known, r: Setup): int {
    if WIndex(r) == 0 then EP0_OUT else if k.isAddress then EP0_IN else WIndex(r) % 0x10 + 1
  }

  function SetFeatureReply(k: Known, r: Setup): seq<ChipOp> {
    if !k.isAddress && WLength(r) != 0 then []
    else if OfWakeup(r) then STATUS
    else if OfHalt(r) then [Stall(HaltTarget(k, r))] + STATUS
    else if Recipient(r) == 2 && !k.isAddress then [Unstall(EP0_IN)] + STATUS
    else REFUSE_WRITE
  }

  function ClearFeatureReply(k: Known, r: Setup): seq<ChipOp> {
    if WLength(r) != 0 then []
    else if OfWakeup(r) then STATUS
    else if OfHalt(r) && !k.isAddress then
      [Unstall(HaltTarget(k, r)), Unstall(HaltTarget(k, r))] + STATUS
    else if OfHalt(r) && WIndex(r) == 0 then [Unstall(EP0_OUT)] + STATUS
    else REFUSE_WRITE
  }

  function SetAddressReply(k: Known, r: Setup): seq<ChipOp> {
    if k.isDefault && WValue(r) % 0x80 == 0 then [] else STATUS
  }

  function GetConfigurationReply(k: Known, r: Setup): seq<ChipOp> {
    if k.isAddress then [Packet([0])]
    else if WellFormedGetConfiguration(r) then [Packet([k.configuration])]
    else []
  }

  /** The device has one configuration, of value 1; 0 takes it back. */
  function SetConfigurationReply(k: Known, r: Setup): seq<ChipOp> {
    if k.isAddress && (WIndex(r) != 0 || WLength(r) != 0) then []
    else if WValue(r) <= 1 then STATUS
    else REFUSE_WRITE
  }

  function GetInterfaceReply(k: Known, r: Setup): seq<ChipOp> {
    if !k.isAddress && WValue(r) == 0 && WIndex(r) == 0 && WLength(r) == 1 then [Packet([k.setting])] else REFUSE_READ
  }

  /** The device has one interface, number 0, with the settings 0 and 1. */
  function SetInterfaceReply(k: Known, r: Setup): seq<ChipOp> {
    (if DeviceToHost(r) then REFUSE_READ else [])
    + if k.isAddress then REFUSE_READ
      else if WValue(r) <= 1 && WIndex(r) == 0 then STATUS
      else REFUSE_WRITE
  }

  function StandardReply(k: Known, r: Setup, env: Env): seq<ChipOp> {
    match RequestCode(r)
    case 0 => StatusReply(k, r, env.halted)
    case 1 => ClearFeatureReply(k, r)
    case 3 => SetFeatureReply(k, r)
    case 5 => SetAddressReply(k, r)
    case 6 => DescriptorOps(r, env.descriptor)
    case 8 => GetConfigurationReply(k, r)
    case 9 => SetConfigurationReply(k, r)
    case 10 => GetInterfaceReply(k, r)
    case 11 => SetInterfaceReply(k, r)
    case _ => Refuse(r)
  }

  function VendorReply(r: Setup): seq<ChipOp> {
    match RequestCode(r)
    case 0 => if WLength(r) == 0 then STATUS else Refuse(r)
    case 12 =>
      if !DeviceToHost(r) then []
      else if WValue(r) == 0 && WIndex(r) == 0x0472 && WLength(r) == 1 then [Packet([1])]
      else REFUSE_READ
    case _ => Refuse(r)
  }

  /** The answer to any request. */
  function Reply(k: Known, r: Setup, env: Env): seq<ChipOp> {
    match RequestClass(r)
    case 0 => StandardReply(k, r, env)
    case 2 => VendorReply(r)
    case _ => Refuse(r)
  }

  /** The state an answer leaves the engine in: a full packet starts a data stage, a shorter
      one is the end of it, and without an answer nothing is awaited. */
  function EndState(ops: seq<ChipOp>): DcpState {
    if ops == [] then IDLE
    else
      match ops[|ops| - 1]
      case Packet(bytes) => if |bytes| == EP0_PACKET_SIZE then DATAIN else HANDSHAKE
      case _ => STALL
  }

  // ---------- the handlers ----------

  predicate Sends(s: Pipe, t: Pipe, ops: seq<ChipOp>) {
    t.log == s.log + ops && t.dcp == EndState(ops) && Accounts(t, ops)
  }

  /** The byte count is that of the packet just sent, and nothing is left of a short one. */
  predicate Accounts(t: Pipe, ops: seq<ChipOp>) {
    ops != [] && ops[|ops| - 1].Packet? ==>
      var n := |ops[|ops| - 1].bytes|;
      t.wCount == n && (if n == EP0_PACKET_SIZE then n <= t.wLength else t.wLength == n)
  }

  // A handler is entered idle.
  predicate Entered(s: Pipe) {
    !s.abort && s.dcp == IDLE
  }

  lemma NothingSent(s: Pipe)
    requires s.dcp == IDLE
    ensures Sends(s, s, [])
  {}

  lemma StallsSend(s: Pipe)
    requires !s.abort
    ensures Sends(s, StallEP0InControlRead(s), REFUSE_READ) && Sends(s, StallEP0InControlWrite(s), REFUSE_WRITE)
    ensures Sends(s, StallEP0(s), Refuse(s.request))
  {}

  lemma SingleSends(s: Pipe, bytes: Blob)
    requires !s.abort && |bytes| < EP0_PACKET_SIZE
    ensures Sends(s, SingleTransmitEP0(s, bytes), [Packet(bytes)])
  {}

  // What is sent after something else.
  lemma SendsAfter(s: Pipe, first: seq<ChipOp>, t: Pipe, u: Pipe, then': seq<ChipOp>)
    requires t.log == s.log + first && Sends(t, u, then') && then' != []
    ensures Sends(s, u, first + then')
  {
    assert s.log + first + then' == s.log + (first + then');
  }

  lemma HaltSends(s: Pipe, ops: seq<ChipOp>)
    requires !s.abort
    ensures Sends(s, ChangeHalt(s, ops), ops + STATUS)
  {
    SingleSends(LogOps(s, ops), []);
    SendsAfter(s, ops, LogOps(s, ops), ChangeHalt(s, ops), STATUS);
  }

  lemma GetStatusSends(s: Pipe, halted: bool)
    requires Entered(s)
    ensures Sends(s, GetStatus(s, halted), StatusReply(KnownOf(s), s.request, halted))
  {
    NothingSent(s);
    StallsSend(s);
    SingleSends(s, DeviceStatus(s));
    SingleSends(s, HaltStatus(halted));
    SingleSends(s, [0, 0]);
  }

  lemma ClearFeatureSends(s: Pipe)
    requires Entered(s)
    ensures Sends(s, ClearFeature(s), ClearFeatureReply(KnownOf(s), s.request))
  {
    var ep := EndpointIndex(WIndex(s.request));
    NothingSent(s);
    StallsSend(s);
    SingleSends(s.(remoteWakeup := false), []);
    HaltSends(s, [Unstall(ep), Unstall(ep)]);
    HaltSends(s, [Unstall(EP0_OUT)]);
  }

  lemma WakeupSends(s: Pipe, enabled: bool)
    requires !s.abort
    ensures Sends(s, EnableWakeup(s, enabled), STATUS)
  {
    SingleSends(s.(remoteWakeup := enabled), []);
  }

  lemma SetFeatureAddressedSends(s: Pipe)
    requires Entered(s) && s.isAddress
    ensures Sends(s, SetFeatureAddressed(s), SetFeatureReply(KnownOf(s), s.request))
  {
    if Recipient(s.request) == 2 {
      HaltSends(s, [Stall(HaltTarget(KnownOf(s), s.request))]);
    } else {
      WakeupSends(s, true);
    }
    StallsSend(s);
  }

  lemma SetFeatureOtherSends(s: Pipe)
    requires Entered(s) && !s.isAddress && WLength(s.request) == 0
    ensures Sends(s, SetFeatureOther(s), SetFeatureReply(KnownOf(s), s.request))
  {
    if OfHalt(s.request) {
      HaltSends(s, [Stall(HaltTarget(KnownOf(s), s.request))]);
    } else if Recipient(s.request) == 2 {
      HaltSends(s, [Unstall(EP0_IN)]);
    } else {
      WakeupSends(s, true);
      StallsSend(s);
    }
  }

  lemma SetFeatureSends(s: Pipe)
    requires Entered(s)
    ensures Sends(s, SetFeature(s), SetFeatureReply(KnownOf(s), s.request))
  {
    if s.isAddress {
      SetFeatureAddressedSends(s);
    } else if WLength(s.request) == 0 {
      SetFeatureOtherSends(s);
    } else {
      NothingSent(s);
    }
  }

  lemma SetAddressSends(s: Pipe)
    requires Entered(s)
    ensures Sends(s, SetAddress(s), SetAddressReply(KnownOf(s), s.request))
  {
    NothingSent(s);
  }

  lemma GetDescriptorSends(s: Pipe, descriptor: Blob)
    requires Entered(s) && s.wLength == WLength(s.request)
    ensures Sends(s, GetDescriptor(s, descriptor), DescriptorOps(s.request, descriptor))
  {
    DescriptorOutcome(s, descriptor);
  }

  lemma GetConfigurationSends(s: Pipe)
    requires Entered(s)
    ensures Sends(s, GetConfiguration(s), GetConfigurationReply(KnownOf(s), s.request))
  {
    NothingSent(s);
    SingleSends(s, [0]);
    SingleSends(s, [s.configuration]);
  }

  lemma ConfigureSends(s: Pipe)
    requires Entered(s)
    ensures Sends(s, ConfigureAddressed(s), if WValue(s.request) <= 1 then STATUS else REFUSE_WRITE)
    ensures Sends(s, ConfigureOther(s), if WValue(s.request) <= 1 then STATUS else REFUSE_WRITE)
  {
    StallsSend(s);
    SingleSends(s.(configuration := 0, isAddress := true), []);
    SingleSends(s.(configuration := 0, isAddress := true, isConfigured := false), []);
    SingleSends(s.(configuration := 1, isAddress := false, isConfigured := true), []);
  }

  lemma SetConfigurationSends(s: Pipe)
    requires Entered(s)
    ensures Sends(s, SetConfiguration(s), SetConfigurationReply(KnownOf(s), s.request))
  {
    NothingSent(s);
    ConfigureSends(s);
  }

  lemma GetInterfaceSends(s: Pipe)
    requires Entered(s)
    ensures Sends(s, GetInterface(s), GetInterfaceReply(KnownOf(s), s.request))
  {
    StallsSend(s);
    SingleSends(s, [s.alternativeSetting]);
  }

  // The wrong direction: what follows the stall it begins with.
  lemma SetInterfaceSends(s: Pipe)
    requires Entered(s)
    ensures Sends(s, SetInterface(s), SetInterfaceReply(KnownOf(s), s.request))
  {
    var wrong := DeviceToHost(s.request);
    var t, first := if wrong then StallEP0InControlRead(s) else s, if wrong then REFUSE_READ else [];
    StallsSend(s);
    StallsSend(t);
    SendsAfter(s, first, t, StallEP0InControlRead(t), REFUSE_READ);
    SendsAfter(s, first, t, StallEP0InControlWrite(t), REFUSE_WRITE);
    if WValue(s.request) <= 1 {
      var u := t.(alternativeSetting := WValue(s.request));
      SingleSends(u, []);
      SendsAfter(s, first, t, SingleTransmitEP0(u, []), STATUS);
    }
  }

  lemma StandardSends(s: Pipe, env: Env)
    requires Entered(s) && s.wLength == WLength(s.request)
    ensures Sends(s, StandardRequest(s, env), StandardReply(KnownOf(s), s.request, env))
  {
    match RequestCode(s.request)
    case 0 => GetStatusSends(s, env.halted);
    case 1 => ClearFeatureSends(s);
    case 3 => SetFeatureSends(s);
    case 5 => SetAddressSends(s);
    case 6 => GetDescriptorSends(s, env.descriptor);
    case 8 => GetConfigurationSends(s);
    case 9 => SetConfigurationSends(s);
    case 10 => GetInterfaceSends(s);
    case 11 => SetInterfaceSends(s);
    case _ => StallsSend(s);
  }

  lemma VendorSends(s: Pipe)
    requires Entered(s)
    ensures Sends(s, VendorRequest(s), VendorReply(s.request))
  {
    NothingSent(s);
    StallsSend(s);
    SingleSends(s, []);
    SingleSends(s, [1]);
  }

  lemma HandlerSends(s: Pipe, env: Env)
    requires Entered(s) && s.wLength == WLength(s.request)
    ensures Sends(s, DeviceRequestHandler(s, env), Reply(KnownOf(s), s.request, env))
  {
    StandardSends(s, env);
    VendorSends(s);
    StallsSend(s);
  }

  /** After any run, a request that is due is answered with exactly its reply, and the reply
      decides the state that follows. */
  lemma RequestsAreAnswered(es: seq<Event>, env: Env)
    requires Dispatches(RunFromPowerOn(es))
    ensures var s, t := RunFromPowerOn(es), RunFromPowerOn(es + [MainRequest(env)]);
            var ops := Reply(KnownOf(s), s.request, env);
            t.log == s.log + ops && t.dcp == EndState(ops) && Accounts(t, ops)
  {
    var s := RunFromPowerOn(es);
    RunSnoc(PowerOn(), es, MainRequest(env));
    NewestSetupWins(es);
    HandlerSends(s.(dcp := IDLE), env);
  }
}
