/** The USB default-control-pipe engine: ISR.c, MAINLOOP.c, CHAP_9.c and the polling loop.

    A Pipe is a snapshot of the globals bD13flags, bUSBCheck_Device_State and ControlData
    and of the endpoint-0 side of the chip; the functions say what each C function does to
    it.  UsbDriver.dfy has the C functions themselves, as methods on the mutable globals.
    One interrupt routine body and one main-loop branch (test and body) are one atomic
    step. */
module ControlPipe {
  import opened Bytes
  import opened Hal

  // bD13flags.bits.DCP_state is four bits wide.
  type DcpState = x: int | 0 <= x < 16
  const IDLE: DcpState := 0
  const DATAIN: DcpState := 1
  const DATAOUT: DcpState := 2
  const REQUESTPROC: DcpState := 3
  const HANDSHAKE: DcpState := 4
  const SETUPPROC: DcpState := 5
  const STALL: DcpState := 7

  const EP0_PACKET_SIZE: Word := 64
  const MAX_CONTROLDATA_SIZE := 16

  /** The eight bytes of DEVICE_REQUEST, laid over by the little-endian struct. */
  type Setup = s: seq<Byte> | |s| == 8 witness [0, 0, 0, 0, 0, 0, 0, 0]
  type ControlBuffer = s: seq<Byte> | |s| == MAX_CONTROLDATA_SIZE witness seq(16, _ => 0)
  /** A received packet as the chip's FIFO hands it out. */
  type Fifo = f: seq<Word> | HoldsPacket(f) witness [0]
  /** What a transmit routine is pointed at; its length must fit a USHORT. */
  type Blob = s: seq<Byte> | |s| < 0x1_0000

  function RequestType(r: Setup): Byte { r[0] }
  function RequestCode(r: Setup): Byte { r[1] }
  function WValue(r: Setup): Word { Pack(r[2], r[3]) }
  function WIndex(r: Setup): Word { Pack(r[4], r[5]) }
  function WLength(r: Setup): Word { Pack(r[6], r[7]) }

  predicate DeviceToHost(r: Setup) { RequestType(r) >= 0x80 }
  // bmRequestType & 0x1F: 0 device, 1 interface, 2 endpoint.
  function Recipient(r: Setup): int { RequestType(r) % 0x20 }
  // bmRequestType & 0x60, shifted down: 0 standard, 1 class, 2 vendor.
  function RequestClass(r: Setup): int { RequestType(r) / 0x20 % 4 }

  const EP0_OUT := 0
  const EP0_IN := 1

  /** What the driver does to the chip, as the host can tell: a packet on endpoint 0, the
      halt flag of an endpoint set or cleared, a SETUP acknowledged. */
  datatype ChipOp = Packet(bytes: seq<Byte>) | Stall(ep: int) | Unstall(ep: int) | AcknowledgeSetup

  /** What a dispatch takes from outside: the descriptor that the requested type and index
      select, and whether the chip reports the endpoint asked about as halted. */
  datatype Env = Env(descriptor: Blob, halted: bool)

  datatype Pipe = Pipe(
    dcp: DcpState, abort: bool,
    request: Setup, wLength: Word, wCount: Word, data: Blob, dataBuffer: ControlBuffer,
    isDefault: bool, isAddress: bool, isConfigured: bool, configuration: Byte,
    remoteWakeup: bool, alternativeSetting: Byte,
    fifo: Fifo, address: Byte, log: seq<ChipOp>)

  // ---------- CHAP_9.c, support functions ----------

  function LogOps(s: Pipe, ops: seq<ChipOp>): Pipe {
    s.(log := s.log + ops)
  }

  function StallEP0InControlWrite(s: Pipe): Pipe {
    LogOps(s, [Stall(EP0_IN), Stall(EP0_OUT)]).(dcp := if s.abort then s.dcp else STALL)
  }

  function StallEP0InControlRead(s: Pipe): Pipe {
    LogOps(s, [Stall(EP0_OUT), Stall(EP0_IN)]).(dcp := if s.abort then s.dcp else STALL)
  }

  function StallEP0(s: Pipe): Pipe {
    if DeviceToHost(s.request) then StallEP0InControlRead(s) else StallEP0InControlWrite(s)
  }

  // Hal4D13_SingleTransmitEP0 writes nothing that does not fit one packet.
  function HalSingleTransmit(s: Pipe, bytes: Blob): Pipe {
    if |bytes| <= EP0_PACKET_SIZE then LogOps(s, [Packet(bytes)]) else s
  }

  function SingleTransmitEP0(s: Pipe, bytes: Blob): Pipe {
    var sent := HalSingleTransmit(s, bytes);
    if s.abort then sent else sent.(wLength := |bytes|, wCount := |bytes|, dcp := HANDSHAKE)
  }

  // The n bytes at offset at of the transmit data, as far as the data reaches.
  function Window(data: seq<Byte>, at: nat, n: nat): seq<Byte> {
    if at + n <= |data| then data[at..at + n] else data[Min(at, |data|)..]
  }

  function FirstPacket(s: Pipe, data: Blob, n: Word, next: DcpState): Pipe
    requires n <= |data|
  {
    var sent := LogOps(s, [Packet(data[..n])]);
    if s.abort then sent else sent.(wCount := Ushort(s.wCount + n), dcp := next)
  }

  function BurstTransmitEP0(s: Pipe, data: Blob): Pipe {
    var n: Word := Min(s.wLength, |data|);
    var armed := s.(wCount := 0, wLength := n, data := data);
    FirstPacket(armed, data, Min(n, EP0_PACKET_SIZE), if n >= EP0_PACKET_SIZE then DATAIN else HANDSHAKE)
  }

  // ---------- CHAP_9.c, the requests that change the device state ----------

  function WriteAddress(s: Pipe): Pipe {
    s.(address := 0x80 + WValue(s.request) % 0x80)
  }

  function AddressFromDefault(s: Pipe): Pipe {
    if WValue(s.request) % 0x80 == 0 then s
    else SingleTransmitEP0(WriteAddress(s).(isDefault := false, isAddress := true), [])
  }

  function AddressFromAddress(s: Pipe): Pipe {
    var zero := WValue(s.request) % 0x80 == 0;
    SingleTransmitEP0(WriteAddress(s).(isDefault := zero, isAddress := !zero), [])
  }

  function AddressFromConfigured(s: Pipe): Pipe {
    SingleTransmitEP0(s.(isConfigured := false, isAddress := false, isDefault := true), [])
  }

  function SetAddress(s: Pipe): Pipe {
    if s.abort then s
    else if s.isDefault then AddressFromDefault(s)
    else if s.isAddress then AddressFromAddress(s)
    else AddressFromConfigured(s)
  }

  function Configure(s: Pipe): Pipe {
    SingleTransmitEP0(s.(configuration := 1, isAddress := false, isConfigured := true), [])
  }

  function ConfigureAddressed(s: Pipe): Pipe {
    match WValue(s.request)
    case 0 => SingleTransmitEP0(s.(configuration := 0, isAddress := true), [])
    case 1 => Configure(s)
    case _ => StallEP0InControlWrite(s)
  }

  function ConfigureOther(s: Pipe): Pipe {
    match WValue(s.request)
    case 0 => SingleTransmitEP0(s.(configuration := 0, isAddress := true, isConfigured := false), [])
    case 1 => Configure(s)
    case _ => StallEP0InControlWrite(s)
  }

  function SetConfiguration(s: Pipe): Pipe {
    if !s.isAddress then ConfigureOther(s)
    else if WIndex(s.request) == 0 && WLength(s.request) == 0 then ConfigureAddressed(s)
    else s
  }

  function GetConfiguration(s: Pipe): Pipe {
    if s.isAddress then SingleTransmitEP0(s, [0])
    else if WValue(s.request) == 0 && WIndex(s.request) == 0 && WLength(s.request) == 1 then
      SingleTransmitEP0(s, [s.configuration])
    else s
  }

  // The string case of the switch has no break and runs on into the stall.
  function GetDescriptor(s: Pipe, descriptor: Blob): Pipe {
    var kind, index := High(WValue(s.request)), Low(WValue(s.request));
    if kind == 1 || kind == 2 then BurstTransmitEP0(s, descriptor)
    else if kind == 3 && index <= 5 then StallEP0InControlRead(BurstTransmitEP0(s, descriptor))
    else if kind == 3 then StallEP0InControlRead(StallEP0InControlRead(s))
    else StallEP0InControlRead(s)
  }

  // ---------- CHAP_9.c, status, features, interface ----------

  // DEVSTS_SELFPOWERED, with DEVSTS_REMOTEWAKEUP if enabled.
  function DeviceStatus(s: Pipe): Blob {
    [if s.remoteWakeup then 3 else 1, 0]
  }

  function HaltStatus(halted: bool): Blob {
    [if halted then 1 else 0, 0]
  }

  // The chip's index for the endpoint a request names: endp + 1, with endp a UCHAR set to -1
  // for endpoint 0.
  function EndpointIndex(wIndex: Word): int {
    if wIndex == 0 then EP0_OUT else wIndex % 0x10 + 1
  }

  function GetStatus(s: Pipe, halted: bool): Pipe {
    var r := s.request;
    if s.isAddress then
      if Recipient(r) == 0 then SingleTransmitEP0(s, DeviceStatus(s))
      else if Recipient(r) == 2 && WIndex(r) == 0 then SingleTransmitEP0(s, HaltStatus(halted))
      else StallEP0InControlRead(s)
    else if WValue(r) == 0 && WLength(r) == 2 then
      if Recipient(r) == 0 then SingleTransmitEP0(s, DeviceStatus(s))
      else if Recipient(r) == 1 then SingleTransmitEP0(s, [0, 0])
      else if Recipient(r) == 2 then SingleTransmitEP0(s, HaltStatus(halted))
      else StallEP0InControlRead(s)
    else s
  }

  const ENDPOINT_STALL := 0
  const REMOTE_WAKEUP := 1

  function EnableWakeup(s: Pipe, enabled: bool): Pipe {
    SingleTransmitEP0(s.(remoteWakeup := enabled), [])
  }

  function ChangeHalt(s: Pipe, ops: seq<ChipOp>): Pipe {
    SingleTransmitEP0(LogOps(s, ops), [])
  }

  function ClearFeature(s: Pipe): Pipe {
    var r := s.request;
    if WLength(r) != 0 then s
    else if Recipient(r) == 0 && WValue(r) == REMOTE_WAKEUP then EnableWakeup(s, false)
    else if Recipient(r) == 2 && WValue(r) == ENDPOINT_STALL then
      if !s.isAddress then
        ChangeHalt(s, [Unstall(EndpointIndex(WIndex(r))), Unstall(EndpointIndex(WIndex(r)))])
      else if WIndex(r) == 0 then ChangeHalt(s, [Unstall(EP0_OUT)])
      else StallEP0InControlWrite(s)
    else StallEP0InControlWrite(s)
  }

  // In the address state any endpoint but 0 is taken for EP0 IN, and the length is not looked
  // at.
  function SetFeatureAddressed(s: Pipe): Pipe {
    var r := s.request;
    if Recipient(r) == 0 && WValue(r) == REMOTE_WAKEUP then EnableWakeup(s, true)
    else if Recipient(r) == 2 && WValue(r) == ENDPOINT_STALL then
      ChangeHalt(s, [Stall(if WIndex(r) == 0 then EP0_OUT else EP0_IN)])
    else StallEP0InControlWrite(s)
  }

  // Outside it, an unknown endpoint feature clears the halt of EP0 IN.
  function SetFeatureOther(s: Pipe): Pipe {
    var r := s.request;
    if Recipient(r) == 0 && WValue(r) == REMOTE_WAKEUP then EnableWakeup(s, true)
    else if Recipient(r) == 2 then
      var op := if WValue(r) == ENDPOINT_STALL then Stall(EndpointIndex(WIndex(r))) else Unstall(EP0_IN);
      ChangeHalt(s, [op])
    else StallEP0InControlWrite(s)
  }

  function SetFeature(s: Pipe): Pipe {
    if s.isAddress then SetFeatureAddressed(s)
    else if WLength(s.request) == 0 then SetFeatureOther(s)
    else s
  }

  function GetInterface(s: Pipe): Pipe {
    var r := s.request;
    if !s.isAddress && WValue(r) == 0 && WIndex(r) == 0 && WLength(r) == 1
    then SingleTransmitEP0(s, [s.alternativeSetting])
    else StallEP0InControlRead(s)
  }

  // The wrong direction is stalled and then handled all the same.
  function SetInterface(s: Pipe): Pipe {
    var r := s.request;
    var t := if DeviceToHost(r) then StallEP0InControlRead(s) else s;
    if s.isAddress then StallEP0InControlRead(t)
    else if WValue(r) <= 1 && WIndex(r) == 0 then SingleTransmitEP0(t.(alternativeSetting := WValue(r)), [])
    else StallEP0InControlWrite(t)
  }

  // ---------- the vendor requests of ISO.c and D13BUS.c ----------

  function EnableIsoMode(s: Pipe): Pipe {
    if WLength(s.request) == 0 then SingleTransmitEP0(s, []) else StallEP0(s)
  }

  const GET_FIRMWARE_VERSION := 0x0472

  // A write is never answered: its only stall asks for a 16-bit size above 65536.
  function ReadWriteRegister(s: Pipe): Pipe {
    var r := s.request;
    if !DeviceToHost(r) then s
    else if WIndex(r) == GET_FIRMWARE_VERSION && WValue(r) == 0 && WLength(r) == 1 then SingleTransmitEP0(s, [1])
    else StallEP0(s)
  }

  // ---------- MAINLOOP.c ----------

  function StandardRequest(s: Pipe, env: Env): Pipe {
    match RequestCode(s.request)
    case 0 => GetStatus(s, env.halted)
    case 1 => ClearFeature(s)
    case 3 => SetFeature(s)
    case 5 => SetAddress(s)
    case 6 => GetDescriptor(s, env.descriptor)
    case 8 => GetConfiguration(s)
    case 9 => SetConfiguration(s)
    case 10 => GetInterface(s)
    case 11 => SetInterface(s)
    case _ => StallEP0(s)
  }

  function VendorRequest(s: Pipe): Pipe {
    match RequestCode(s.request)
    case 0 => EnableIsoMode(s)
    case 12 => ReadWriteRegister(s)
    case _ => StallEP0(s)
  }

  function DeviceRequestHandler(s: Pipe, env: Env): Pipe {
    if RequestClass(s.request) == 0 && RequestCode(s.request) < 13 then StandardRequest(s, env)
    else if RequestClass(s.request) == 2 && RequestCode(s.request) < 15 then VendorRequest(s)
    else StallEP0(s)
  }

  // overwritten: the chip reports that a newer SETUP has already overwritten this one.
  function AcknowledgeSETUP(s: Pipe, overwritten: bool): Pipe {
    if overwritten || s.abort then s else LogOps(s, [AcknowledgeSetup])
  }

  // The read of the SETUP packet into ControlData.DeviceRequest; a short packet leaves
  // the later bytes of the previous request standing.
  function ReadSetup(s: Pipe): Pipe {
    var bytes := TakenBytes(s.fifo, 8);
    s.(abort := false, wLength := 0, wCount := 0, request := bytes + s.request[|bytes|..])
  }

  function DecodeGet(s: Pipe, overwritten: bool): Pipe {
    AcknowledgeSETUP(s, overwritten)
      .(dcp := if RequestCode(s.request) == 0 && RequestType(s.request) == 0xC0 then HANDSHAKE else REQUESTPROC)
  }

  function DecodeSet(s: Pipe, overwritten: bool): Pipe {
    var t := AcknowledgeSETUP(s, overwritten);
    if WLength(s.request) == 0 then t.(dcp := REQUESTPROC)
    else if WLength(s.request) <= MAX_CONTROLDATA_SIZE then t.(dcp := DATAOUT)
    else LogOps(t, [Stall(EP0_IN), Stall(EP0_OUT)]).(dcp := STALL)
  }

  function DecodeSetup(s: Pipe, overwritten: bool): Pipe {
    var t := s.(wLength := WLength(s.request), wCount := 0);
    if DeviceToHost(s.request) then DecodeGet(t, overwritten) else DecodeSet(t, overwritten)
  }

  function SetupTokenHandler(s: Pipe, overwritten: bool): Pipe {
    if |TakenBytes(s.fifo, 8)| == 8 then DecodeSetup(ReadSetup(s), overwritten) else StallEP0(ReadSetup(s))
  }

  // ---------- ISR.c ----------

  function ConnectUsb(s: Pipe): Pipe {
    s.(dcp := IDLE, configuration := 0, remoteWakeup := false)
  }

  function BusReset(s: Pipe): Pipe {
    ConnectUsb(s).(isDefault := true, isAddress := false, isConfigured := false)
  }

  function SetupRxDone(s: Pipe, fifo: Fifo): Pipe {
    s.(fifo := fifo, abort := s.abort || s.dcp == REQUESTPROC, dcp := SETUPPROC)
  }

  // buf with bytes stored from offset at; what would lie past the buffer is not modelled.
  function StoreAt(buf: ControlBuffer, at: nat, bytes: seq<Byte>): (r: ControlBuffer)
  {
    if at >= |buf| then buf
    else if at + |bytes| <= |buf| then Overlay(buf, at, bytes)
    else Overlay(buf, at, bytes[..|buf| - at])
  }

  function OutData(s: Pipe): Pipe {
    var bytes := TakenBytes(s.fifo, EP0_PACKET_SIZE);
    var count := Ushort(s.wCount + |bytes|);
    s.(dataBuffer := StoreAt(s.dataBuffer, s.wCount, bytes), wCount := count,
       dcp := if |bytes| != EP0_PACKET_SIZE || count >= s.wLength then REQUESTPROC else s.dcp)
  }

  // While a SETUP packet waits to be read the chip accepts no OUT data over it.
  function OutRxDone(s: Pipe, fifo: Fifo): Pipe {
    if s.dcp == SETUPPROC then s
    else if s.dcp == DATAOUT then OutData(s.(fifo := fifo))
    else if s.dcp == HANDSHAKE then s.(fifo := fifo, dcp := IDLE)
    else if s.dcp in {STALL, REQUESTPROC, DATAIN} then s.(fifo := fifo)
    else LogOps(s.(fifo := fifo), [Stall(EP0_IN), Stall(EP0_OUT)]).(dcp := STALL)
  }

  // Two's-complement reading of a 16-bit difference.
  function Short(x: int): (i: int)
    ensures -0x8000 <= i < 0x8000
  {
    var w := x % 0x1_0000;
    if w < 0x8000 then w else w - 0x1_0000
  }

  // The next packet of an IN data stage.
  function SendNext(s: Pipe): Pipe {
    var i := Short(s.wLength - s.wCount);
    if i >= EP0_PACKET_SIZE then
      LogOps(s, [Packet(Window(s.data, s.wCount, EP0_PACKET_SIZE))]).(wCount := Ushort(s.wCount + EP0_PACKET_SIZE))
    else if i != 0 then
      LogOps(s, [Packet(Window(s.data, s.wCount, Ushort(i)))]).(wCount := Ushort(s.wCount + i), dcp := HANDSHAKE)
    else HalSingleTransmit(s, []).(dcp := HANDSHAKE)
  }

  function TxDone(s: Pipe): Pipe {
    if s.dcp == DATAIN then SendNext(s)
    else if s.dcp in {IDLE, DATAOUT, REQUESTPROC, HANDSHAKE, SETUPPROC, STALL} then s
    else LogOps(s, [Stall(EP0_OUT), Stall(EP0_IN)]).(dcp := STALL)
  }

  // ---------- the steps ----------

  datatype Event =
    | Reset
    | SetupIn(fifo: Fifo)
    | OutIn(fifo: Fifo)
    | InDone
    | MainSetup(overwritten: bool)
    | MainRequest(env: Env)

  // The guard of the main loop's request branch.
  predicate Dispatches(s: Pipe) {
    s.dcp == REQUESTPROC && !s.abort
  }

  function Step(s: Pipe, e: Event): Pipe {
    match e
    case Reset => BusReset(s)
    case SetupIn(fifo) => SetupRxDone(s, fifo)
    case OutIn(fifo) => OutRxDone(s, fifo)
    case InDone => TxDone(s)
    case MainSetup(overwritten) => if s.dcp == SETUPPROC then SetupTokenHandler(s, overwritten) else s
    case MainRequest(env) => if Dispatches(s) then DeviceRequestHandler(s.(dcp := IDLE), env) else s
  }

  function Run(s: Pipe, es: seq<Event>): Pipe {
    if es == [] then s else Step(Run(s, es[..|es| - 1]), es[|es| - 1])
  }

  lemma RunSnoc(s: Pipe, es: seq<Event>, e: Event)
    ensures Run(s, es + [e]) == Step(Run(s, es), e)
  {
    assert (es + [e])[..|es|] == es;
  }

  lemma RunTwo(s: Pipe, es: seq<Event>, e: Event, f: Event)
    ensures Run(s, es + [e, f]) == Step(Step(Run(s, es), e), f)
  {
    assert es + [e, f] == es + [e] + [f];
    RunSnoc(s, es + [e], f);
    RunSnoc(s, es, e);
  }

  // One event more of a list.
  lemma RunPrefix(s: Pipe, es: seq<Event>, n: nat)
    requires n < |es|
    ensures Run(s, es[..n + 1]) == Step(Run(s, es[..n]), es[n])
  {
    assert es[..n + 1] == es[..n] + [es[n]];
    RunSnoc(s, es[..n], es[n]);
  }

  lemma {:induction false} RunAppend(s: Pipe, a: seq<Event>, b: seq<Event>)
    ensures Run(s, a + b) == Run(Run(s, a), b)
    decreases |b|
  {
    if b == [] {
      assert a + b == a;
    } else {
      var before := b[..|b| - 1];
      RunAppend(s, a, before);
      assert (a + b)[..|a + b| - 1] == a + before;
    }
  }

  // The globals after main() has set up the device; everything else is C's static zero.
  function PowerOn(): Pipe {
    Pipe(IDLE, false, [0, 0, 0, 0, 0, 0, 0, 0], 0, 0, [], seq(16, _ => 0),
         true, false, false, 0, false, 0, [0], 0, [])
  }
}
