/** The C functions of the default control pipe, on the mutable globals they share. */
module UsbDriver {
  import opened Bytes
  import opened Hal
  import opened ControlPipe
  import ControlPipeRuns

  class Driver {
    // bD13flags
    var dcpState: DcpState
    var configuration: Byte
    var remoteWakeup: bool
    // bUSBCheck_Device_State
    var defaultState: bool
    var addressState: bool
    var configurationState: bool
    // ControlData
    var abort: bool
    var request: Setup
    var wLength: Word
    var wCount: Word
    var pData: Blob
    var dataBuffer: ControlBuffer
    var alternativeSetting: Byte
    // the chip: EP0 OUT FIFO, last word written to the address register, EP0 operations
    var fifo: Fifo
    var addressRegister: Byte
    var log: seq<ChipOp>

    function Value(): Pipe
      reads this
    {
      Pipe(dcpState, abort, request, wLength, wCount, pData, dataBuffer,
           defaultState, addressState, configurationState, configuration, remoteWakeup, alternativeSetting, fifo, addressRegister, log)
    }

    constructor ()
      ensures Value() == PowerOn()
    {
      dcpState, configuration, remoteWakeup, alternativeSetting := IDLE, 0, false, 0;
      defaultState, addressState, configurationState := true, false, false;
      abort, request, wLength, wCount, pData := false, [0, 0, 0, 0, 0, 0, 0, 0], 0, 0, [];
      dataBuffer := seq(16, _ => 0);
      fifo, addressRegister, log := [0], 0, [];
    }

    // The chip operations of a Hal4D13 call.
    method Hal4D13(ops: seq<ChipOp>)
      modifies this`log
      ensures Value() == LogOps(old(Value()), ops)
    {
      log := log + ops;
    }

    method StallEP0InControlWrite()
      modifies this`log, this`dcpState
      ensures Value() == ControlPipe.StallEP0InControlWrite(old(Value()))
    {
      Hal4D13([Stall(EP0_IN), Stall(EP0_OUT)]);
      if !abort {
        dcpState := STALL;
      }
    }

    method StallEP0InControlRead()
      modifies this`log, this`dcpState
      ensures Value() == ControlPipe.StallEP0InControlRead(old(Value()))
    {
      Hal4D13([Stall(EP0_OUT), Stall(EP0_IN)]);
      if !abort {
        dcpState := STALL;
      }
    }

    method StallEP0()
      modifies this`log, this`dcpState
      ensures Value() == ControlPipe.StallEP0(old(Value()))
    {
      if DeviceToHost(request) {
        StallEP0InControlRead();
      } else {
        StallEP0InControlWrite();
      }
    }

    method HalSingleTransmitEP0(bytes: Blob)
      modifies this`log
      ensures Value() == ControlPipe.HalSingleTransmit(old(Value()), bytes)
    {
      if |bytes| <= EP0_PACKET_SIZE {
        Hal4D13([Packet(bytes)]);
      }
    }

    method SingleTransmitEP0(bytes: Blob)
      modifies this`log, this`dcpState, this`wLength, this`wCount
      ensures Value() == ControlPipe.SingleTransmitEP0(old(Value()), bytes)
    {
      HalSingleTransmitEP0(bytes);
      if !abort {
        wLength, wCount := |bytes|, |bytes|;
        dcpState := HANDSHAKE;
      }
    }

    /** The first n bytes, as the first packet of a transfer in which state next follows. */
    method FirstPacket(data: Blob, n: Word, next: DcpState)
      requires n <= |data|
      modifies this`log, this`dcpState, this`wCount
      ensures Value() == ControlPipe.FirstPacket(old(Value()), data, n, next)
    {
      Hal4D13([Packet(data[..n])]);
      if !abort {
        wCount := Ushort(wCount + n);
        dcpState := next;
      }
    }

    method BurstTransmitEP0(data: Blob)
      modifies this`log, this`dcpState, this`wLength, this`wCount, this`pData
      ensures Value() == ControlPipe.BurstTransmitEP0(old(Value()), data)
    {
      wCount := 0;
      if wLength > |data| {
        wLength := |data|;
      }
      pData := data;
      if wLength >= EP0_PACKET_SIZE {
        FirstPacket(data, EP0_PACKET_SIZE, DATAIN);
      } else {
        FirstPacket(data, wLength, HANDSHAKE);
      }
    }

    /** Hal4D13_SetAddressEnable with the address of the standing request and the enable bit. */
    method EnableAddress()
      modifies this`addressRegister
      ensures Value() == WriteAddress(old(Value()))
    {
      addressRegister := 0x80 + WValue(request) % 0x80;
    }

    /** SET_ADDRESS in the default state. */
    method AddressFromDefault()
      requires defaultState
      modifies this
      ensures Value() == ControlPipe.AddressFromDefault(old(Value()))
    {
      if WValue(request) % 0x80 != 0 {
        defaultState := false;
        EnableAddress();
        addressState := true;
        SingleTransmitEP0([]);
      } else {
        defaultState := true;
      }
    }

    /** SET_ADDRESS in the address state. */
    method AddressFromAddress()
      modifies this
      ensures Value() == ControlPipe.AddressFromAddress(old(Value()))
    {
      if WValue(request) % 0x80 == 0 {
        EnableAddress();
        defaultState := true;
        addressState := false;
        SingleTransmitEP0([]);
      } else {
        defaultState := false;
        EnableAddress();
        addressState := true;
        SingleTransmitEP0([]);
      }
    }

    /** SET_ADDRESS in any other state. */
    method AddressFromConfigured()
      modifies this
      ensures Value() == ControlPipe.AddressFromConfigured(old(Value()))
    {
      configurationState := false;
      addressState := false;
      defaultState := true;
      SingleTransmitEP0([]);
    }

    method SetAddress()
      modifies this
      ensures Value() == ControlPipe.SetAddress(old(Value()))
    {
      if !abort {
        if defaultState {
          AddressFromDefault();
        } else if addressState {
          AddressFromAddress();
        } else {
          AddressFromConfigured();
        }
      }
    }

    /** SET_CONFIGURATION(1). */
    method Configure()
      modifies this
      ensures Value() == ControlPipe.Configure(old(Value()))
    {
      configuration := 1;
      addressState := false;
      configurationState := true;
      SingleTransmitEP0([]);
    }

    /** SET_CONFIGURATION in the address state, apart from its test of wIndex and wLength. */
    method ConfigureAddressed()
      modifies this
      ensures Value() == ControlPipe.ConfigureAddressed(old(Value()))
    {
      if WValue(request) == 0 {
        configuration := 0;
        addressState := true;
        SingleTransmitEP0([]);
      } else if WValue(request) == 1 {
        Configure();
      } else {
        StallEP0InControlWrite();
      }
    }

    /** SET_CONFIGURATION in the other states. */
    method ConfigureOther()
      modifies this
      ensures Value() == ControlPipe.ConfigureOther(old(Value()))
    {
      if WValue(request) == 0 {
        configuration := 0;
        addressState := true;
        configurationState := false;
        SingleTransmitEP0([]);
      } else if WValue(request) == 1 {
        Configure();
      } else {
        StallEP0InControlWrite();
      }
    }

    method SetConfiguration()
      modifies this
      ensures Value() == ControlPipe.SetConfiguration(old(Value()))
    {
      if addressState {
        if WIndex(request) == 0 && WLength(request) == 0 {
          ConfigureAddressed();
        }
      } else {
        ConfigureOther();
      }
    }

    method GetConfiguration()
      modifies this
      ensures Value() == ControlPipe.GetConfiguration(old(Value()))
    {
      var c := configuration;
      if addressState {
        SingleTransmitEP0([0]);
      } else if WValue(request) == 0 && WIndex(request) == 0 && WLength(request) == 1 {
        SingleTransmitEP0([c]);
      }
    }

    method GetDescriptor(descriptor: Blob)
      modifies this
      ensures Value() == ControlPipe.GetDescriptor(old(Value()), descriptor)
    {
      var kind, index := High(WValue(request)), Low(WValue(request));
      if kind == 1 || kind == 2 {
        BurstTransmitEP0(descriptor);
      } else {
        if kind == 3 {
          if index <= 5 {
            BurstTransmitEP0(descriptor);
          } else {
            StallEP0InControlRead();
          }
        }
        StallEP0InControlRead();
      }
    }

    method GetStatus(halted: bool)
      modifies this
      ensures Value() == ControlPipe.GetStatus(old(Value()), halted)
    {
      var recipient := Recipient(request);
      if addressState {
        match recipient {
          case 0 =>
            SingleTransmitEP0(DeviceStatus(Value()));
          case 1 => StallEP0InControlRead();
          case 2 =>
            if WIndex(request) == 0 {
              SingleTransmitEP0(HaltStatus(halted));
            } else {
              StallEP0InControlRead();
            }
          case _ => StallEP0InControlRead();
        }
      } else if WValue(request) == 0 && WLength(request) == 2 {
        match recipient {
          case 0 =>
            SingleTransmitEP0(DeviceStatus(Value()));
          case 1 => SingleTransmitEP0([0, 0]);
          case 2 => SingleTransmitEP0(HaltStatus(halted));
          case _ => StallEP0InControlRead();
        }
      }
    }

    /** The remote-wakeup flag. */
    method EnableWakeup(enabled: bool)
      modifies this
      ensures Value() == ControlPipe.EnableWakeup(old(Value()), enabled)
    {
      remoteWakeup := enabled;
      SingleTransmitEP0([]);
    }

    /** Hal4D13_SetEndpointStatus, once or twice, and the status packet. */
    method ChangeHalt(ops: seq<ChipOp>)
      modifies this
      ensures Value() == ControlPipe.ChangeHalt(old(Value()), ops)
    {
      Hal4D13(ops);
      SingleTransmitEP0([]);
    }

    method ClearFeature()
      modifies this
      ensures Value() == ControlPipe.ClearFeature(old(Value()))
    {
      var recipient, feature := Recipient(request), WValue(request);
      if WLength(request) == 0 {
        if recipient == 0 && feature == REMOTE_WAKEUP {
          EnableWakeup(false);
        } else if recipient == 2 && feature == ENDPOINT_STALL {
          if addressState {
            if WIndex(request) == 0 {
              ChangeHalt([Unstall(EP0_OUT)]);
            } else {
              StallEP0InControlWrite();
            }
          } else {
            var ep := EndpointIndex(WIndex(request));
            ChangeHalt([Unstall(ep), Unstall(ep)]);
          }
        } else {
          StallEP0InControlWrite();
        }
      }
    }

    /** SET_FEATURE in the address state. */
    method SetFeatureAddressed()
      modifies this
      ensures Value() == ControlPipe.SetFeatureAddressed(old(Value()))
    {
      var recipient, feature := Recipient(request), WValue(request);
      var endp := 0;
      if recipient == 0 && feature == REMOTE_WAKEUP {
        EnableWakeup(true);
      } else if recipient == 2 && feature == ENDPOINT_STALL {
        if WIndex(request) == 0 {
          endp := -1;
        }
        var ep := endp + 1;
        assert ep == (if WIndex(request) == 0 then EP0_OUT else EP0_IN);
        ChangeHalt([Stall(ep)]);
      } else {
        StallEP0InControlWrite();
      }
    }

    /** SET_FEATURE in the other states. */
    method SetFeatureOther()
      modifies this
      ensures Value() == ControlPipe.SetFeatureOther(old(Value()))
    {
      var recipient, feature := Recipient(request), WValue(request);
      var endp := 0;
      if recipient == 0 && feature == REMOTE_WAKEUP {
        EnableWakeup(true);
      } else if recipient == 2 {
        if feature == ENDPOINT_STALL {
          endp := if WIndex(request) == 0 then -1 else WIndex(request) % 0x10;
          var ep := endp + 1;
          assert ep == EndpointIndex(WIndex(request));
          ChangeHalt([Stall(ep)]);
        } else {
          ChangeHalt([Unstall(EP0_IN)]);
        }
      } else {
        StallEP0InControlWrite();
      }
    }

    method SetFeature()
      modifies this
      ensures Value() == ControlPipe.SetFeature(old(Value()))
    {
      if addressState {
        SetFeatureAddressed();
      } else if WLength(request) == 0 {
        SetFeatureOther();
      }
    }

    method GetInterface()
      modifies this
      ensures Value() == ControlPipe.GetInterface(old(Value()))
    {
      var c := alternativeSetting;
      if addressState {
        StallEP0InControlRead();
      } else if WValue(request) == 0 && WIndex(request) == 0 && WLength(request) == 1 {
        SingleTransmitEP0([c]);
      } else {
        StallEP0InControlRead();
      }
    }

    method SetInterface()
      modifies this
      ensures Value() == ControlPipe.SetInterface(old(Value()))
    {
      if DeviceToHost(request) {
        StallEP0InControlRead();
      }
      if addressState {
        StallEP0InControlRead();
      } else if WValue(request) == 0 && WIndex(request) == 0 {
        alternativeSetting := 0;
        SingleTransmitEP0([]);
      } else if WValue(request) == 1 && WIndex(request) == 0 {
        alternativeSetting := 1;
        SingleTransmitEP0([]);
      } else {
        StallEP0InControlWrite();
      }
    }

    method EnableIsoMode()
      modifies this
      ensures Value() == ControlPipe.EnableIsoMode(old(Value()))
    {
      if WLength(request) == 0 {
        SingleTransmitEP0([]);
      } else {
        StallEP0();
      }
    }

    method ReadWriteRegister()
      modifies this
      ensures Value() == ControlPipe.ReadWriteRegister(old(Value()))
    {
      if DeviceToHost(request) {
        if WIndex(request) == GET_FIRMWARE_VERSION && WValue(request) == 0 && WLength(request) == 1 {
          SingleTransmitEP0([1]);
        } else {
          StallEP0();
        }
      }
    }

    method StandardRequest(env: Env)
      modifies this
      ensures Value() == ControlPipe.StandardRequest(old(Value()), env)
    {
      match RequestCode(request) {
        case 0 => GetStatus(env.halted);
        case 1 => ClearFeature();
        case 3 => SetFeature();
        case 5 => SetAddress();
        case 6 => GetDescriptor(env.descriptor);
        case 8 => GetConfiguration();
        case 9 => SetConfiguration();
        case 10 => GetInterface();
        case 11 => SetInterface();
        case _ => StallEP0();
      }
    }

    method VendorRequest()
      modifies this
      ensures Value() == ControlPipe.VendorRequest(old(Value()))
    {
      match RequestCode(request) {
        case 0 => EnableIsoMode();
        case 12 => ReadWriteRegister();
        case _ => StallEP0();
      }
    }

    method DeviceRequestHandler(env: Env)
      modifies this
      ensures Value() == ControlPipe.DeviceRequestHandler(old(Value()), env)
    {
      var kind, code := RequestClass(request), RequestCode(request);
      if kind == 0 && code < 13 {
        StandardRequest(env);
      } else if kind == 2 && code < 15 {
        VendorRequest();
      } else {
        StallEP0();
      }
    }

    method AcknowledgeSETUP(overwritten: bool)
      modifies this`log
      ensures Value() == ControlPipe.AcknowledgeSETUP(old(Value()), overwritten)
    {
      if overwritten || abort {
        return;
      }
      Hal4D13([AcknowledgeSetup]);
    }

    method ReadSetup() returns (j: Word)
      modifies this`abort, this`wLength, this`wCount, this`request
      ensures Value() == ControlPipe.ReadSetup(old(Value())) && j == |TakenBytes(old(fifo), 8)|
    {
      abort, wLength, wCount := false, 0, 0;
      var bytes := TakenBytes(fifo, 8);
      j := |bytes|;
      request := bytes + request[j..];
    }

    /** The branch of a device-to-host request. */
    method DecodeGet(overwritten: bool)
      modifies this`log, this`dcpState
      ensures Value() == ControlPipe.DecodeGet(old(Value()), overwritten)
    {
      AcknowledgeSETUP(overwritten);
      if RequestCode(request) == 0 && RequestType(request) == 0xC0 {
        dcpState := HANDSHAKE;
      } else {
        dcpState := REQUESTPROC;
      }
    }

    /** The branch of a host-to-device request, without, with and with too long a data stage. */
    method DecodeSet(overwritten: bool)
      modifies this`log, this`dcpState
      ensures Value() == ControlPipe.DecodeSet(old(Value()), overwritten)
    {
      if WLength(request) == 0 {
        AcknowledgeSETUP(overwritten);
        dcpState := REQUESTPROC;
      } else if WLength(request) <= MAX_CONTROLDATA_SIZE {
        dcpState := DATAOUT;
        AcknowledgeSETUP(overwritten);
      } else {
        AcknowledgeSETUP(overwritten);
        Hal4D13([Stall(EP0_IN), Stall(EP0_OUT)]);
        dcpState := STALL;
      }
    }

    method DecodeSetup(overwritten: bool)
      modifies this`log, this`dcpState, this`wLength, this`wCount
      ensures Value() == ControlPipe.DecodeSetup(old(Value()), overwritten)
    {
      wLength, wCount := WLength(request), 0;
      if DeviceToHost(request) {
        DecodeGet(overwritten);
      } else {
        DecodeSet(overwritten);
      }
    }

    method SetupTokenHandler(overwritten: bool)
      modifies this
      ensures Value() == ControlPipe.SetupTokenHandler(old(Value()), overwritten)
    {
      var j := ReadSetup();
      if j == 8 {
        DecodeSetup(overwritten);
      } else {
        StallEP0();
      }
    }

    /** connect_USB: the union of the event flags is cleared as a whole. */
    method ConnectUsb()
      modifies this`configuration, this`remoteWakeup, this`dcpState
      ensures Value() == ControlPipe.ConnectUsb(old(Value()))
    {
      configuration, remoteWakeup := 0, false;
      dcpState := IDLE;
    }

    method IsrBusReset()
      modifies this
      ensures Value() == ControlPipe.BusReset(old(Value()))
    {
      ConnectUsb();
      dcpState := IDLE;
      defaultState, addressState, configurationState := true, false, false;
    }

    /** A SETUP packet has landed in the FIFO. */
    method IsrSetupReceived(packet: Fifo)
      modifies this`fifo, this`abort, this`dcpState
      ensures Value() == ControlPipe.SetupRxDone(old(Value()), packet)
    {
      fifo := packet;
      if dcpState == REQUESTPROC {
        abort := true;
        dcpState := SETUPPROC;
      } else {
        dcpState := SETUPPROC;
      }
    }

    /** An OUT packet of a data stage. */
    method OutData()
      modifies this`dataBuffer, this`wCount, this`dcpState
      ensures Value() == ControlPipe.OutData(old(Value()))
    {
      var bytes := TakenBytes(fifo, EP0_PACKET_SIZE);
      dataBuffer := StoreAt(dataBuffer, wCount, bytes);
      wCount := Ushort(wCount + |bytes|);
      if |bytes| != EP0_PACKET_SIZE || wCount >= wLength {
        dcpState := REQUESTPROC;
      }
    }

    /** An OUT packet has been received. */
    method IsrOutReceived(packet: Fifo)
      modifies this`fifo, this`dataBuffer, this`wCount, this`dcpState, this`log
      ensures Value() == ControlPipe.OutRxDone(old(Value()), packet)
    {
      if dcpState == SETUPPROC {
        return;
      }
      fifo := packet;
      if dcpState == DATAOUT {
        OutData();
      } else if dcpState == HANDSHAKE {
        dcpState := IDLE;
      } else if dcpState !in {STALL, REQUESTPROC, DATAIN} {
        dcpState := STALL;
        Hal4D13([Stall(EP0_IN), Stall(EP0_OUT)]);
      }
    }

    /** The next packet of an IN data stage. */
    method SendNext()
      modifies this`log, this`wCount, this`dcpState
      ensures Value() == ControlPipe.SendNext(old(Value()))
    {
      var i := Short(wLength - wCount);
      if i >= EP0_PACKET_SIZE {
        Hal4D13([Packet(Window(pData, wCount, EP0_PACKET_SIZE))]);
        wCount := Ushort(wCount + EP0_PACKET_SIZE);
      } else if i != 0 {
        Hal4D13([Packet(Window(pData, wCount, Ushort(i)))]);
        wCount := Ushort(wCount + i);
        dcpState := HANDSHAKE;
      } else {
        dcpState := HANDSHAKE;
        HalSingleTransmitEP0([]);
      }
    }

    method IsrEp00TxDone()
      modifies this`log, this`wCount, this`dcpState
      ensures Value() == ControlPipe.TxDone(old(Value()))
    {
      if dcpState == DATAIN {
        SendNext();
      } else if dcpState !in {IDLE, DATAOUT, REQUESTPROC, HANDSHAKE, SETUPPROC, STALL} {
        dcpState := STALL;
        Hal4D13([Stall(EP0_OUT), Stall(EP0_IN)]);
      }
    }

    /** One event: an interrupt, or one branch of the main loop with its test. */
    method Handle(e: Event)
      modifies this
      ensures Value() == ControlPipe.Step(old(Value()), e)
    {
      match e {
        case Reset => IsrBusReset();
        case SetupIn(packet) => IsrSetupReceived(packet);
        case OutIn(packet) => IsrOutReceived(packet);
        case InDone => IsrEp00TxDone();
        case MainSetup(overwritten) =>
          if dcpState == SETUPPROC {
            SetupTokenHandler(overwritten);
          }
        case MainRequest(env) =>
          if dcpState == REQUESTPROC && !abort {
            dcpState := IDLE;
            DeviceRequestHandler(env);
          }
      }
    }

    /** Events one after the other, as interrupts and the polling loop take them. */
    method HandleAll(es: seq<Event>)
      modifies this
      ensures Value() == Run(old(Value()), es)
    {
      var n := 0;
      while n < |es|
        invariant 0 <= n <= |es| && Value() == Run(old(Value()), es[..n])
      {
        RunPrefix(old(Value()), es, n);
        Handle(es[n]);
        n := n + 1;
      }
      assert es[..|es|] == es;
    }
  }

  /** The driver from power-on: after any events its globals satisfy the invariant, and the
      theorems about RunFromPowerOn speak about them. */
  method PowerUp(es: seq<Event>) returns (driver: Driver)
    ensures driver.Value() == ControlPipeRuns.RunFromPowerOn(es) && ControlPipeRuns.Sound(driver.Value())
  {
    driver := new Driver();
    driver.HandleAll(es);
    ControlPipeRuns.ControlPipeInvariant(es);
  }
}
