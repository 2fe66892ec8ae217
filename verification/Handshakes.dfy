/** Around the requests: which SETUP is acknowledged to the chip, what each packet and each
    turn of the main loop does after any run, how a control read ends, and what a bus reset
    leaves of a transfer. */
module Handshakes {
  import opened Bytes
  import opened Hal
  import opened ControlPipe
  import opened ControlPipeRuns
  import opened DeviceStates
  import opened InTransfer
  import opened Replies
  import opened Answers

  // ---------- SETUP ----------

  /** What the setup branch puts on the chip for a packet of these bytes: a short one is
      refused, in the direction its first byte gives or, if it has none, the standing
      request; any other is acknowledged unless a newer one has overwritten it, and refused
      if it announces more data than there is room for. */
  function SetupOps(standing: Setup, bytes: seq<Byte>, overwritten: bool): seq<ChipOp>
    requires |bytes| <= 8
  {
    if |bytes| < 8 then Refuse(bytes + standing[|bytes|..])
    else
      var r: Setup := bytes;
      (if overwritten then [] else [AcknowledgeSetup])
      + if !DeviceToHost(r) && WLength(r) > MAX_CONTROLDATA_SIZE then REFUSE_WRITE else []
  }

  lemma DecodeSends(s: Pipe, overwritten: bool)
    requires !s.abort
    ensures var ack := if overwritten then [] else [AcknowledgeSetup];
            && DecodeGet(s, overwritten).log == s.log + ack
            && DecodeSet(s, overwritten).log
               == s.log + (ack + if WLength(s.request) > MAX_CONTROLDATA_SIZE then REFUSE_WRITE else [])
  {
    var ack: seq<ChipOp> := if overwritten then [] else [AcknowledgeSetup];
    assert AcknowledgeSETUP(s, overwritten).log == s.log + ack;
    assert s.log + ack + REFUSE_WRITE == s.log + (ack + REFUSE_WRITE);
  }

  lemma SetupBranchSends(s: Pipe, overwritten: bool)
    ensures SetupTokenHandler(s, overwritten).log == s.log + SetupOps(s.request, TakenBytes(s.fifo, 8), overwritten)
  {
    var read, bytes := ReadSetup(s), TakenBytes(s.fifo, 8);
    assert read.request == bytes + s.request[|bytes|..];
    if |bytes| == 8 {
      assert read.request == bytes;
      DecodeSends(read.(wLength := WLength(read.request), wCount := 0), overwritten);
    } else {
      StallsSend(read);
    }
  }

  /** Whenever the setup branch comes to it, after any run, the newest SETUP is answered so. */
  lemma SetupIsAnswered(es: seq<Event>, overwritten: bool)
    requires RunFromPowerOn(es).dcp == SETUPPROC
    ensures LastSetup(es).Some?
    ensures var s, t := RunFromPowerOn(es), RunFromPowerOn(es + [MainSetup(overwritten)]);
            t.log == s.log + SetupOps(s.request, TakenBytes(LastSetup(es).value, 8), overwritten)
  {
    RunsStayCurrent(es);
    RunSnoc(PowerOn(), es, MainSetup(overwritten));
    SetupBranchSends(RunFromPowerOn(es), overwritten);
  }

  /** The standing request: the bytes of each SETUP that has been read, laid over the bytes of
      those before. */
  function Standing(es: seq<Event>): Setup {
    if es == [] then [0, 0, 0, 0, 0, 0, 0, 0]
    else
      var before := es[..|es| - 1];
      if es[|es| - 1].MainSetup? && RunFromPowerOn(before).dcp == SETUPPROC && LastSetup(before).Some? then
        var bytes := TakenBytes(LastSetup(before).value, 8);
        bytes + Standing(before)[|bytes|..]
      else Standing(before)
  }

  lemma OutKeepsRequest(s: Pipe, packet: Fifo)
    ensures OutRxDone(s, packet).request == s.request
  {}

  lemma InDoneKeepsRequest(s: Pipe)
    ensures TxDone(s).request == s.request
  {}

  lemma HandlerKeepsRequest(s: Pipe, env: Env)
    requires Dispatches(s)
    ensures DeviceRequestHandler(s.(dcp := IDLE), env).request == s.request
  {
    HandlerSettles(s.(dcp := IDLE), env);
  }

  lemma SetupSetsRequest(s: Pipe, overwritten: bool)
    ensures SetupTokenHandler(s, overwritten).request == TakenBytes(s.fifo, 8) + s.request[|TakenBytes(s.fifo, 8)|..]
  {
    var read := ReadSetup(s);
    if |TakenBytes(s.fifo, 8)| == 8 {
      SetupDecodes(read, overwritten);
    } else {
      StallSettles(read);
    }
  }

  lemma StandingStep(s: Pipe, e: Event)
    ensures Step(s, e).request
            == if e.MainSetup? && s.dcp == SETUPPROC then TakenBytes(s.fifo, 8) + s.request[|TakenBytes(s.fifo, 8)|..]
               else s.request
  {
    match e
    case Reset =>
    case SetupIn(_) =>
    case OutIn(packet) => OutKeepsRequest(s, packet);
    case InDone => InDoneKeepsRequest(s);
    case MainSetup(overwritten) => SetupSetsRequest(s, overwritten);
    case MainRequest(env) =>
      if Dispatches(s) {
        HandlerKeepsRequest(s, env);
      }
  }

  /** After every run the driver's request is the standing one. */
  lemma {:induction false} RequestIsStanding(es: seq<Event>)
    ensures RunFromPowerOn(es).request == Standing(es)
  {
    if es == [] {
    } else {
      var before := es[..|es| - 1];
      RequestIsStanding(before);
      RunsStayCurrent(before);
      StandingStep(RunFromPowerOn(before), es[|es| - 1]);
    }
  }

  lemma AcknowledgedAmong(standing: Setup, bytes: seq<Byte>, overwritten: bool)
    requires |bytes| <= 8
    ensures AcknowledgeSetup in SetupOps(standing, bytes, overwritten) <==> |bytes| == 8 && !overwritten
  {
    if |bytes| == 8 && !overwritten {
      assert SetupOps(standing, bytes, overwritten)[0] == AcknowledgeSetup;
    }
  }

  /** After any run, a SETUP received and then handled is acknowledged to the chip if and only
      if it has at least eight bytes and none has overwritten it, with or without a data
      stage; and nothing is sent beside that but the refusals. */
  lemma SetupAcknowledgedIff(es: seq<Event>, packet: Fifo, overwritten: bool)
    ensures var s, t := RunFromPowerOn(es), RunFromPowerOn(es + [SetupIn(packet), MainSetup(overwritten)]);
            && t.log == s.log + SetupOps(s.request, TakenBytes(packet, 8), overwritten)
            && (AcknowledgeSetup in t.log[|s.log|..] <==> packet[0] >= 8 && !overwritten)
  {
    var s, bytes := RunFromPowerOn(es), TakenBytes(packet, 8);
    AfterSetup(es, packet, overwritten);
    SetupBranchSends(SetupRxDone(s, packet), overwritten);
    AcknowledgedAmong(s.request, bytes, overwritten);
    assert (s.log + SetupOps(s.request, bytes, overwritten))[|s.log|..] == SetupOps(s.request, bytes, overwritten);
  }

  // ---------- OUT and IN interrupts, the main loop ----------

  /** After any run: an OUT packet that nothing awaits is refused, and it alone puts anything
      on the chip; one that ends a data stage makes the request due, one that ends a transfer
      leaves the engine idle, and in the other states it changes nothing. */
  lemma OutPacketEffect(es: seq<Event>, packet: Fifo)
    ensures var s, t := RunFromPowerOn(es), RunFromPowerOn(es + [OutIn(packet)]);
            && t.log == s.log + (if s.dcp == IDLE then REFUSE_WRITE else [])
            && (t.log != s.log <==> s.dcp == IDLE)
            && t.dcp == (match s.dcp
                         case 0 => STALL
                         case 2 => REQUESTPROC
                         case 4 => IDLE
                         case _ => s.dcp)
  {
    ControlPipeInvariant(es);
    RunSnoc(PowerOn(), es, OutIn(packet));
  }

  // One packet has been put on the chip.
  predicate OnePacketMore(s: Pipe, t: Pipe) {
    |t.log| == |s.log| + 1 && t.log == s.log + [t.log[|s.log|]] && t.log[|s.log|].Packet?
  }

  lemma PacketLogged(s: Pipe, t: Pipe, bytes: seq<Byte>)
    requires t.log == s.log + [Packet(bytes)]
    ensures OnePacketMore(s, t)
  {}

  lemma SendNextEffect(s: Pipe)
    ensures SendNext(s).dcp in {s.dcp, HANDSHAKE} && OnePacketMore(s, SendNext(s))
  {
    var i := Short(s.wLength - s.wCount);
    if i >= EP0_PACKET_SIZE {
      PacketLogged(s, SendNext(s), Window(s.data, s.wCount, EP0_PACKET_SIZE));
    } else if i != 0 {
      PacketLogged(s, SendNext(s), Window(s.data, s.wCount, Ushort(i)));
    } else {
      PacketLogged(s, SendNext(s), []);
    }
  }

  /** After any run: an IN-done interrupt puts one packet on the chip in an IN data stage, and
      does nothing at all outside. */
  lemma InDoneEffect(es: seq<Event>)
    ensures var s, t := RunFromPowerOn(es), RunFromPowerOn(es + [InDone]);
            if s.dcp == DATAIN then OnePacketMore(s, t) && t.dcp in {DATAIN, HANDSHAKE} else t == s
  {
    ControlPipeInvariant(es);
    RunSnoc(PowerOn(), es, InDone);
    SendNextEffect(RunFromPowerOn(es));
  }

  /** After any run: the setup branch acts exactly on a waiting SETUP, and the request branch
      exactly on a due request. */
  lemma MainLoopActsIff(es: seq<Event>, overwritten: bool, env: Env)
    ensures RunFromPowerOn(es + [MainSetup(overwritten)]) == RunFromPowerOn(es) <==> RunFromPowerOn(es).dcp != SETUPPROC
    ensures RunFromPowerOn(es + [MainRequest(env)]) == RunFromPowerOn(es) <==> RunFromPowerOn(es).dcp != REQUESTPROC
  {
    var s := RunFromPowerOn(es);
    ControlPipeInvariant(es);
    RunSnoc(PowerOn(), es, MainSetup(overwritten));
    RunSnoc(PowerOn(), es, MainRequest(env));
    SetupBranch(s, overwritten);
    if Dispatches(s) {
      HandlerSettles(s.(dcp := IDLE), env);
    }
  }

  /** A due request has been overtaken by a newer SETUP that is not decoded yet. */
  predicate Overtaken(es: seq<Event>) {
    es != [] &&
      var before := es[..|es| - 1];
      match es[|es| - 1]
      case SetupIn(_) => Overtaken(before) || Dispatches(RunFromPowerOn(before))
      case MainSetup(_) => Overtaken(before) && RunFromPowerOn(before).dcp != SETUPPROC
      case _ => Overtaken(before)
  }

  lemma OutKeepsAbort(s: Pipe, packet: Fifo)
    ensures OutRxDone(s, packet).abort == s.abort
  {}

  lemma InDoneKeepsAbort(s: Pipe)
    ensures TxDone(s).abort == s.abort
  {}

  lemma AbortStep(s: Pipe, e: Event)
    requires Sound(s)
    ensures Step(s, e).abort
            == match e
               case SetupIn(_) => s.abort || Dispatches(s)
               case MainSetup(_) => s.abort && s.dcp != SETUPPROC
               case _ => s.abort
  {
    match e
    case Reset =>
    case SetupIn(_) =>
    case OutIn(packet) => OutKeepsAbort(s, packet);
    case InDone => InDoneKeepsAbort(s);
    case MainSetup(overwritten) => SetupBranch(s, overwritten);
    case MainRequest(env) =>
      if Dispatches(s) {
        HandlerSettles(s.(dcp := IDLE), env);
      }
  }

  /** Abort is up exactly from the SETUP that overtakes a due request to the decoding of the
      newest one. */
  lemma {:induction false} AbortIff(es: seq<Event>)
    ensures RunFromPowerOn(es).abort <==> Overtaken(es)
  {
    if es == [] {
    } else {
      AbortIff(es[..|es| - 1]);
      ControlPipeInvariant(es[..|es| - 1]);
      AbortStep(RunFromPowerOn(es[..|es| - 1]), es[|es| - 1]);
    }
  }

  // ---------- the end of a control read ----------

  lemma {:induction false} ReadGoesOn(s: Pipe, es: seq<Event>)
    requires s.dcp in {DATAIN, HANDSHAKE} && HostWaits(es)
    ensures Run(s, es).dcp in {DATAIN, HANDSHAKE}
  {
    if es == [] {
    } else {
      ReadGoesOn(s, es[..|es| - 1]);
    }
  }

  lemma WaitingIsUndisturbed(es: seq<Event>)
    requires HostWaits(es)
    ensures Undisturbed(es)
  {}

  /** A whole control read: from the moment a GET_DESCRIPTOR for the device or configuration
      descriptor is due, its dispatch and enough IN-done interrupts send the descriptor cut
      to the length asked for, and the host's OUT packet then ends the transfer: nothing is
      stalled, and the engine is idle. */
  lemma ControlReadCompletes(es: seq<Event>, env: Env, more: seq<Event>, n: Word, status: Fifo)
    requires Dispatches(RunFromPowerOn(es)) && AsksForDescriptor(RunFromPowerOn(es).request)
    requires High(WValue(RunFromPowerOn(es).request)) in {1, 2}
    requires n == Min(WLength(RunFromPowerOn(es).request), |env.descriptor|) <= 32831
    requires HostWaits(more) && InDones(more) >= n / EP0_PACKET_SIZE
    ensures var s, sent := RunFromPowerOn(es), RunFromPowerOn(es + [MainRequest(env)] + more);
            var t := RunFromPowerOn(es + [MainRequest(env)] + more + [OutIn(status)]);
            && |s.log| <= |sent.log| && FullThenShort(SentSince(s, sent), env.descriptor[..n])
            && sent.dcp == HANDSHAKE
            && t.log == sent.log && t.dcp == IDLE
  {
    WaitingIsUndisturbed(more);
    DescriptorDelivered(es, env, more, n);
    var started := DescriptorRuns(es, env, more);
    InTransferExact(started, env.descriptor, more);
    ReadGoesOn(BurstTransmitEP0(started, env.descriptor), more);
    OutPacketEffect(es + [MainRequest(env)] + more, status);
  }

  // ---------- bus reset ----------

  /** A bus reset abandons whatever transfer is under way: the engine is idle, nothing is put
      on the chip, and nothing follows until the host sends another packet. */
  lemma ResetAbandons(es: seq<Event>, more: seq<Event>)
    requires HostWaits(more)
    ensures var s, t := RunFromPowerOn(es), RunFromPowerOn(es + [Reset]);
            && t.log == s.log && t.dcp == IDLE
            && RunFromPowerOn(es + [Reset] + more) == t
  {
    RunSnoc(PowerOn(), es, Reset);
    RunAppend(PowerOn(), es + [Reset], more);
    RestStays(RunFromPowerOn(es + [Reset]), more);
  }
}
