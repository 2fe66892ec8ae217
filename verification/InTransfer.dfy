/** Multi-packet IN transfers: Chap9_BurstTransmitEP0 sends the first packet, each IN-done
    interrupt the next.  DataStages holds this against section 5.5.3 of the USB 2.0
    specification. */
module InTransfer {
  import opened Bytes
  import opened Hal
  import opened ControlPipe
  import opened ControlPipeRuns

  // ---------- what the driver makes of the data ----------

  /** A byte string cut into packets: full ones of 64 bytes, then one shorter packet,
      empty if nothing is left. */
  function Chunks(bytes: seq<Byte>): (ps: seq<seq<Byte>>)
    ensures |ps| >= 1
  {
    if |bytes| < EP0_PACKET_SIZE then [bytes]
    else [bytes[..EP0_PACKET_SIZE]] + Chunks(bytes[EP0_PACKET_SIZE..])
  }

  function Flatten(ps: seq<seq<Byte>>): seq<Byte> {
    if ps == [] then [] else ps[0] + Flatten(ps[1..])
  }

  lemma {:induction false} FlattenChunks(bytes: seq<Byte>)
    ensures Flatten(Chunks(bytes)) == bytes
  {
    if |bytes| >= EP0_PACKET_SIZE {
      FlattenChunks(bytes[EP0_PACKET_SIZE..]);
      assert Chunks(bytes)[1..] == Chunks(bytes[EP0_PACKET_SIZE..]);
    } else {
      assert Chunks(bytes)[1..] == [];
    }
  }

  // A transfer of n bytes has full packets and one more.
  predicate FullPackets(n: nat, full: nat) {
    EP0_PACKET_SIZE * full <= n < EP0_PACKET_SIZE * full + EP0_PACKET_SIZE
  }

  /** Packet k of the cut-up bytes. */
  function Piece(bytes: seq<Byte>, k: nat): (p: seq<Byte>)
    requires EP0_PACKET_SIZE * k <= |bytes|
    ensures |p| == Min(|bytes| - EP0_PACKET_SIZE * k, EP0_PACKET_SIZE)
  {
    Window(bytes, EP0_PACKET_SIZE * k, EP0_PACKET_SIZE)
  }

  lemma {:induction false} ChunkCount(bytes: seq<Byte>, full: nat)
    requires FullPackets(|bytes|, full)
    ensures |Chunks(bytes)| == full + 1
    decreases full
  {
    if full == 0 {
    } else {
      ChunkCount(bytes[EP0_PACKET_SIZE..], full - 1);
    }
  }

  // Two equally long strings with the same bytes.
  lemma Extensional(p: seq<Byte>, q: seq<Byte>)
    requires |p| == |q| && forall j :: 0 <= j < |p| ==> p[j] == q[j]
    ensures p == q
  {}

  // A piece of what follows the first packet is the next piece of the whole.
  lemma PieceShifts(bytes: seq<Byte>, k: nat)
    requires EP0_PACKET_SIZE * (k + 1) <= |bytes|
    ensures Piece(bytes[EP0_PACKET_SIZE..], k) == Piece(bytes, k + 1)
  {
    var p, q := Piece(bytes[EP0_PACKET_SIZE..], k), Piece(bytes, k + 1);
    forall j | 0 <= j < |p| ensures p[j] == q[j] {
      assert p[j] == bytes[EP0_PACKET_SIZE..][EP0_PACKET_SIZE * k + j];
    }
    Extensional(p, q);
  }

  lemma {:induction false} ChunkIs(bytes: seq<Byte>, full: nat, k: nat)
    requires FullPackets(|bytes|, full) && k <= full
    ensures |Chunks(bytes)| == full + 1 && Chunks(bytes)[k] == Piece(bytes, k)
    decreases k
  {
    ChunkCount(bytes, full);
    if k == 0 {
    } else {
      var rest := bytes[EP0_PACKET_SIZE..];
      ChunkIs(rest, full - 1, k - 1);
      assert Chunks(bytes)[k] == Chunks(rest)[k - 1];
      PieceShifts(bytes, k - 1);
    }
  }

  /** The packets among the chip operations. */
  function Packets(ops: seq<ChipOp>): seq<seq<Byte>> {
    if ops == [] then [] else
      var last := ops[|ops| - 1];
      Packets(ops[..|ops| - 1]) + if last.Packet? then [last.bytes] else []
  }

  lemma {:induction false} PacketsAppend(a: seq<ChipOp>, b: seq<ChipOp>)
    ensures Packets(a + b) == Packets(a) + Packets(b)
    decreases |b|
  {
    if b == [] {
      assert a + b == a;
    } else {
      assert (a + b)[..|a + b| - 1] == a + b[..|b| - 1];
      PacketsAppend(a, b[..|b| - 1]);
    }
  }

  // ---------- the transfer ----------

  // Events that leave a transfer in peace: all but a new SETUP and a bus reset.
  predicate Undisturbed(es: seq<Event>) {
    forall n :: 0 <= n < |es| ==> !es[n].SetupIn? && !es[n].Reset?
  }

  function InDones(es: seq<Event>): nat {
    if es == [] then 0 else InDones(es[..|es| - 1]) + if es[|es| - 1].InDone? then 1 else 0
  }

  /** How many bytes the transfer is for. */
  function TransferLength(s: Pipe, data: Blob): (n: Word) {
    Min(s.wLength, |data|)
  }

  /** The packets sent after the moment s, up to t. */
  function SentSince(s: Pipe, t: Pipe): seq<seq<Byte>>
    requires |s.log| <= |t.log|
  {
    Packets(t.log[|s.log|..])
  }

  // k packets of the transfer of data[..n] begun at s are out.
  predicate Sending(s: Pipe, data: Blob, full: nat, t: Pipe, k: nat) {
    var n := TransferLength(s, data);
    && !t.abort && |s.log| <= |t.log|
    && 1 <= k <= full + 1 == |Chunks(data[..n])|
    && SentSince(s, t) == Chunks(data[..n])[..k]
    && (k <= full ==>
          t.dcp == DATAIN && t.wLength == n && t.data == data && t.wCount == EP0_PACKET_SIZE * k)
    && (k == full + 1 ==> t.dcp in {HANDSHAKE, IDLE, STALL})
  }

  lemma SentGrows(s: Pipe, t: Pipe, u: Pipe, op: ChipOp)
    requires |s.log| <= |t.log| && u.log == t.log + [op]
    ensures SentSince(s, u) == SentSince(s, t) + if op.Packet? then [op.bytes] else []
  {
    assert u.log[|s.log|..] == t.log[|s.log|..] + [op];
    assert (t.log[|s.log|..] + [op])[..|t.log| - |s.log|] == t.log[|s.log|..];
  }

  lemma BurstSends(s: Pipe, data: Blob, full: nat)
    requires !s.abort && FullPackets(TransferLength(s, data), full)
    ensures Sending(s, data, full, BurstTransmitEP0(s, data), 1)
  {
    var m := data[..TransferLength(s, data)];
    ChunkIs(m, full, 0);
    var first := data[..Min(|m|, EP0_PACKET_SIZE)];
    assert first == Piece(m, 0);
    assert s.log[|s.log|..] == [];
    SentGrows(s, s, BurstTransmitEP0(s, data), Packet(first));
  }

  // The packet an IN-done interrupt sends while packets are missing.
  lemma NextPacket(t: Pipe, n: nat, full: nat, k: nat)
    requires t.dcp == DATAIN && t.wLength == n <= |t.data| && n <= 32831 && FullPackets(n, full)
    requires 1 <= k <= full && t.wCount == EP0_PACKET_SIZE * k
    ensures TxDone(t).log == t.log + [Packet(Piece(t.data[..n], k))]
    ensures if k < full then TxDone(t) == t.(log := TxDone(t).log, wCount := EP0_PACKET_SIZE * (k + 1))
            else TxDone(t).dcp == HANDSHAKE && TxDone(t).abort == t.abort
  {
    var left := n - EP0_PACKET_SIZE * k;
    assert Short(t.wLength - t.wCount) == left;
    assert Piece(t.data[..n], k) == Window(t.data, t.wCount, Min(left, EP0_PACKET_SIZE));
  }

  lemma PrefixGrowsBy<T>(ps: seq<T>, k: nat)
    requires k < |ps|
    ensures ps[..k] + [ps[k]] == ps[..k + 1]
  {}

  lemma InDoneSends(s: Pipe, data: Blob, full: nat, t: Pipe, k: nat)
    requires FullPackets(TransferLength(s, data), full) && TransferLength(s, data) <= 32831
    requires Sending(s, data, full, t, k) && k <= full
    ensures Sending(s, data, full, TxDone(t), k + 1)
  {
    var n := TransferLength(s, data);
    ChunkIs(data[..n], full, k);
    NextPacket(t, n, full, k);
    SentGrows(s, t, TxDone(t), Packet(Piece(data[..n], k)));
    PrefixGrowsBy(Chunks(data[..n]), k);
  }

  // Once all packets are out, and between IN-done interrupts, nothing more is sent.
  lemma OthersSendNothing(s: Pipe, data: Blob, full: nat, t: Pipe, k: nat, e: Event)
    requires Sending(s, data, full, t, k) && !e.SetupIn? && !e.Reset? && (e.InDone? ==> k == full + 1)
    ensures Sending(s, data, full, Step(t, e), k)
  {
    if e.OutIn? && t.dcp == IDLE {
      var mid := LogOps(t, [Stall(EP0_IN)]);
      SentGrows(s, t, mid, Stall(EP0_IN));
      assert t.log + [Stall(EP0_IN), Stall(EP0_OUT)] == mid.log + [Stall(EP0_OUT)];
      SentGrows(s, mid, Step(t, e), Stall(EP0_OUT));
    }
  }

  lemma {:induction false} TransferRuns(s: Pipe, data: Blob, full: nat, es: seq<Event>)
    requires !s.abort && FullPackets(TransferLength(s, data), full) && TransferLength(s, data) <= 32831
    requires Undisturbed(es)
    ensures Sending(s, data, full, Run(BurstTransmitEP0(s, data), es), Min(1 + InDones(es), full + 1))
  {
    if es == [] {
      BurstSends(s, data, full);
    } else {
      var before, e := es[..|es| - 1], es[|es| - 1];
      var t, k := Run(BurstTransmitEP0(s, data), before), Min(1 + InDones(before), full + 1);
      TransferRuns(s, data, full, before);
      if e.InDone? && k <= full {
        InDoneSends(s, data, full, t, k);
      } else {
        OthersSendNothing(s, data, full, t, k, e);
      }
    }
  }

  // At t, after so many IN-done interrupts, the packets sent are the first ones of the cut-up
  // data, and the engine is in its IN data stage exactly as long as packets are missing.
  predicate SentExactly(s: Pipe, data: Blob, t: Pipe, dones: nat) {
    var m := data[..TransferLength(s, data)];
    && |s.log| <= |t.log| && |Chunks(m)| == |m| / EP0_PACKET_SIZE + 1
    && SentSince(s, t) == Chunks(m)[..Min(1 + dones, |Chunks(m)|)]
    && (t.dcp == DATAIN <==> 1 + dones < |Chunks(m)|)
  }

  lemma SendingMeans(s: Pipe, data: Blob, full: nat, t: Pipe, dones: nat)
    requires full == TransferLength(s, data) / EP0_PACKET_SIZE
    requires Sending(s, data, full, t, Min(1 + dones, full + 1))
    ensures SentExactly(s, data, t, dones)
  {}

  /** At every moment of every undisturbed run the packets sent are the first ones of the
      cut-up data, one for the burst and one for each IN-done interrupt, until all are out;
      the engine is in its IN data stage exactly as long as packets are missing. */
  lemma InTransferExact(s: Pipe, data: Blob, es: seq<Event>)
    requires !s.abort && TransferLength(s, data) <= 32831 && Undisturbed(es)
    ensures SentExactly(s, data, Run(BurstTransmitEP0(s, data), es), InDones(es))
  {
    var full := TransferLength(s, data) / EP0_PACKET_SIZE;
    TransferRuns(s, data, full, es);
    SendingMeans(s, data, full, Run(BurstTransmitEP0(s, data), es), InDones(es));
  }

  // Full packets and one shorter one, which may be empty, together these bytes.
  predicate FullThenShort(sent: seq<seq<Byte>>, bytes: seq<Byte>) {
    && Flatten(sent) == bytes
    && |sent| == |bytes| / EP0_PACKET_SIZE + 1
    && (forall k :: 0 <= k < |sent| - 1 ==> |sent[k]| == EP0_PACKET_SIZE)
    && |sent[|sent| - 1]| < EP0_PACKET_SIZE
  }

  lemma ChunksAreFullThenShort(bytes: seq<Byte>)
    ensures FullThenShort(Chunks(bytes), bytes)
  {
    var full := |bytes| / EP0_PACKET_SIZE;
    FlattenChunks(bytes);
    ChunkCount(bytes, full);
    forall k | 0 <= k <= full ensures Chunks(bytes)[k] == Piece(bytes, k) {
      ChunkIs(bytes, full, k);
    }
  }

  // The packets sent since s are the first n bytes, n being what the transfer is for.
  predicate Delivered(s: Pipe, data: Blob, t: Pipe) {
    |s.log| <= |t.log| && FullThenShort(SentSince(s, t), data[..TransferLength(s, data)])
  }

  // After enough IN-done interrupts all packets are out.
  lemma AllPacketsOut(s: Pipe, data: Blob, t: Pipe, dones: nat)
    requires SentExactly(s, data, t, dones) && dones >= TransferLength(s, data) / EP0_PACKET_SIZE
    ensures Delivered(s, data, t)
  {
    var m := data[..TransferLength(s, data)];
    assert SentSince(s, t) == Chunks(m);
    ChunksAreFullThenShort(m);
  }

  /** A finished transfer: n / 64 + 1 packets which together are the first n bytes, all
      full but the last, which is shorter and may be empty. */
  lemma InTransferDelivers(s: Pipe, data: Blob, es: seq<Event>)
    requires !s.abort && TransferLength(s, data) <= 32831 && Undisturbed(es)
    requires InDones(es) >= TransferLength(s, data) / EP0_PACKET_SIZE
    ensures Delivered(s, data, Run(BurstTransmitEP0(s, data), es))
  {
    InTransferExact(s, data, es);
    AllPacketsOut(s, data, Run(BurstTransmitEP0(s, data), es), InDones(es));
  }

  // ---------- the limit of the signed short ----------

  /** Past 32831 bytes the count of what is left turns negative as a short: the second
      packet carries all the rest at once. */
  lemma LongTransferBreaks(s: Pipe, data: Blob)
    requires !s.abort && TransferLength(s, data) > 32831
    ensures var t := Run(BurstTransmitEP0(s, data), [InDone]);
            && |s.log| <= |t.log| && t.dcp == HANDSHAKE
            && SentSince(s, t) == [data[..EP0_PACKET_SIZE], data[EP0_PACKET_SIZE..TransferLength(s, data)]]
  {
    var n := TransferLength(s, data);
    var b := BurstTransmitEP0(s, data);
    RunSnoc(b, [], InDone);
    assert [] + [InDone] == [InDone];
    assert s.log[|s.log|..] == [];
    SentGrows(s, s, b, Packet(data[..EP0_PACKET_SIZE]));
    SentGrows(s, b, TxDone(b), Packet(data[EP0_PACKET_SIZE..n]));
  }

  predicate PacketsFit(ps: seq<seq<Byte>>) {
    forall k :: 0 <= k < |ps| ==> |ps[k]| <= EP0_PACKET_SIZE
  }

  lemma {:induction false} ChunksFit(bytes: seq<Byte>)
    ensures PacketsFit(Chunks(bytes))
  {
    if |bytes| >= EP0_PACKET_SIZE {
      ChunksFit(bytes[EP0_PACKET_SIZE..]);
    }
  }

  // All packets of every undisturbed run fit the endpoint.
  ghost predicate AlwaysFits(s: Pipe, data: Blob) {
    forall es :: Undisturbed(es) ==>
      var t := Run(BurstTransmitEP0(s, data), es);
      |s.log| <= |t.log| && PacketsFit(SentSince(s, t))
  }

  /** The endpoint's packet size is respected in all runs exactly when the transfer is for
      at most 32831 bytes. */
  lemma PacketSizeRespectedIff(s: Pipe, data: Blob)
    requires !s.abort
    ensures AlwaysFits(s, data) <==> TransferLength(s, data) <= 32831
  {
    var n := TransferLength(s, data);
    if n <= 32831 {
      forall es | Undisturbed(es)
        ensures var t := Run(BurstTransmitEP0(s, data), es); |s.log| <= |t.log| && PacketsFit(SentSince(s, t))
      {
        InTransferExact(s, data, es);
        ChunksFit(data[..n]);
      }
    } else {
      LongTransferBreaks(s, data);
      var t := Run(BurstTransmitEP0(s, data), [InDone]);
      assert Undisturbed([InDone]);
      assert |SentSince(s, t)[1]| > EP0_PACKET_SIZE;
    }
  }

  // ---------- GET_DESCRIPTOR ----------

  predicate AsksForDescriptor(r: Setup) {
    RequestClass(r) == 0 && RequestCode(r) == 6
  }

  // The first packet of a descriptor.
  function FirstPart(r: Setup, descriptor: Blob): seq<Byte> {
    descriptor[..Min(Min(WLength(r), |descriptor|), EP0_PACKET_SIZE)]
  }

  // What the dispatch of a GET_DESCRIPTOR puts on the endpoint.
  function DescriptorOps(r: Setup, descriptor: Blob): seq<ChipOp> {
    var kind, index := High(WValue(r)), Low(WValue(r));
    if kind == 1 || kind == 2 then [Packet(FirstPart(r, descriptor))]
    else if kind == 3 && index <= 5 then [Packet(FirstPart(r, descriptor)), Stall(EP0_OUT), Stall(EP0_IN)]
    else if kind == 3 then [Stall(EP0_OUT), Stall(EP0_IN), Stall(EP0_OUT), Stall(EP0_IN)]
    else [Stall(EP0_OUT), Stall(EP0_IN)]
  }

  lemma DescriptorOutcome(s: Pipe, descriptor: Blob)
    requires !s.abort && s.wLength == WLength(s.request)
    ensures GetDescriptor(s, descriptor).log == s.log + DescriptorOps(s.request, descriptor)
    ensures GetDescriptor(s, descriptor).dcp == STALL <==> High(WValue(s.request)) !in {1, 2}
  {
    var first := Packet(FirstPart(s.request, descriptor));
    assert BurstTransmitEP0(s, descriptor).log == s.log + [first];
    assert s.log + [first] + [Stall(EP0_OUT), Stall(EP0_IN)] == s.log + [first, Stall(EP0_OUT), Stall(EP0_IN)];
  }

  /** A GET_DESCRIPTOR that has become due ends in a stall exactly when it asks for neither
      the device (1) nor the configuration (2) descriptor.  A request for one of the six
      strings sends the first packet of the string and is then stalled, because the string
      case runs on into the stall; for any other string it is stalled twice. */
  lemma DescriptorStallsIff(es: seq<Event>, env: Env)
    requires Dispatches(RunFromPowerOn(es)) && AsksForDescriptor(RunFromPowerOn(es).request)
    ensures var s, t := RunFromPowerOn(es), RunFromPowerOn(es + [MainRequest(env)]);
            && t.log == s.log + DescriptorOps(s.request, env.descriptor)
            && (t.dcp == STALL <==> High(WValue(s.request)) !in {1, 2})
  {
    var s := RunFromPowerOn(es);
    RunSnoc(PowerOn(), es, MainRequest(env));
    NewestSetupWins(es);
    DescriptorOutcome(s.(dcp := IDLE), env.descriptor);
  }

  lemma DescriptorStartsBurst(s: Pipe, env: Env)
    requires AsksForDescriptor(s.request) && High(WValue(s.request)) in {1, 2}
    ensures DeviceRequestHandler(s, env) == BurstTransmitEP0(s, env.descriptor)
  {}

  // From the dispatch of a due GET_DESCRIPTOR on, the run is that of a burst.
  lemma DescriptorRuns(es: seq<Event>, env: Env, more: seq<Event>) returns (started: Pipe)
    requires Dispatches(RunFromPowerOn(es)) && AsksForDescriptor(RunFromPowerOn(es).request)
    requires High(WValue(RunFromPowerOn(es).request)) in {1, 2}
    ensures started == RunFromPowerOn(es).(dcp := IDLE) && started.wLength == WLength(started.request)
    ensures RunFromPowerOn(es + [MainRequest(env)] + more) == Run(BurstTransmitEP0(started, env.descriptor), more)
  {
    started := RunFromPowerOn(es).(dcp := IDLE);
    NewestSetupWins(es);
    assert RunFromPowerOn(es + [MainRequest(env)]) == BurstTransmitEP0(started, env.descriptor) by {
      RunSnoc(PowerOn(), es, MainRequest(env));
      DescriptorStartsBurst(started, env);
    }
    RunAppend(PowerOn(), es + [MainRequest(env)], more);
  }

  /** From SETUP to data: once a GET_DESCRIPTOR for the device or configuration descriptor
      is due, its dispatch and enough IN-done interrupts, with any other undisturbing
      events among them, send the descriptor cut to the length the host asked for. */
  lemma DescriptorDelivered(es: seq<Event>, env: Env, more: seq<Event>, n: Word)
    requires Dispatches(RunFromPowerOn(es)) && AsksForDescriptor(RunFromPowerOn(es).request)
    requires High(WValue(RunFromPowerOn(es).request)) in {1, 2}
    requires n == Min(WLength(RunFromPowerOn(es).request), |env.descriptor|) <= 32831
    requires Undisturbed(more) && InDones(more) >= n / EP0_PACKET_SIZE
    ensures var s, t := RunFromPowerOn(es), RunFromPowerOn(es + [MainRequest(env)] + more);
            |s.log| <= |t.log| && FullThenShort(SentSince(s, t), env.descriptor[..n])
  {
    var started := DescriptorRuns(es, env, more);
    InTransferDelivers(started, env.descriptor, more);
  }
}
