/** The data stage of a control read, as section 5.5.3 of the USB 2.0 specification has it:
    it is over once exactly the amount asked for in the SETUP has been sent, or once a
    packet shorter than the endpoint's size has. */
module DataStages {
  import opened Bytes
  import opened Hal
  import opened ControlPipe
  import opened ControlPipeRuns
  import opened DeviceStates
  import opened InTransfer

  /** With these packets sent, a data stage in which the host asked for so many bytes is over. */
  predicate StageOver(sent: seq<seq<Byte>>, asked: Word) {
    |Flatten(sent)| == asked || (sent != [] && |sent[|sent| - 1]| < EP0_PACKET_SIZE)
  }

  /** The packets make up one data stage: it is over after the last of them, and not before. */
  predicate ExactStage(sent: seq<seq<Byte>>, asked: Word) {
    StageOver(sent, asked) && forall k :: 0 <= k < |sent| ==> !StageOver(sent[..k], asked)
  }

  // The bytes asked for are all there, in full packets only.
  predicate EndsOnFullPacket(asked: Word, available: nat) {
    asked <= available && asked % EP0_PACKET_SIZE == 0
  }

  // ---------- prefixes of the cut-up data ----------

  lemma {:induction false} FlattenSnoc(ps: seq<seq<Byte>>, p: seq<Byte>)
    ensures Flatten(ps + [p]) == Flatten(ps) + p
  {
    if ps == [] {
      assert ps + [p] == [p];
    } else {
      assert (ps + [p])[1..] == ps[1..] + [p];
      FlattenSnoc(ps[1..], p);
    }
  }

  // The first k packets, all full, hold 64 * k bytes.
  lemma {:induction false} PrefixLength(ps: seq<seq<Byte>>, k: nat)
    requires k <= |ps| && forall j :: 0 <= j < k ==> |ps[j]| == EP0_PACKET_SIZE
    ensures |Flatten(ps[..k])| == EP0_PACKET_SIZE * k
  {
    if k == 0 {
    } else {
      PrefixLength(ps, k - 1);
      assert ps[..k] == ps[..k - 1] + [ps[k - 1]];
      FlattenSnoc(ps[..k - 1], ps[k - 1]);
    }
  }

  // Before its last packet a transfer is over exactly if it has sent what was asked for.
  lemma OverBefore(sent: seq<seq<Byte>>, bytes: seq<Byte>, asked: Word, k: nat)
    requires FullThenShort(sent, bytes) && k < |sent|
    ensures |Flatten(sent[..k])| == EP0_PACKET_SIZE * k
    ensures StageOver(sent[..k], asked) <==> EP0_PACKET_SIZE * k == asked
  {
    PrefixLength(sent, k);
  }

  /** Some proper prefix of the packets already holds what was asked for: the packets after
      it are too many. */
  ghost predicate SentTooMuch(sent: seq<seq<Byte>>, asked: Word) {
    exists k :: 0 <= k < |sent| && |Flatten(sent[..k])| == asked
  }

  lemma StageIffNotFull(sent: seq<seq<Byte>>, data: Blob, asked: Word)
    requires 0 < asked && FullThenShort(sent, data[..Min(asked, |data|)])
    ensures SentTooMuch(sent, asked) <==> EndsOnFullPacket(asked, |data|)
    ensures ExactStage(sent, asked) <==> !EndsOnFullPacket(asked, |data|)
    ensures EndsOnFullPacket(asked, |data|) ==>
              var last := |sent| - 1; StageOver(sent[..last], asked) && sent[last] == []
  {
    var bytes := data[..Min(asked, |data|)];
    forall k | 0 <= k < |sent|
      ensures |Flatten(sent[..k])| == EP0_PACKET_SIZE * k
      ensures StageOver(sent[..k], asked) <==> EP0_PACKET_SIZE * k == asked
    {
      OverBefore(sent, bytes, asked, k);
    }
    if EndsOnFullPacket(asked, |data|) {
      var k := asked / EP0_PACKET_SIZE;
      assert k == |sent| - 1 && |Flatten(sent[..k])| == asked;
      assert StageOver(sent[..k], asked);
      assert sent == sent[..k] + [sent[k]];
      FlattenSnoc(sent[..k], sent[k]);
    }
  }

  // What StageIffNotFull says, of the packets sent since s.
  predicate EmptyAfterFull(s: Pipe, t: Pipe) {
    && |s.log| <= |t.log| && SentSince(s, t) != []
    && var sent := SentSince(s, t);
       StageOver(sent[..|sent| - 1], s.wLength) && sent[|sent| - 1] == []
  }

  /** A finished transfer is one data stage, no packet more and none less, if and only if the
      bytes asked for do not end on a full packet with all of them available.  If they do,
      the stage is over one packet before the end, and an empty packet follows it. */
  lemma DataStageIff(s: Pipe, data: Blob, es: seq<Event>)
    requires !s.abort && 0 < s.wLength && TransferLength(s, data) <= 32831 && Undisturbed(es)
    requires InDones(es) >= TransferLength(s, data) / EP0_PACKET_SIZE
    ensures var t := Run(BurstTransmitEP0(s, data), es);
            && |s.log| <= |t.log|
            && (SentTooMuch(SentSince(s, t), s.wLength) <==> EndsOnFullPacket(s.wLength, |data|))
            && (ExactStage(SentSince(s, t), s.wLength) <==> !EndsOnFullPacket(s.wLength, |data|))
            && (EndsOnFullPacket(s.wLength, |data|) ==> EmptyAfterFull(s, t))
  {
    InTransferDelivers(s, data, es);
    StageIffNotFull(SentSince(s, Run(BurstTransmitEP0(s, data), es)), data, s.wLength);
  }

  // ---------- GET_DESCRIPTOR ----------

  /** The same from SETUP on: the data stage of a due GET_DESCRIPTOR for the device or the
      configuration descriptor. */
  lemma DescriptorStageIff(es: seq<Event>, env: Env, more: seq<Event>, asked: Word)
    requires Dispatches(RunFromPowerOn(es)) && AsksForDescriptor(RunFromPowerOn(es).request)
    requires High(WValue(RunFromPowerOn(es).request)) in {1, 2}
    requires asked == WLength(RunFromPowerOn(es).request) > 0 && Min(asked, |env.descriptor|) <= 32831
    requires Undisturbed(more) && InDones(more) >= Min(asked, |env.descriptor|) / EP0_PACKET_SIZE
    ensures var s, t := RunFromPowerOn(es), RunFromPowerOn(es + [MainRequest(env)] + more);
            && |s.log| <= |t.log|
            && (SentTooMuch(SentSince(s, t), asked) <==> EndsOnFullPacket(asked, |env.descriptor|))
            && (ExactStage(SentSince(s, t), asked) <==> !EndsOnFullPacket(asked, |env.descriptor|))
  {
    var started := DescriptorRuns(es, env, more);
    DataStageIff(started, env.descriptor, more);
  }

  // GET_DESCRIPTOR for a descriptor type and index, asking for up to 255 bytes.
  function DescriptorRequest(kind: Byte, index: Byte, asked: Byte): (r: Setup)
    ensures WLength(r) == asked && WValue(r) == Pack(index, kind) && DeviceToHost(r)
  {
    [0x80, 6, index, kind, 0, 0, asked, 0]
  }

  lemma PackedType(kind: Byte, index: Byte)
    ensures High(Pack(index, kind)) == kind && Low(Pack(index, kind)) == index
  {}

  // What leads to the moment before its dispatch.
  function Asking(kind: Byte, index: Byte, asked: Byte): seq<Event> {
    [SetupIn(BulkStream(DescriptorRequest(kind, index, asked), 8)), MainSetup(false)]
  }

  lemma DescriptorIsDue(es: seq<Event>, kind: Byte, index: Byte, asked: Byte)
    ensures var s := RunFromPowerOn(es + Asking(kind, index, asked));
            && Dispatches(s) && AsksForDescriptor(s.request) && WLength(s.request) == asked
            && High(WValue(s.request)) == kind && Low(WValue(s.request)) == index
  {
    var r := DescriptorRequest(kind, index, asked);
    assert r[0] == 0x80 && r[1] == 6;
    DirectIsDue(RunFromPowerOn(es), r);
    AfterSetup(es, BulkStream(r, 8), false);
    PackedType(kind, index);
  }

  /** After any run a request for one of the six strings sends the first packet of the string
      and then stalls the data stage it has begun. */
  lemma StringRequestStalls(es: seq<Event>, index: Byte, asked: Byte, env: Env)
    requires index <= 5
    ensures var s := RunFromPowerOn(es + Asking(3, index, asked));
            var t := RunFromPowerOn(es + Asking(3, index, asked) + [MainRequest(env)]);
            && t.dcp == STALL
            && t.log == s.log + [Packet(FirstPart(s.request, env.descriptor)), Stall(EP0_OUT), Stall(EP0_IN)]
  {
    DescriptorIsDue(es, 3, index, asked);
    DescriptorStallsIff(es + Asking(3, index, asked), env);
  }

  /** After any run a request for 64, 128 or 192 bytes of a configuration descriptor that has
      them gets one packet too many. */
  lemma EmptyPacketOccurs(es: seq<Event>, asked: Byte, env: Env, more: seq<Event>)
    requires asked in {64, 128, 192} && |env.descriptor| >= asked
    requires Undisturbed(more) && InDones(more) >= asked / EP0_PACKET_SIZE
    ensures var s := RunFromPowerOn(es + Asking(2, 0, asked));
            var t := RunFromPowerOn(es + Asking(2, 0, asked) + [MainRequest(env)] + more);
            |s.log| <= |t.log| && SentTooMuch(SentSince(s, t), asked)
  {
    DescriptorIsDue(es, 2, 0, asked);
    DescriptorStageIff(es + Asking(2, 0, asked), env, more, asked);
  }
}
