/** The remote-wakeup flag, and what GET_STATUS reports of it (section 9.4.5 of the USB 2.0
    specification). */
module RemoteWakeup {
  import opened Bytes
  import opened Hal
  import opened ControlPipe
  import opened ControlPipeRuns
  import opened DeviceStates
  import opened Replies
  import opened Flags

  /** What a host takes an event to do to remote wakeup: a bus reset disables it, an accepted
      feature request for it switches it. */
  datatype Turn = On | Off | Leaves

  function TurnOf(s: Pipe, e: Event): Turn {
    if e.Reset? then Off
    else if Due(s, e) && Accepted(s, Step(s, e)) && OfWakeup(s.request) then
      if IsSetFeature(s.request) then On else if IsClearFeature(s.request) then Off else Leaves
    else Leaves
  }

  /** Whether the last of them was a switch on. */
  predicate WakeupEnabled(es: seq<Event>) {
    es != [] && match TurnOf(RunFromPowerOn(es[..|es| - 1]), es[|es| - 1])
                case On => true
                case Off => false
                case Leaves => WakeupEnabled(es[..|es| - 1])
  }

  lemma WakeupRequestTells(s: Pipe)
    requires Entered(s) && OfWakeup(s.request)
    ensures Accepted(s, SetFeature(s)) <==> s.isAddress || WLength(s.request) == 0
    ensures Accepted(s, ClearFeature(s)) <==> WLength(s.request) == 0
  {
    SetFeatureSends(s);
    ClearFeatureSends(s);
  }

  // A due request for one of the flags.
  lemma FlagRequestTells(s: Pipe, e: Event)
    requires Due(s, e) && ChangesFlags(s.request)
    ensures Step(s, e).remoteWakeup
            == match TurnOf(s, e) case On => true case Off => false case Leaves => s.remoteWakeup
  {
    var entered := s.(dcp := IDLE);
    if IsSetInterface(s.request) {
      assert DeviceRequestHandler(entered, e.env) == StandardRequest(entered, e.env);
      SetInterfaceKeepsWakeup(entered);
    } else {
      FeatureRuns(entered, e.env);
      ClearFeatureFlags(entered);
      SetFeatureFlags(entered);
      if OfWakeup(s.request) {
        WakeupRequestTells(entered);
      }
    }
  }

  lemma TurnTells(s: Pipe, e: Event)
    ensures Step(s, e).remoteWakeup
            == match TurnOf(s, e) case On => true case Off => false case Leaves => s.remoteWakeup
  {
    if e.Reset? {
      ResetFlags(s);
    } else if Due(s, e) && ChangesFlags(s.request) {
      FlagRequestTells(s, e);
    } else {
      OthersKeepFlags(s, e);
    }
  }

  /** After every run the stored flag is what the accepted requests since the last bus reset
      say. */
  lemma {:induction false} WakeupIsHistory(es: seq<Event>)
    ensures RunFromPowerOn(es).remoteWakeup == WakeupEnabled(es)
  {
    if es == [] {
    } else {
      WakeupIsHistory(es[..|es| - 1]);
      TurnTells(RunFromPowerOn(es[..|es| - 1]), es[|es| - 1]);
    }
  }

  /** A due GET_STATUS for the device, well-formed or in the address state, is answered with
      self-powered in bit 0 and the history of remote wakeup in bit 1; for an interface,
      outside the address state, with zeros; for an endpoint with the chip's halt bit. */
  lemma GetStatusReply(es: seq<Event>, env: Env)
    requires Dispatches(RunFromPowerOn(es)) && IsStandard(RunFromPowerOn(es).request, 0)
    ensures var s, t := RunFromPowerOn(es), RunFromPowerOn(es + [MainRequest(env)]);
            var r := s.request;
            s.isAddress || (WValue(r) == 0 && WLength(r) == 2) ==>
              && (Recipient(r) == 0 ==> t.log == s.log + [Packet([1 + if WakeupEnabled(es) then 2 else 0, 0])])
              && (Recipient(r) == 1 && !s.isAddress ==> t.log == s.log + [Packet([0, 0])])
              && (Recipient(r) == 2 && (WIndex(r) == 0 || !s.isAddress) ==>
                    t.log == s.log + [Packet([if env.halted then 1 else 0, 0])])
  {
    RequestsAreAnswered(es, env);
    WakeupIsHistory(es);
  }
}
