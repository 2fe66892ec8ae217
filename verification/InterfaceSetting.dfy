/** ALTERNATIVE_SETTING of CHAP_9.c, and what GET_INTERFACE reports of it.  The default
    setting of an interface is zero (section 9.6.5 of the USB 2.0 specification), so a host
    takes zero to be in force again after a bus reset and after a new configuration; the
    driver only ever changes the setting in SET_INTERFACE. */
module InterfaceSetting {
  import opened Bytes
  import opened Hal
  import opened ControlPipe
  import opened ControlPipeRuns
  import opened DeviceStates
  import opened Flags

  // ---------- the history of the setting ----------

  /** What a host takes an event to do to the setting. */
  datatype Mark = Selects(setting: Word) | Restores | Leaves

  function MarkOf(s: Pipe, e: Event): Mark {
    if e.Reset? then Restores
    else if Due(s, e) && Accepted(s, Step(s, e)) then
      if IsSetInterface(s.request) then Selects(WValue(s.request))
      else if IsSetConfiguration(s.request) then Restores
      else Leaves
    else Leaves
  }

  function LastMark(es: seq<Event>): Mark
    requires es != []
  {
    MarkOf(RunFromPowerOn(es[..|es| - 1]), es[|es| - 1])
  }

  /** The setting of the last accepted SET_INTERFACE, zero if there was none. */
  function Selected(es: seq<Event>): Word {
    if es == [] then 0
    else if LastMark(es).Selects? then LastMark(es).setting
    else Selected(es[..|es| - 1])
  }

  /** A bus reset or an accepted SET_CONFIGURATION has come since. */
  predicate RestoredSince(es: seq<Event>) {
    es != [] && match LastMark(es)
                case Selects(_) => false
                case Restores => true
                case Leaves => RestoredSince(es[..|es| - 1])
  }

  /** The setting a host takes to be in force. */
  function HostSetting(es: seq<Event>): Word {
    if es == [] then 0
    else
      match LastMark(es)
      case Selects(setting) => setting
      case Restores => 0
      case Leaves => HostSetting(es[..|es| - 1])
  }

  // ---------- what changes the setting ----------

  predicate SameSetting(s: Pipe, t: Pipe) {
    t.alternativeSetting == s.alternativeSetting
  }

  /** Nothing but the dispatch of SET_INTERFACE touches the setting; neither a bus reset nor
      SET_CONFIGURATION does. */
  lemma OthersKeepSetting(s: Pipe, e: Event)
    requires Due(s, e) ==> !IsSetInterface(s.request)
    ensures SameSetting(s, Step(s, e))
  {
    if e.Reset? {
      ResetFlags(s);
    } else if Due(s, e) && (IsClearFeature(s.request) || IsSetFeature(s.request)) {
      FeatureRuns(s.(dcp := IDLE), e.env);
      ClearFeatureFlags(s.(dcp := IDLE));
      SetFeatureFlags(s.(dcp := IDLE));
    } else {
      OthersKeepFlags(s, e);
    }
  }

  // SET_INTERFACE stores the setting exactly when it accepts it.
  lemma SetInterfaceSelects(s: Pipe)
    requires !s.abort
    ensures Accepted(s, SetInterface(s)) ==> SetInterface(s).alternativeSetting == WValue(s.request)
    ensures !Accepted(s, SetInterface(s)) ==> SameSetting(s, SetInterface(s))
  {}

  lemma SetInterfaceRuns(s: Pipe, env: Env)
    requires IsSetInterface(s.request)
    ensures DeviceRequestHandler(s, env) == SetInterface(s)
  {
    assert DeviceRequestHandler(s, env) == StandardRequest(s, env);
  }

  lemma MarkTells(s: Pipe, e: Event)
    ensures Step(s, e).alternativeSetting
            == if MarkOf(s, e).Selects? then MarkOf(s, e).setting else s.alternativeSetting
  {
    if Due(s, e) && IsSetInterface(s.request) {
      SetInterfaceRuns(s.(dcp := IDLE), e.env);
      SetInterfaceSelects(s.(dcp := IDLE));
    } else {
      OthersKeepSetting(s, e);
    }
  }

  // ---------- over runs ----------

  /** After every run the stored setting is the one selected last, however many resets and
      configurations have come since. */
  lemma {:induction false} SettingIsSelected(es: seq<Event>)
    ensures RunFromPowerOn(es).alternativeSetting == Selected(es)
  {
    if es == [] {
    } else {
      SettingIsSelected(es[..|es| - 1]);
      MarkTells(RunFromPowerOn(es[..|es| - 1]), es[|es| - 1]);
    }
  }

  lemma {:induction false} HostKnows(es: seq<Event>)
    ensures HostSetting(es) == if RestoredSince(es) then 0 else Selected(es)
  {
    if es == [] {
    } else {
      HostKnows(es[..|es| - 1]);
    }
  }

  /** The stored setting is not the one in force if and only if a nonzero setting was selected
      and a bus reset or a new configuration has come since. */
  lemma SettingStaleIff(es: seq<Event>)
    ensures RunFromPowerOn(es).alternativeSetting != HostSetting(es) <==> RestoredSince(es) && Selected(es) != 0
  {
    SettingIsSelected(es);
    HostKnows(es);
  }

  // The only form of GET_INTERFACE that is answered.
  predicate WellFormedGetInterface(r: Setup) {
    WValue(r) == 0 && WIndex(r) == 0 && WLength(r) == 1
  }

  lemma GetInterfaceRuns(s: Pipe, env: Env)
    requires IsGetInterface(s.request)
    ensures DeviceRequestHandler(s, env) == GetInterface(s)
  {
    assert DeviceRequestHandler(s, env) == StandardRequest(s, env);
  }

  lemma GetInterfaceSends(s: Pipe)
    ensures GetInterface(s).log == s.log + if !s.isAddress && WellFormedGetInterface(s.request)
                                           then [Packet([s.alternativeSetting])] else [Stall(EP0_OUT), Stall(EP0_IN)]
  {}

  /** A GET_INTERFACE that has become due is answered with the setting selected last, unless
      it is malformed or the device is in the address state, when it is stalled.  The answer
      is the setting in force if and only if none has been selected but zero, or neither a
      bus reset nor a new configuration has come since. */
  lemma GetInterfaceReply(es: seq<Event>, env: Env)
    requires Dispatches(RunFromPowerOn(es)) && IsGetInterface(RunFromPowerOn(es).request)
    ensures var s, t := RunFromPowerOn(es), RunFromPowerOn(es + [MainRequest(env)]);
            t.log == s.log + if !s.isAddress && WellFormedGetInterface(s.request)
                             then [Packet([s.alternativeSetting])] else [Stall(EP0_OUT), Stall(EP0_IN)]
    ensures RunFromPowerOn(es).alternativeSetting == Selected(es)
    ensures Selected(es) == HostSetting(es) <==> Selected(es) == 0 || !RestoredSince(es)
  {
    var s := RunFromPowerOn(es).(dcp := IDLE);
    RunSnoc(PowerOn(), es, MainRequest(env));
    GetInterfaceRuns(s, env);
    GetInterfaceSends(s);
    SettingIsSelected(es);
    HostKnows(es);
  }

  // ---------- a run with a stale setting ----------

  lemma SnocMark(es: seq<Event>, e: Event)
    ensures LastMark(es + [e]) == MarkOf(RunFromPowerOn(es), e)
    ensures !MarkOf(RunFromPowerOn(es), e).Selects? && RestoredSince(es) ==> RestoredSince(es + [e])
  {
    assert (es + [e])[..|es|] == es;
  }

  // The setting of one run is that of the other, and is no less restored.
  predicate Carried(es: seq<Event>, later: seq<Event>) {
    && RunFromPowerOn(later).alternativeSetting == RunFromPowerOn(es).alternativeSetting
    && (RestoredSince(es) ==> RestoredSince(later))
  }

  lemma EventCarries(es: seq<Event>, e: Event)
    requires Due(RunFromPowerOn(es), e) ==> !IsSetInterface(RunFromPowerOn(es).request)
    ensures Carried(es, es + [e])
  {
    SnocMark(es, e);
    RunSnoc(PowerOn(), es, e);
    OthersKeepSetting(RunFromPowerOn(es), e);
  }

  // A SETUP received and decoded, up to its dispatch.
  lemma SetupCarries(es: seq<Event>, r: Setup) returns (due: seq<Event>)
    requires Direct(r)
    ensures RunFromPowerOn(due).request == r && Carried(es, due) && es + Exchange(r) == due + [MainRequest(NO_ENV)]
  {
    var first := es + [SetupIn(BulkStream(r, 8))];
    due := first + [MainSetup(false)];
    EventCarries(es, SetupIn(BulkStream(r, 8)));
    EventCarries(first, MainSetup(false));
    assert due == es + [SetupIn(BulkStream(r, 8)), MainSetup(false)];
    AfterSetup(es, BulkStream(r, 8), false);
    DirectIsDue(RunFromPowerOn(es), r);
  }

  // An exchange other than SET_INTERFACE restores what was restored, and keeps the setting.
  lemma ExchangeKeepsSetting(es: seq<Event>, r: Setup)
    requires Direct(r) && !IsSetInterface(r)
    ensures Carried(es, es + Exchange(r))
  {
    var due := SetupCarries(es, r);
    EventCarries(due, MainRequest(NO_ENV));
  }

  lemma SelectsOne(es: seq<Event>, i: Setup)
    requires Direct(i) && IsSetInterface(i) && WValue(i) == 1 && WIndex(i) == 0 && !RunFromPowerOn(es).isAddress
    ensures RunFromPowerOn(es + Exchange(i)).alternativeSetting == 1
  {
    var s := ExchangeDispatches(es, i);
    SetInterfaceRuns(s.(dcp := IDLE), NO_ENV);
  }

  lemma AfterReset(es: seq<Event>)
    ensures var t := RunFromPowerOn(es + [Reset]);
            && t.isDefault && Bits(t) == 1
            && t.alternativeSetting == RunFromPowerOn(es).alternativeSetting
    ensures RestoredSince(es + [Reset])
  {
    RunSnoc(PowerOn(), es, Reset);
    SnocMark(es, Reset);
  }

  lemma PlainIsOther(r: Setup, code: Byte, value: Word)
    requires Plain(r, code, value) && code != 11
    ensures Direct(r) && !IsSetInterface(r)
  {}

  /** After any run that does not end in the address state: SET_INTERFACE(1), a bus reset and
      a new enumeration leave a configured device whose stored setting is still 1, where the
      host takes 0 to be in force. */
  lemma StaleSettingOccurs(es: seq<Event>, i: Setup, r: Setup, a: Word, q: Setup)
    requires Direct(i) && IsSetInterface(i) && WValue(i) == 1 && WIndex(i) == 0 && !RunFromPowerOn(es).isAddress
    requires Plain(r, 5, a) && 0 < a < 0x80 && Plain(q, 9, 1)
    ensures var now := es + Exchange(i) + [Reset] + Exchange(r) + Exchange(q);
            && RunFromPowerOn(now).isConfigured && RunFromPowerOn(now).alternativeSetting == 1
            && HostSetting(now) == 0
  {
    var reset := es + Exchange(i) + [Reset];
    SelectsOne(es, i);
    AfterReset(es + Exchange(i));
    RegularEnumeration(reset, r, a, q);
    PlainIsOther(r, 5, a);
    PlainIsOther(q, 9, 1);
    ExchangeKeepsSetting(reset, r);
    ExchangeKeepsSetting(reset + Exchange(r), q);
    HostKnows(reset + Exchange(r) + Exchange(q));
  }
}
