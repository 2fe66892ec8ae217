/** The clock-crossing bridge of DE2_115_SOPC_clock_0.v.

    A slave port on one clock and a master port on another exchange toggles: the
    slave FSM flips a request bit, the bit walks through a synchroniser and an
    edge detector, the master FSM performs one bus transaction and flips a done bit
    that walks back.  Address, byte enables, write data and read data cross through
    plain registers.

    The combinational blocks are functions, the clocked blocks are the methods of
    the class Bridge, and SlaveEdge/MasterEdge are the value functions that specify
    those methods. */
module ClockBridge {

  type Nibble = x: int | 0 <= x < 16
  type Word32 = x: int | 0 <= x < 0x1_0000_0000

  // One-hot FSM encodings.  The registers are three bits wide, so the FSMs have a
  // default arm for the other five codes.
  type StateCode = x: int | 0 <= x < 8
  const IDLE: StateCode := 1
  const READ_WAIT: StateCode := 2
  const WRITE_WAIT: StateCode := 4

  /** A synchroniser pipe (flops[0] samples the foreign clock's toggle) followed by
      the flop of the edge-to-pulse module. */
  datatype RawChain = RawChain(flops: seq<bool>, last: bool)
  type Chain = c: RawChain | |c.flops| >= 1 witness RawChain([false], false)

  function SyncOut(c: Chain): bool {
    c.flops[|c.flops| - 1]
  }

  // The pulse: the exclusive or of the synchronised bit and its delayed copy.
  predicate Token(c: Chain) {
    SyncOut(c) != c.last
  }

  function ClockChain(c: Chain, input: bool): Chain {
    RawChain([input] + c.flops[..|c.flops| - 1], SyncOut(c))
  }

  /** What the port pins carry into the bridge at a clock edge. */
  datatype SlaveIn = SlaveIn(read: bool, write: bool, address: Nibble, byteenable: Nibble, writedata: Word32)
  datatype MasterIn = MasterIn(waitrequest: bool, readdata: Word32)

  /** Registers clocked by slave_clk. */
  datatype SlaveSide = SlaveSide(
    state: StateCode, readRequest: bool, writeRequest: bool,
    readDone: Chain, writeDone: Chain,
    address: Nibble, byteenable: Nibble, writedata: Word32, readdata: Word32)

  /** Registers clocked by master_clk; readdataP1 is slave_readdata_p1. */
  datatype MasterSide = MasterSide(
    state: StateCode, read: bool, write: bool, readDone: bool, writeDone: bool,
    readRequest: Chain, writeRequest: Chain,
    address: Nibble, byteenable: Nibble, writedata: Word32, readdataP1: Word32)

  // ---------- the combinational blocks ----------

  datatype SlaveNext = SlaveNext(state: StateCode, waitrequest: bool, readRequest: bool, writeRequest: bool)

  function SlaveFsm(s: SlaveSide, read: bool, write: bool): SlaveNext {
    if s.state == IDLE then
      if read then SlaveNext(READ_WAIT, true, !s.readRequest, s.writeRequest)
      else if write then SlaveNext(WRITE_WAIT, true, s.readRequest, !s.writeRequest)
      else SlaveNext(s.state, false, s.readRequest, s.writeRequest)
    else if s.state == READ_WAIT then
      if Token(s.readDone) then SlaveNext(IDLE, false, s.readRequest, s.writeRequest)
      else SlaveNext(READ_WAIT, true, s.readRequest, s.writeRequest)
    else if s.state == WRITE_WAIT then
      if Token(s.writeDone) then SlaveNext(IDLE, false, s.readRequest, s.writeRequest)
      else SlaveNext(WRITE_WAIT, true, s.readRequest, s.writeRequest)
    else
      SlaveNext(IDLE, false, s.readRequest, s.writeRequest)
  }

  datatype MasterNext = MasterNext(state: StateCode, read: bool, write: bool, readDone: bool, writeDone: bool)

  function MasterFsm(m: MasterSide, waitrequest: bool): MasterNext {
    if m.state == IDLE then
      if Token(m.readRequest) then MasterNext(READ_WAIT, true, false, m.readDone, m.writeDone)
      else if Token(m.writeRequest) then MasterNext(WRITE_WAIT, false, true, m.readDone, m.writeDone)
      else MasterNext(m.state, false, false, m.readDone, m.writeDone)
    else if m.state == READ_WAIT then
      if !waitrequest then MasterNext(IDLE, false, false, !m.readDone, m.writeDone)
      else MasterNext(READ_WAIT, m.read, false, m.readDone, m.writeDone)
    else if m.state == WRITE_WAIT then
      if !waitrequest then MasterNext(IDLE, false, false, m.readDone, !m.writeDone)
      else MasterNext(WRITE_WAIT, false, m.write, m.readDone, m.writeDone)
    else
      MasterNext(IDLE, false, false, m.readDone, m.writeDone)
  }

  // The pin slave_waitrequest.
  predicate SlaveWait(s: SlaveSide, i: SlaveIn) {
    SlaveFsm(s, i.read, i.write).waitrequest
  }

  // ---------- one clock edge, as a value ----------

  function SlaveEdge(s: SlaveSide, m: MasterSide, i: SlaveIn): SlaveSide {
    var n := SlaveFsm(s, i.read, i.write);
    SlaveSide(n.state, n.readRequest, n.writeRequest,
              ClockChain(s.readDone, m.readDone), ClockChain(s.writeDone, m.writeDone),
              i.address, i.byteenable, i.writedata, m.readdataP1)
  }

  function MasterEdge(s: SlaveSide, m: MasterSide, i: MasterIn): MasterSide {
    var n := MasterFsm(m, i.waitrequest);
    MasterSide(n.state, n.read, n.write, n.readDone, n.writeDone,
               ClockChain(m.readRequest, s.readRequest), ClockChain(m.writeRequest, s.writeRequest),
               s.address, s.byteenable, s.writedata,
               if m.read && !i.waitrequest then i.readdata else m.readdataP1)
  }

  // A chain of d synchroniser flops in the reset state.
  function ResetChain(d: nat): Chain
    requires d >= 1
  {
    RawChain(seq(d, _ => false), false)
  }

  function ResetSlave(d: nat): SlaveSide
    requires d >= 1
  {
    SlaveSide(IDLE, false, false, ResetChain(d), ResetChain(d), 0, 0, 0, 0)
  }

  function ResetMaster(d: nat): MasterSide
    requires d >= 1
  {
    MasterSide(IDLE, false, false, false, false, ResetChain(d), ResetChain(d), 0, 0, 0, 0)
  }

  // ---------- the registers themselves ----------

  /** The always blocks sensitive to slave_clk; m stands for the wires that enter
      from the other domain. */
  class SlaveRegisters {
    var slaveState: StateCode
    var slaveReadRequest: bool
    var slaveWriteRequest: bool
    var masterReadDoneSync: Chain
    var masterWriteDoneSync: Chain
    var addressD1: Nibble
    var byteenableD1: Nibble
    var writedataD1: Word32
    var readdata: Word32

    function Value(): SlaveSide
      reads this
    {
      SlaveSide(slaveState, slaveReadRequest, slaveWriteRequest, masterReadDoneSync, masterWriteDoneSync,
                addressD1, byteenableD1, writedataD1, readdata)
    }

    constructor (depth: nat)
      requires depth >= 1
      ensures Value() == ResetSlave(depth)
    {
      slaveState, slaveReadRequest, slaveWriteRequest := IDLE, false, false;
      masterReadDoneSync, masterWriteDoneSync := ResetChain(depth), ResetChain(depth);
      addressD1, byteenableD1, writedataD1, readdata := 0, 0, 0, 0;
    }

    method Clock(i: SlaveIn, m: MasterSide)
      modifies this
      ensures Value() == SlaveEdge(old(Value()), m, i)
    {
      var next := SlaveFsm(Value(), i.read, i.write);
      slaveState, slaveReadRequest, slaveWriteRequest := next.state, next.readRequest, next.writeRequest;
      masterReadDoneSync := ClockChain(masterReadDoneSync, m.readDone);
      masterWriteDoneSync := ClockChain(masterWriteDoneSync, m.writeDone);
      addressD1, byteenableD1, writedataD1, readdata := i.address, i.byteenable, i.writedata, m.readdataP1;
    }
  }

  /** The always blocks sensitive to master_clk. */
  class MasterRegisters {
    var masterState: StateCode
    var masterRead: bool
    var masterWrite: bool
    var masterReadDone: bool
    var masterWriteDone: bool
    var slaveReadRequestSync: Chain
    var slaveWriteRequestSync: Chain
    var address: Nibble
    var byteenable: Nibble
    var writedata: Word32
    var readdataP1: Word32

    function Value(): MasterSide
      reads this
    {
      MasterSide(masterState, masterRead, masterWrite, masterReadDone, masterWriteDone,
                 slaveReadRequestSync, slaveWriteRequestSync, address, byteenable, writedata, readdataP1)
    }

    constructor (depth: nat)
      requires depth >= 1
      ensures Value() == ResetMaster(depth)
    {
      masterState, masterRead, masterWrite, masterReadDone, masterWriteDone := IDLE, false, false, false, false;
      slaveReadRequestSync, slaveWriteRequestSync := ResetChain(depth), ResetChain(depth);
      address, byteenable, writedata, readdataP1 := 0, 0, 0, 0;
    }

    method Clock(i: MasterIn, s: SlaveSide)
      modifies this
      ensures Value() == MasterEdge(s, old(Value()), i)
    {
      var fsm := MasterFsm(Value(), i.waitrequest);
      var captured := masterRead && !i.waitrequest;
      var readRequestSync := ClockChain(slaveReadRequestSync, s.readRequest);
      var writeRequestSync := ClockChain(slaveWriteRequestSync, s.writeRequest);
      masterState, masterRead, masterWrite := fsm.state, fsm.read, fsm.write;
      masterReadDone, masterWriteDone := fsm.readDone, fsm.writeDone;
      slaveReadRequestSync, slaveWriteRequestSync := readRequestSync, writeRequestSync;
      address, byteenable, writedata := s.address, s.byteenable, s.writedata;
      if captured {
        readdataP1 := i.readdata;
      }
    }
  }

  /** The top module: both domains, wired to each other.  On coincident edges each
      domain samples the other's registers as they were before the edge. */
  class Bridge {
    const slave: SlaveRegisters
    const master: MasterRegisters

    /** Both resets released together. */
    constructor (depth: nat)
      requires depth >= 1
      ensures slave.Value() == ResetSlave(depth) && master.Value() == ResetMaster(depth)
      ensures fresh(slave) && fresh(master)
    {
      slave := new SlaveRegisters(depth);
      master := new MasterRegisters(depth);
    }

    method ClockSlave(i: SlaveIn)
      modifies slave
      ensures slave.Value() == SlaveEdge(old(slave.Value()), master.Value(), i)
    {
      slave.Clock(i, master.Value());
    }

    method ClockMaster(j: MasterIn)
      modifies master
      ensures master.Value() == MasterEdge(slave.Value(), old(master.Value()), j)
    {
      master.Clock(j, slave.Value());
    }

    method ClockBoth(i: SlaveIn, j: MasterIn)
      modifies slave, master
      ensures slave.Value() == SlaveEdge(old(slave.Value()), old(master.Value()), i)
      ensures master.Value() == MasterEdge(old(slave.Value()), old(master.Value()), j)
    {
      var wires := master.Value();
      master.Clock(j, slave.Value());
      slave.Clock(i, wires);
    }
  }
}
