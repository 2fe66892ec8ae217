# Bridge, control pipe, boot loader

A Dafny model of three parts of a USB device built on the DE2-115 board, with proofs of
what they are for. `dafny verify dfyconfig.toml` checks everything.

| file | models |
|---|---|
| ClockBridge.dfy | the clock-crossing bridge: combinational blocks as functions, clocked blocks as methods of register classes |
| ClockBridgeRuns.dfy | all runs of the bridge over two unrelated clocks |
| Bytes.dfy | unsigned machine integers |
| Hal.dfy | the loops that move byte buffers through the 16-bit FIFO port of the ISP1362 |
| ControlPipe.dfy | the USB default-control-pipe engine as a function from state and event to state |
| UsbDriver.dfy | the driver's C functions as methods on the globals they share, each proved to do what ControlPipe says |
| ControlPipeRuns.dfy, InTransfer.dfy, DataStages.dfy, DeviceStates.dfy, Flags.dfy, InterfaceSetting.dfy, RemoteWakeup.dfy | all runs of that engine, as state |
| Answers.dfy, Replies.dfy, Handshakes.dfy, Knowledge.dfy | all runs of that engine, as a host sees them: what is answered, with what, and why |
| BootLoader.dfy | the S-record boot loader, as methods with the C counters and as functions on lines and memory |
| BootImages.dfy, BootStart.dfy | an encoder for S3 records, what loading its lines does, and whole load sessions |

## What is assumed

**Bridge.** A run is any list of slave edges, master edges and coincident edges; nothing
relates the two clocks. The synchroniser module is not part of the repository; it is a
shift register of any depth d >= 1 (the design sets 2). Both resets are released together,
before the run. Whoever drives the slave port holds its pins while waitrequest is high. Read
and write may be asserted together, which counts as a read. The wait input at the master port
is unconstrained. The bridge is proved to hold its own pins in the same way.

**Control pipe.** One interrupt routine body, and one main-loop branch with its test, is one
atomic step. This is an abstraction: the loop tests before it disables interrupts, and the
disable flag does not nest. Interrupts and main-loop turns come in any order and number.
While a SETUP packet waits to be read the chip accepts no OUT data over it. A FIFO hands out
a length word and then enough data words. Endpoint 0 is seen at packet level; `Hal.FifoRoundTrip`
and `Hal.PacketDelivered` connect packets to the words on the bus. Descriptor contents,
and the halt bit the chip reports to GET_STATUS, are parameters. An OUT packet of more than
16 bytes overruns the data buffer (see below); what lies behind the buffer is not modelled,
and after such a packet the theorems about runs speak of a store that ends where the buffer
does.

**FIFO.** The three readers contain the same loop, so it is modelled once. WriteEndpoint and
WriteBulkEndpoint read one byte past an odd-length buffer, so that byte must be readable.
Loop counters are 16 bits wide.

**Boot loader.** Lines fit the buffer of 80 characters, are not a lone S (whose type would be
left over from an earlier line), and as data records have at least 13 characters. With shorter
data records the C code never ends in data memory and reads far behind the line in code memory
(`RunsAwayIff`, `CodeLoopOverreadsIff`). Characters that are no uppercase hexadecimal digit
decode as zero, as in the code. Memory is one map with byte cells for data and 16-bit cells
for code. The 8-bit counters are subset types, so the proofs include that they never wrap.

## What the proofs found

- A SETUP is refused for its size if and only if it has fewer than eight bytes; a longer one
  is cut to eight and handled (`ShortSetupStalls`).
- Requests for a string descriptor send its first packet and then stall, because the string
  case runs on into the stall (`DescriptorStallsIff`, `StringRequestStalls`).
- An IN data stage ends as section 5.5.3 of USB 2.0 wants if and only if the bytes asked for
  do not end on a full packet with all of them available; if they do, an empty packet follows
  a stage that is already over (`DataStageIff`, `DescriptorStageIff`, `EmptyPacketOccurs`).
- An OUT packet of a data stage overruns the 16-byte data buffer if and only if it has more
  than 16 bytes, even if only one was announced (`OverrunIff`, `NeverOverrunsIff`,
  `OverrunOccurs`).
- Packets respect the endpoint's size if and only if a transfer is for at most 32831 bytes
  (`PacketSizeRespectedIff`, `LongTransferBreaks`).
- The device is in exactly one state of section 9.1.1 of USB 2.0 if and only if no
  SET_CONFIGURATION is accepted in the default state (`OneBitIff`), and device and host agree
  on state, configuration and address if and only if there is also no SET_ADDRESS to a
  configured device (`AgreementIff`). `OpenRequestsOccur` gives the runs that break both.
- The alternative setting survives bus resets and new configurations: GET_INTERFACE reports
  the setting selected last, which is not the one in force if and only if it is nonzero and
  one of the two has come since (`SettingStaleIff`, `GetInterfaceReply`, `StaleSettingOccurs`).
- SET_FEATURE(ENDPOINT_HALT) reaches the endpoint it names if and only if that is endpoint 0
  without stray bits, endpoint 0 IN, or another endpoint outside the address state
  (`HaltTargetIff`).
- A dispatched request is left without any answer, packet or stall, if and only if it is one
  of these (`SilentIff`, `UnansweredIff`, `SilentRequestsOccur`), and then it stays so
  (`SilenceLasts`):
  GET_STATUS outside the address state with wValue other than 0 or wLength other than 2;
  CLEAR_FEATURE with a nonzero wLength; SET_FEATURE outside the address state with a nonzero
  wLength; SET_ADDRESS(0) in the default state; GET_CONFIGURATION outside the address state
  with wValue, wIndex, wLength other than 0, 0, 1; SET_CONFIGURATION in the address state with
  a nonzero wIndex or wLength; any write to the vendor's registers. The
  request with type 0xC0 and code 0 is never even dispatched.
- WriteEndpoint and WriteBulkEndpoint differ for odd lengths: the former sends one word more,
  and its last data word lacks the neighbouring byte (`WritersAgree`). With length 65535
  both would loop forever (`CounterReaches`).
- Hal4D13_ReadEndpointWOClearBuffer clears the buffer, whatever its name says.
- S-record order is irrelevant if and only if no two records disagree about a cell, and then
  so is repetition (`OrderIrrelevantIff`); disjointness is more than is needed.
- An S3 line of at most 12 characters never ends in data memory (`RunsAwayIff`); in code memory
  it ends after reading behind the line (`CodeLoopOverreadsIff`).

## Model

| member | source | states |
|---|---|---|
| `ClockBridgeRuns.RefinesAtomicBus` | DE2_115_NIOS_DEVICE_LED/DE2_115_SOPC_clock_0.v:118-187 | in every reachable state, for every interleaving of the clocks, coincident edges included, every depth d >= 1 and every wait pattern: the requests accepted at the master port are a prefix of those started at the slave port, at most one behind; the answers handed back, read data included, are a prefix of the answers accepted; at most one request is open |
| `ClockBridgeRuns.MasterPinsShowRequest` | DE2_115_NIOS_DEVICE_LED/DE2_115_SOPC_clock_0.v:630-699 | while the master port asserts read or write (never both), address, byte enables and write data on its pins are those of the one started and not yet accepted request |
| `ClockBridgeRuns.MasterPinsHold` | DE2_115_NIOS_DEVICE_LED/DE2_115_SOPC_clock_0.v:280-353 | no edge changes the master port's pins before the request on them is accepted: the bridge keeps on one side the rule it relies on at the other |
| `ClockBridgeRuns.ReadDataReturns` | DE2_115_NIOS_DEVICE_LED/DE2_115_SOPC_clock_0.v:612-627 | in the cycle slave_waitrequest drops for a read, slave_readdata is the data sampled at the master edge that accepted this very read |
| `ClockBridgeRuns.OneToggleInFlight` | DE2_115_NIOS_DEVICE_LED/DE2_115_SOPC_clock_0.v:497-599 | the four toggle wires (toggle register, synchroniser flops, edge flop) carry at most one value change together; none when the slave FSM is idle, and then the master FSM is idle too, and none while the master FSM is busy; both FSMs stay on their one-hot codes, so their default arms are dead |
| `ClockBridgeRuns.PulsesAreAwaited` | DE2_115_NIOS_DEVICE_LED/DE2_115_SOPC_clock_0.v:21-50 | an edge pulse reaches only an FSM that waits for it, and never two at once |
| `ClockBridgeRuns.AcceptedInTime` | DE2_115_NIOS_DEVICE_LED/DE2_115_SOPC_clock_0.v:280-353 | d + 2 master edges beyond the stalled ones get any open request accepted, from any reachable state |
| `ClockBridgeRuns.AcceptanceLatency` | DE2_115_NIOS_DEVICE_LED/DE2_115_SOPC_clock_0.v:549-599 | the exact moment for every wait pattern: a request has been accepted if and only if some unstalled master edge is number d + 2 or later after its toggle; stalled edges before that cost nothing; without stalls it is edge d + 2 |
| `ClockBridgeRuns.CompletedInTime` | DE2_115_NIOS_DEVICE_LED/DE2_115_SOPC_clock_0.v:497-533 | once accepted, d + 1 slave edges hand the answer back |
| `ClockBridgeRuns.CompletionLatency` | DE2_115_NIOS_DEVICE_LED/DE2_115_SOPC_clock_0.v:517-533 | exact again: the answer is handed back precisely at slave edge d + 1 after acceptance |
| `ClockBridgeRuns.EveryRequestCompletes` | DE2_115_NIOS_DEVICE_LED/DE2_115_SOPC_clock_0.v:118-187 | the two bounds together: no started request is lost or stuck |
| `ClockBridgeRuns.StepKeeps` | DE2_115_NIOS_DEVICE_LED/DE2_115_SOPC_clock_0.v:280-353 | one clock edge keeps the protocol invariant, with the phase of the open request moving on as the two clocks tick |
| `ClockBridgeRuns.RunKeeps` | DE2_115_NIOS_DEVICE_LED/DE2_115_SOPC_clock_0.v:118-187 | every legal list of clock edges keeps the protocol invariant |
| `ClockBridgeRuns.WalkClock` | DE2_115_NIOS_DEVICE_LED/DE2_115_SOPC_clock_0.v:39-48 | a toggle walks one flop per clock through synchroniser and edge flop and then stands still |
| `ClockBridgeRuns.ChainsPulse` | DE2_115_NIOS_DEVICE_LED/DE2_115_SOPC_clock_0.v:517-533 | each edge detector fires exactly when the toggle has reached the end of its own chain |
| `ClockBridgeRuns.WhatHappens` | DE2_115_NIOS_DEVICE_LED/DE2_115_SOPC_clock_0.v:118-187 | start, acceptance and completion, as seen on the pins, occur in exactly one phase of the protocol each |
| `ClockBridgeRuns.AcceptanceRank` | DE2_115_NIOS_DEVICE_LED/DE2_115_SOPC_clock_0.v:280-353 | from any phase on the way to acceptance, the request is accepted exactly at the first unstalled master edge that is not too early for that phase |
| `ClockBridgeRuns.CompletionRank` | DE2_115_NIOS_DEVICE_LED/DE2_115_SOPC_clock_0.v:118-187 | the slave FSM is done exactly when the remaining slave edges have passed |
| `ClockBridge.SlaveRegisters.Clock` | DE2_115_NIOS_DEVICE_LED/DE2_115_SOPC_clock_0.v:91-115 | the always blocks on slave_clk: all nine register groups after one edge, as a function of the registers, the port inputs and the wires from the other domain |
| `ClockBridge.MasterRegisters.Clock` | DE2_115_NIOS_DEVICE_LED/DE2_115_SOPC_clock_0.v:235-277 | the always blocks on master_clk, likewise; readdata is captured only on an accepted read |
| `ClockBridge.Bridge.ClockSlave` | DE2_115_NIOS_DEVICE_LED/DE2_115_SOPC_clock_0.v:535-547 | a slave edge alone leaves the master domain unchanged |
| `ClockBridge.Bridge.ClockMaster` | DE2_115_NIOS_DEVICE_LED/DE2_115_SOPC_clock_0.v:587-599 | a master edge alone leaves the slave domain unchanged |
| `ClockBridge.Bridge.ClockBoth` | DE2_115_NIOS_DEVICE_LED/DE2_115_SOPC_clock_0.v:417-417 | on coincident edges each domain samples the other's registers as they were before the edge |
| `ControlPipeRuns.ControlPipeInvariant` | DE2_115_NIOS_DEVICE_LED/software/DE2_115_NIOS_DEVICE_LED/ISR.c:141-237 | over every run from power-on: seven of the sixteen state codes occur; Abort implies SETUPPROC, IDLE or STALL; DATAOUT has count 0 and 1 to 16 bytes to come; DATAIN has sent a positive multiple of 64 bytes, not more than asked for and not more than there are |
| `ControlPipeRuns.StepKeepsSound` | DE2_115_NIOS_DEVICE_LED/software/DE2_115_NIOS_DEVICE_LED/DE2_70_NIOS_DEVICE_LED.c:105-117 | each interrupt and each main-loop branch keeps that invariant |
| `ControlPipeRuns.TxDoneErrorIsDead` | DE2_115_NIOS_DEVICE_LED/software/DE2_115_NIOS_DEVICE_LED/ISR.c:231-236 | after any run the IN-done interrupt stalls nothing: its default arm is dead |
| `ControlPipeRuns.AbortNeverReachesHandlers` | DE2_115_NIOS_DEVICE_LED/software/DE2_115_NIOS_DEVICE_LED/DE2_70_NIOS_DEVICE_LED.c:111-116 | Abort is never up in REQUESTPROC, HANDSHAKE or a data stage, so the main loop's second test never withholds a request |
| `ControlPipeRuns.AtMostOneDispatchPerSetup` | DE2_115_NIOS_DEVICE_LED/software/DE2_115_NIOS_DEVICE_LED/DE2_70_NIOS_DEVICE_LED.c:111-117 | no SETUP is handled twice |
| `ControlPipeRuns.RunsStayCurrent` | DE2_115_NIOS_DEVICE_LED/software/DE2_115_NIOS_DEVICE_LED/ISR.c:147-156 | the engine's state agrees at every moment with the history of events: which SETUP is standing, whether it was handled, what its data packet held |
| `ControlPipeRuns.SetupDecodesEndToEnd` | DE2_115_NIOS_DEVICE_LED/software/DE2_115_NIOS_DEVICE_LED/MAINLOOP.c:150-229 | after any run, the eight bytes of a SETUP packet, as FIFO words, become the fields of section 9.3 of USB 2.0; the next state is decided by direction, wLength and the 0xC0/0 exception, in both directions |
| `ControlPipeRuns.ShortSetupStalls` | DE2_115_NIOS_DEVICE_LED/software/DE2_115_NIOS_DEVICE_LED/MAINLOOP.c:162-238 | a SETUP of fewer than eight bytes stalls with wLength 0; a longer one is cut to eight bytes and decoded |
| `ControlPipeRuns.SetupOutcome` | DE2_115_NIOS_DEVICE_LED/software/DE2_115_NIOS_DEVICE_LED/MAINLOOP.c:162-230 | from any state: the packet's size and fields determine the state after the setup branch, each state with its exact condition |
| `InTransfer.InTransferExact` | DE2_115_NIOS_DEVICE_LED/software/DE2_115_NIOS_DEVICE_LED/ISR.c:207-225 | at every moment of every run without SETUP or bus reset, the packets sent are the first of the data cut into 64-byte packets plus a shorter last one: one for the burst, one for each IN-done interrupt; the state is DATAIN exactly while packets are missing |
| `InTransfer.InTransferDelivers` | DE2_115_NIOS_DEVICE_LED/software/DE2_115_NIOS_DEVICE_LED/CHAP_9.c:1037-1071 | a finished transfer is n / 64 + 1 packets, all full but the last, which is shorter and may be empty, and together the first n = min(wLength, len) bytes, for n <= 32831 |
| `InTransfer.LongTransferBreaks` | DE2_115_NIOS_DEVICE_LED/software/DE2_115_NIOS_DEVICE_LED/ISR.c:198-219 | beyond 32831 bytes the signed short turns negative and the second packet carries all the rest |
| `InTransfer.PacketSizeRespectedIff` | DE2_115_NIOS_DEVICE_LED/software/DE2_115_NIOS_DEVICE_LED/ISR.c:196-225 | no packet of any run exceeds 64 bytes if and only if the transfer is for at most 32831 bytes |
| `InTransfer.TransferRuns` | DE2_115_NIOS_DEVICE_LED/software/DE2_115_NIOS_DEVICE_LED/ISR.c:207-225 | packets sent, byte count, remaining length and state after any undisturbed events |
| `InTransfer.NextPacket` | DE2_115_NIOS_DEVICE_LED/software/DE2_115_NIOS_DEVICE_LED/ISR.c:208-219 | one IN-done interrupt sends exactly the next piece and moves the count, or ends the transfer |
| `InTransfer.BurstSends` | DE2_115_NIOS_DEVICE_LED/software/DE2_115_NIOS_DEVICE_LED/CHAP_9.c:1037-1071 | the burst sends the first piece and starts the transfer |
| `InTransfer.FlattenChunks` | DE2_115_NIOS_DEVICE_LED/software/DE2_115_NIOS_DEVICE_LED/CHAP_9.c:1037-1071 | cutting into packets loses and adds no byte |
| `InTransfer.DescriptorDelivered` | DE2_115_NIOS_DEVICE_LED/software/DE2_115_NIOS_DEVICE_LED/CHAP_9.c:789-807 | from any run in which such a request has become due: its dispatch and enough IN-done interrupts send the descriptor, cut to the length in the SETUP packet |
| `DeviceStates.OthersKeepDevice` | DE2_115_NIOS_DEVICE_LED/software/DE2_115_NIOS_DEVICE_LED/ISR.c:141-237 | nothing but bus reset, SET_ADDRESS and SET_CONFIGURATION touches the state bits, the configuration or the chip's address |
| `DeviceStates.SomeBitAlways` | DE2_115_NIOS_DEVICE_LED/software/DE2_115_NIOS_DEVICE_LED/CHAP_9.c:706-772 | one of the three device-state bits is always set |
| `DeviceStates.OneBitIff` | DE2_115_NIOS_DEVICE_LED/software/DE2_115_NIOS_DEVICE_LED/CHAP_9.c:893-915 | exactly one bit is set all through a run if and only if the run accepts no SET_CONFIGURATION in the default state |
| `DeviceStates.BitsStep` | DE2_115_NIOS_DEVICE_LED/software/DE2_115_NIOS_DEVICE_LED/CHAP_9.c:865-917 | from one bit, a step keeps one bit if and only if it is not that request |
| `DeviceStates.AgreementIff` | DE2_115_NIOS_DEVICE_LED/software/DE2_115_NIOS_DEVICE_LED/CHAP_9.c:706-917 | state bits, stored configuration and chip address agree with the record of a host that watches acknowledgements, all through a run, if and only if the run contains neither of the two requests that sections 9.4.6 and 9.4.7 of USB 2.0 leave open |
| `DeviceStates.AgreementStep` | DE2_115_NIOS_DEVICE_LED/software/DE2_115_NIOS_DEVICE_LED/CHAP_9.c:706-917 | from agreement, one step keeps agreement if and only if it is not one of those two requests |
| `DeviceStates.SetAddressAgrees` | DE2_115_NIOS_DEVICE_LED/software/DE2_115_NIOS_DEVICE_LED/CHAP_9.c:706-772 | SET_ADDRESS and the host's record move together if and only if the device is not configured |
| `DeviceStates.SetConfigurationAgrees` | DE2_115_NIOS_DEVICE_LED/software/DE2_115_NIOS_DEVICE_LED/CHAP_9.c:865-917 | SET_CONFIGURATION and the host's record move together if and only if the device is not in the default state or the value is neither 0 nor 1 |
| `DeviceStates.ConfigurationAndAddressAgree` | DE2_115_NIOS_DEVICE_LED/software/DE2_115_NIOS_DEVICE_LED/HAL4D13.c:73-81 | in such runs: configuration 1 if and only if configured; a nonzero address with the enable bit in the chip whenever addressed or configured |
| `DeviceStates.GetConfigurationReply` | DE2_115_NIOS_DEVICE_LED/software/DE2_115_NIOS_DEVICE_LED/CHAP_9.c:843-863 | in such runs GET_CONFIGURATION is answered with the last acknowledged configuration, 0 after reset; a malformed request is answered in the address state and met with silence in the others |
| `DeviceStates.RegularEnumeration` | DE2_115_NIOS_DEVICE_LED/software/DE2_115_NIOS_DEVICE_LED/CHAP_9.c:716-726 | address, then configuration 1, leads from the default state to configured at that address, with one bit set |
| `DeviceStates.EarlyConfigurationSetsTwoBits` | DE2_115_NIOS_DEVICE_LED/software/DE2_115_NIOS_DEVICE_LED/CHAP_9.c:905-912 | SET_CONFIGURATION(1) in the default state leaves two bits set |
| `DeviceStates.LateAddressKeepsConfiguration` | DE2_115_NIOS_DEVICE_LED/software/DE2_115_NIOS_DEVICE_LED/CHAP_9.c:756-764 | SET_ADDRESS to a configured device leads to the default state with configuration still 1 |
| `DeviceStates.OpenRequestsOccur` | DE2_115_NIOS_DEVICE_LED/software/DE2_115_NIOS_DEVICE_LED/CHAP_9.c:706-917 | concrete runs from power-on in which both happen |
| `UsbDriver.Driver.BurstTransmitEP0` | DE2_115_NIOS_DEVICE_LED/software/DE2_115_NIOS_DEVICE_LED/CHAP_9.c:1037-1071 | the first packet and the globals of a multi-packet transfer, whose meaning is InTransferDelivers |
| `UsbDriver.Driver.SetAddress` | DE2_115_NIOS_DEVICE_LED/software/DE2_115_NIOS_DEVICE_LED/CHAP_9.c:706-772 | all state-bit, address and status effects of SET_ADDRESS in each device state |
| `UsbDriver.Driver.SetConfiguration` | DE2_115_NIOS_DEVICE_LED/software/DE2_115_NIOS_DEVICE_LED/CHAP_9.c:865-917 | all state-bit, configuration, status and stall effects of SET_CONFIGURATION |
| `UsbDriver.Driver.GetConfiguration` | DE2_115_NIOS_DEVICE_LED/software/DE2_115_NIOS_DEVICE_LED/CHAP_9.c:843-863 | reply or silence, and no change of device state |
| `UsbDriver.Driver.GetDescriptor` | DE2_115_NIOS_DEVICE_LED/software/DE2_115_NIOS_DEVICE_LED/CHAP_9.c:775-841 | burst, burst then stall, or stall, by descriptor type and string index |
| `UsbDriver.Driver.DeviceRequestHandler` | DE2_115_NIOS_DEVICE_LED/software/DE2_115_NIOS_DEVICE_LED/MAINLOOP.c:244-267 | dispatch through the request tables, reserved entries stalling |
| `UsbDriver.Driver.SetupTokenHandler` | DE2_115_NIOS_DEVICE_LED/software/DE2_115_NIOS_DEVICE_LED/MAINLOOP.c:140-241 | read, then decode or stall |
| `UsbDriver.Driver.IsrBusReset` | DE2_115_NIOS_DEVICE_LED/software/DE2_115_NIOS_DEVICE_LED/ISR.c:91-103 | default state, configuration 0, idle; Abort and the standing request are left |
| `UsbDriver.Driver.IsrSetupReceived` | DE2_115_NIOS_DEVICE_LED/software/DE2_115_NIOS_DEVICE_LED/ISR.c:147-156 | state SETUPPROC; Abort raised if a request was due |
| `UsbDriver.Driver.IsrOutReceived` | DE2_115_NIOS_DEVICE_LED/software/DE2_115_NIOS_DEVICE_LED/ISR.c:157-192 | an OUT packet in each state; the store of a data packet ends at the end of the 16-byte buffer |
| `UsbDriver.Driver.IsrEp00TxDone` | DE2_115_NIOS_DEVICE_LED/software/DE2_115_NIOS_DEVICE_LED/ISR.c:196-237 | the IN-done interrupt in each state, with the signed-short remainder |
| `UsbDriver.Driver.Handle` | DE2_115_NIOS_DEVICE_LED/software/DE2_115_NIOS_DEVICE_LED/DE2_70_NIOS_DEVICE_LED.c:105-117 | one event: an interrupt, or a main-loop branch with its test |
| `Hal.FifoRoundTrip` | DE2_115_NIOS_DEVICE_LED/software/DE2_115_NIOS_DEVICE_LED/HAL4D13.c:112-246 | for every buffer, length and reader capacity, what either writer writes is read back as the first min(len, cap) bytes |
| `Hal.PacketDelivered` | DE2_115_NIOS_DEVICE_LED/software/DE2_115_NIOS_DEVICE_LED/HAL4D13.c:197-246 | the chip takes exactly the caller's bytes as the packet from either stream, extra words or not |
| `Hal.WritersAgree` | DE2_115_NIOS_DEVICE_LED/software/DE2_115_NIOS_DEVICE_LED/HAL4D13.c:197-246 | even lengths: the same stream; odd lengths: the same words up to the last byte, where WriteEndpoint sends one word more; its words before the extra one equal WriteBulkEndpoint's exactly when the byte after the data is zero |
| `Hal.CounterReaches` | DE2_115_NIOS_DEVICE_LED/software/DE2_115_NIOS_DEVICE_LED/HAL4D13.c:207-217 | the USHORT counter of the write loops reaches the length if and only if it is at most 65534; for 65535 the loop never ends |
| `Hal.CounterIsEven` | DE2_115_NIOS_DEVICE_LED/software/DE2_115_NIOS_DEVICE_LED/HAL4D13.c:234-241 | the counter stays even, wraps to zero after 32768 rounds and counts rounds before that |
| `Hal.UnpackPacked` | DE2_115_NIOS_DEVICE_LED/software/DE2_115_NIOS_DEVICE_LED/HAL4D13.c:207-217 | unpacking the packed words gives the bytes back |
| `Hal.BulkBytes` | DE2_115_NIOS_DEVICE_LED/software/DE2_115_NIOS_DEVICE_LED/HAL4D13.c:227-246 | the bytes in WriteBulkEndpoint's stream are the caller's |
| `Hal.EndpointBytes` | DE2_115_NIOS_DEVICE_LED/software/DE2_115_NIOS_DEVICE_LED/HAL4D13.c:197-225 | the bytes in WriteEndpoint's stream are the caller's, the doubled last byte included |
| `Hal.SetAddressEnable` | DE2_115_NIOS_DEVICE_LED/software/DE2_115_NIOS_DEVICE_LED/HAL4D13.c:73-81 | one command with one word: the seven address bits and the enable bit as asked |
| `Hal.ReadLoop` | DE2_115_NIOS_DEVICE_LED/software/DE2_115_NIOS_DEVICE_LED/HAL4D13.c:120-132 | the readers' shared loop: j bytes land in the buffer, everything else in it stays, ceil(j / 2) words are taken |
| `Hal.ReadEndpoint` | DE2_115_NIOS_DEVICE_LED/software/DE2_115_NIOS_DEVICE_LED/HAL4D13.c:112-137 | min(length word, len) bytes are stored and returned as count; one length word and ceil(count / 2) data words are consumed; the buffer is cleared on the chip |
| `Hal.WriteEndpoint` | DE2_115_NIOS_DEVICE_LED/software/DE2_115_NIOS_DEVICE_LED/HAL4D13.c:197-225 | the exact words written, an odd length's extra word included; returns the length rounded up to even |
| `Hal.WriteBulkEndpoint` | DE2_115_NIOS_DEVICE_LED/software/DE2_115_NIOS_DEVICE_LED/HAL4D13.c:227-246 | the exact words written; returns the length |
| `BootImages.ImageReconstruction` | sparc_usb_ISP1362/workspace/hwsw_de2-115/bootloader/main.c:145-189 | an image, code or data, cut into S3 records at any places and sent with any checksums, is in memory afterwards, and no other cell has changed |
| `BootImages.CellsMeaning` | sparc_usb_ISP1362/workspace/hwsw_de2-115/bootloader/main.c:84-94 | which cells an image fills and with what: data bytes in place, code bytes as little-endian pairs at (address - 0x80000000) / 2 |
| `BootImages.SameRecordsSameMemory` | sparc_usb_ISP1362/workspace/hwsw_de2-115/bootloader/main.c:166-189 | two lists of the same consistent records leave the same memory |
| `BootImages.ShuffledImage` | sparc_usb_ISP1362/workspace/hwsw_de2-115/bootloader/main.c:145-189 | the cut-up image arrives whatever the order and repetition of its records |
| `BootImages.ParseUndoesEncode` | sparc_usb_ISP1362/workspace/hwsw_de2-115/bootloader/main.c:156-181 | the parse gives back address and payload of every encoded record, and the payload count taken from the line's size equals the length field minus 5 |
| `BootImages.AddressIsHexValue` | sparc_usb_ISP1362/workspace/hwsw_de2-115/bootloader/main.c:172-177 | on every line the shift-and-add loop computes the value of the eight address characters, without wrap-around |
| `BootImages.LineFillsCells` | sparc_usb_ISP1362/workspace/hwsw_de2-115/bootloader/main.c:166-189 | the line of any record, odd code records included, fills exactly the record's cells |
| `BootImages.LoadingLines` | sparc_usb_ISP1362/workspace/hwsw_de2-115/bootloader/main.c:145-208 | loading the lines of any records is applying the records in order |
| `BootImages.CutsCover` | sparc_usb_ISP1362/workspace/hwsw_de2-115/bootloader/main.c:166-189 | the cells of consecutive pieces are the cells of the whole |
| `BootImages.BytesStored` | sparc_usb_ISP1362/workspace/hwsw_de2-115/bootloader/main.c:109-123 | the data-memory loop stores the payload from the address on |
| `BootImages.WordsStored` | sparc_usb_ISP1362/workspace/hwsw_de2-115/bootloader/main.c:80-98 | the code-memory loop stores the payload as words from the index on |
| `BootImages.HexDigitsValue` | sparc_usb_ISP1362/workspace/hwsw_de2-115/bootloader/main.c:172-177 | printing and reading a hexadecimal address are inverse |
| `BootImages.ChecksumIgnored` | sparc_usb_ISP1362/workspace/hwsw_de2-115/bootloader/main.c:179-187 | lines that differ only in their checksum characters have the same effect |
| `BootLoader.Loader.ProgramCodemem` | sparc_usb_ISP1362/workspace/hwsw_de2-115/bootloader/main.c:71-99 | all codewords of the line and nothing else are programmed; counters do not wrap and no read reaches the checksum |
| `BootLoader.Loader.ProgramDatamem` | sparc_usb_ISP1362/workspace/hwsw_de2-115/bootloader/main.c:101-124 | all bytes of the line and nothing else are stored; counters do not wrap and no read reaches the checksum |
| `BootLoader.Loader.ExtractAddress` | sparc_usb_ISP1362/workspace/hwsw_de2-115/bootloader/main.c:172-177 | the address loop, modulo 2^32 |
| `BootLoader.Loader.ProcessLine` | sparc_usb_ISP1362/workspace/hwsw_de2-115/bootloader/main.c:147-207 | one turn of the record loop for every kind of line whose effect the C code defines |
| `BootLoader.Loader.RecordLoop` | sparc_usb_ISP1362/workspace/hwsw_de2-115/bootloader/main.c:145-208 | the record loop over any lines the C code defines, up to the S7 record |
| `BootLoader.StartedStays` | sparc_usb_ISP1362/workspace/hwsw_de2-115/bootloader/main.c:190-204 | after the jump no further line has an effect |
| `Answers.SilentIff` | DE2_115_NIOS_DEVICE_LED/software/DE2_115_NIOS_DEVICE_LED/CHAP_9.c:406-970 | after any run, a request that is due leaves the chip untouched if and only if it is one of seven silent requests, given by state bits and fields; then only the state has changed, to idle; otherwise what is sent comes on top of what was sent before |
| `Answers.UnansweredIff` | DE2_115_NIOS_DEVICE_LED/software/DE2_115_NIOS_DEVICE_LED/MAINLOOP.c:181-204 | a SETUP without a data stage, sent after any run, is acknowledged and then left without an answer if and only if it is the 0xC0/0 request, which the setup branch never dispatches, or its request is silent in the state the run has led to |
| `Answers.SilenceLasts` | DE2_115_NIOS_DEVICE_LED/software/DE2_115_NIOS_DEVICE_LED/ISR.c:196-237 | an unanswered request stays so: whatever IN interrupts and main-loop turns follow, nothing happens until the host sends a packet or resets the bus |
| `Answers.SilentRequestsOccur` | DE2_115_NIOS_DEVICE_LED/software/DE2_115_NIOS_DEVICE_LED/CHAP_9.c:406-917 | each of the seven occurs: six right after power-on, the seventh once the device has any address |
| `Answers.HandlerAnswers` | DE2_115_NIOS_DEVICE_LED/software/DE2_115_NIOS_DEVICE_LED/MAINLOOP.c:244-267 | every handler of the request tables either extends what was sent or, exactly for the silent requests, does nothing |
| `Answers.GetStatusAnswers` | DE2_115_NIOS_DEVICE_LED/software/DE2_115_NIOS_DEVICE_LED/CHAP_9.c:406-507 | GET_STATUS: silent exactly outside the address state with a wrong wValue or wLength |
| `Answers.ClearFeatureAnswers` | DE2_115_NIOS_DEVICE_LED/software/DE2_115_NIOS_DEVICE_LED/CHAP_9.c:509-613 | CLEAR_FEATURE: silent exactly with a nonzero wLength |
| `Answers.SetFeatureAnswers` | DE2_115_NIOS_DEVICE_LED/software/DE2_115_NIOS_DEVICE_LED/CHAP_9.c:615-704 | SET_FEATURE: silent exactly outside the address state with a nonzero wLength |
| `Answers.InterfaceAnswers` | DE2_115_NIOS_DEVICE_LED/software/DE2_115_NIOS_DEVICE_LED/CHAP_9.c:919-970 | GET_INTERFACE and SET_INTERFACE always answer |
| `Answers.VendorAnswers` | DE2_115_NIOS_DEVICE_LED/software/DE2_115_NIOS_DEVICE_LED/D13BUS.c:47-124 | of the vendor requests, register writes and only they are silent |
| `ControlPipeRuns.NewestSetupWins` | DE2_115_NIOS_DEVICE_LED/software/DE2_115_NIOS_DEVICE_LED/MAINLOOP.c:140-241 | whatever the interleaving, a request about to be handled is the newest SETUP since the last bus reset, decoded, not handled before; if it has a data stage, count and buffer are those of the one data packet after it, the buffer as far as it reaches |
| `ControlPipeRuns.OutDataStageIsOnePacket` | DE2_115_NIOS_DEVICE_LED/software/DE2_115_NIOS_DEVICE_LED/ISR.c:161-172 | an OUT data stage is over after exactly one packet of any length |
| `ControlPipeRuns.OverrunIff` | DE2_115_NIOS_DEVICE_LED/software/DE2_115_NIOS_DEVICE_LED/ISR.c:161-166 | in a data stage of any run, storing a packet runs past the 16-byte buffer if and only if the packet has more than 16 bytes, whatever length was announced; any other packet is in the buffer as it came, with the bytes behind it untouched |
| `ControlPipeRuns.NeverOverrunsIff` | DE2_115_NIOS_DEVICE_LED/software/DE2_115_NIOS_DEVICE_LED/ISR.c:161-166 | a run never overruns the buffer if and only if no OUT packet of a data stage in it has more than 16 bytes |
| `ControlPipeRuns.OverrunFollows` | DE2_115_NIOS_DEVICE_LED/software/DE2_115_NIOS_DEVICE_LED/MAINLOOP.c:211-219 | after any run, a SETUP that announces 1 to 16 bytes and then a longer packet overrun the buffer |
| `ControlPipeRuns.OverrunOccurs` | DE2_115_NIOS_DEVICE_LED/software/DE2_115_NIOS_DEVICE_LED/MAINLOOP.c:211-219 | a concrete run from power-on that does: one byte announced, seventeen sent |
| `ControlPipeRuns.SetupBranch` | DE2_115_NIOS_DEVICE_LED/software/DE2_115_NIOS_DEVICE_LED/MAINLOOP.c:150-238 | the setup branch decodes exactly the packets of at least eight bytes and stalls the others, from any state |
| `ControlPipeRuns.HandlerSettles` | DE2_115_NIOS_DEVICE_LED/software/DE2_115_NIOS_DEVICE_LED/MAINLOOP.c:244-267 | no handler changes the standing request or raises Abort; all leave one of four states, an IN data stage only with its first 64 bytes out; all but SET_ADDRESS and SET_CONFIGURATION leave the device state alone |
| `InTransfer.DescriptorStallsIff` | DE2_115_NIOS_DEVICE_LED/software/DE2_115_NIOS_DEVICE_LED/CHAP_9.c:775-841 | a GET_DESCRIPTOR that has become due ends in a stall if and only if it asks for neither the device nor the configuration descriptor; what is sent is the first packet for these two, the first packet followed by a stall for the six strings, a stall for other types, two stalls for other strings |
| `BootImages.OrderIrrelevantIff` | sparc_usb_ISP1362/workspace/hwsw_de2-115/bootloader/main.c:71-124 | reordering records changes no memory, whatever was there before, if and only if no two records disagree about a cell; the same holds of reordering and repeating |
| `UsbDriver.PowerUp` | DE2_115_NIOS_DEVICE_LED/software/DE2_115_NIOS_DEVICE_LED/DE2_70_NIOS_DEVICE_LED.c:73-121 | the driver from power-on, after any list of events, satisfies the control-pipe invariant and is in the state all run theorems speak of |
| `UsbDriver.Driver.HandleAll` | DE2_115_NIOS_DEVICE_LED/software/DE2_115_NIOS_DEVICE_LED/DE2_70_NIOS_DEVICE_LED.c:91-119 | any list of events, handled one after the other |
| `UsbDriver.Driver.GetStatus` | DE2_115_NIOS_DEVICE_LED/software/DE2_115_NIOS_DEVICE_LED/CHAP_9.c:406-507 | status bytes, stall or silence by device state, recipient and fields |
| `UsbDriver.Driver.ClearFeature` | DE2_115_NIOS_DEVICE_LED/software/DE2_115_NIOS_DEVICE_LED/CHAP_9.c:509-613 | halt flags cleared on the right endpoint, remote wakeup, stall or silence |
| `UsbDriver.Driver.SetFeature` | DE2_115_NIOS_DEVICE_LED/software/DE2_115_NIOS_DEVICE_LED/CHAP_9.c:615-704 | halt flag set, in the address state on EP0 only; outside it an unknown endpoint feature clears EP0 IN's; remote wakeup, stall or silence |
| `UsbDriver.Driver.GetInterface` | DE2_115_NIOS_DEVICE_LED/software/DE2_115_NIOS_DEVICE_LED/CHAP_9.c:919-935 | the alternative setting or a stall |
| `UsbDriver.Driver.SetInterface` | DE2_115_NIOS_DEVICE_LED/software/DE2_115_NIOS_DEVICE_LED/CHAP_9.c:937-970 | the alternative setting stored, stalls included, the wrong direction stalled first and handled all the same |
| `UsbDriver.Driver.EnableIsoMode` | DE2_115_NIOS_DEVICE_LED/software/DE2_115_NIOS_DEVICE_LED/ISO.c:16-77 | as seen on endpoint 0: a status packet, or a stall for a nonzero wLength |
| `UsbDriver.Driver.ReadWriteRegister` | DE2_115_NIOS_DEVICE_LED/software/DE2_115_NIOS_DEVICE_LED/D13BUS.c:47-124 | the firmware version, a stall for other reads, nothing for writes |
| `ClockBridgeRuns.DriveAll` | DE2_115_NIOS_DEVICE_LED/DE2_115_SOPC_clock_0.v:417-703 | a bridge out of reset, its registers clocked by any legal list of edges, is at every end of it in the world the run theorems speak of, accepted and completed transfers being prefixes as they say |
| `ClockBridgeRuns.Drive` | DE2_115_NIOS_DEVICE_LED/DE2_115_SOPC_clock_0.v:417-703 | one edge on the registers, with the port monitors, is one step of a run |
| `BootLoader.RunsAwayIff` | sparc_usb_ISP1362/workspace/hwsw_de2-115/bootloader/main.c:108-110 | the payload loop over data memory ends, and reads nothing behind the payload, if and only if the data record has at least 13 characters; below that the negative size becomes a count the 8-bit counter never reaches |
| `BootLoader.Loader.ReadCodeword` | sparc_usb_ISP1362/workspace/hwsw_de2-115/bootloader/main.c:88-91 | the second byte of a codeword is the high one |
| `ClockBridgeRuns.ServedMeans` | DE2_115_NIOS_DEVICE_LED/DE2_115_SOPC_clock_0.v:308-344 | the edge-by-edge count of unstalled master edges says what the quantified one says |
| `DataStages.DataStageIff` | DE2_115_NIOS_DEVICE_LED/software/DE2_115_NIOS_DEVICE_LED/ISR.c:207-224 | a finished transfer is exactly one data stage in the sense of section 5.5.3 of USB 2.0, over after its last packet and not before, if and only if the bytes asked for do not end on a full packet with all of them available; otherwise the stage is over one packet earlier, the amount asked for having been sent, and an empty packet follows |
| `DataStages.StageIffNotFull` | DE2_115_NIOS_DEVICE_LED/software/DE2_115_NIOS_DEVICE_LED/CHAP_9.c:1037-1071 | the same of any packets of which all but the last, shorter one are full |
| `DataStages.DescriptorStageIff` | DE2_115_NIOS_DEVICE_LED/software/DE2_115_NIOS_DEVICE_LED/CHAP_9.c:775-807 | the same for a due GET_DESCRIPTOR, from its SETUP on |
| `DataStages.EmptyPacketOccurs` | DE2_115_NIOS_DEVICE_LED/software/DE2_115_NIOS_DEVICE_LED/ISR.c:220-224 | after any run, a request for 64, 128 or 192 bytes of a configuration descriptor that has them gets one packet too many |
| `DataStages.DescriptorIsDue` | DE2_115_NIOS_DEVICE_LED/software/DE2_115_NIOS_DEVICE_LED/MAINLOOP.c:181-191 | after any run, a GET_DESCRIPTOR just received and decoded is due, with its type, index and length |
| `DataStages.StringRequestStalls` | DE2_115_NIOS_DEVICE_LED/software/DE2_115_NIOS_DEVICE_LED/CHAP_9.c:808-839 | after any run, a request for one of the six strings sends the first packet of the string and stalls |
| `InterfaceSetting.SettingIsSelected` | DE2_115_NIOS_DEVICE_LED/software/DE2_115_NIOS_DEVICE_LED/CHAP_9.c:937-963 | after every run the stored alternative setting is that of the last accepted SET_INTERFACE, whatever resets and configurations have come since |
| `InterfaceSetting.SettingStaleIff` | DE2_115_NIOS_DEVICE_LED/software/DE2_115_NIOS_DEVICE_LED/CHAP_9.c:937-963 | the stored setting differs from the one a host takes to be in force if and only if a nonzero one was selected and a bus reset or an accepted SET_CONFIGURATION has come since |
| `InterfaceSetting.GetInterfaceReply` | DE2_115_NIOS_DEVICE_LED/software/DE2_115_NIOS_DEVICE_LED/CHAP_9.c:919-935 | a due GET_INTERFACE is answered with the setting selected last, or stalled if malformed or in the address state; the answer is the setting in force if and only if it is zero or nothing has restored the default since |
| `InterfaceSetting.StaleSettingOccurs` | DE2_115_NIOS_DEVICE_LED/software/DE2_115_NIOS_DEVICE_LED/CHAP_9.c:958-963 | SET_INTERFACE(1), a bus reset and a new enumeration leave a configured device whose stored setting is still 1 |
| `InterfaceSetting.OthersKeepSetting` | DE2_115_NIOS_DEVICE_LED/software/DE2_115_NIOS_DEVICE_LED/ISR.c:91-103 | nothing but the dispatch of SET_INTERFACE touches the setting, bus reset and SET_CONFIGURATION included |
| `BootLoader.CodeLoopOverreadsIff` | sparc_usb_ISP1362/workspace/hwsw_de2-115/bootloader/main.c:80-98 | the payload loop over code memory always ends, and reads nothing behind the payload if and only if the record has at least 13 characters |
| `Hal.IncrementIsUshort` | DE2_115_NIOS_DEVICE_LED/software/DE2_115_NIOS_DEVICE_LED/HAL4D13.c:207-217 | the increment of the modelled loop counter is that of a 16-bit counter, wrap included |
| `Hal.WriteLoop` | DE2_115_NIOS_DEVICE_LED/software/DE2_115_NIOS_DEVICE_LED/HAL4D13.c:206-217 | the loop of WriteEndpoint: the words sent after the length word, the counter at the end rounded up to even |
| `Hal.EndpointEnds` | DE2_115_NIOS_DEVICE_LED/software/DE2_115_NIOS_DEVICE_LED/HAL4D13.c:197-225 | what the loop has sent after its last round is the stream: the packed words, and for an odd length the last byte alone before the last word |
| `ClockBridgeRuns.ReadDataCaptured` | DE2_115_NIOS_DEVICE_LED/DE2_115_SOPC_clock_0.v:612-619 | in every reachable state slave_readdata_p1 holds the answer to the last accepted read, whatever writes have come since |
| `Replies.RequestsAreAnswered` | DE2_115_NIOS_DEVICE_LED/software/DE2_115_NIOS_DEVICE_LED/MAINLOOP.c:244-267 | after any run, a due request is answered by exactly its entry in a table over the request and the device state, packet bytes and stall order included; the last item of the answer decides the next state, and byte count and remaining length are those of the packet sent |
| `Replies.HandlerSends` | DE2_115_NIOS_DEVICE_LED/software/DE2_115_NIOS_DEVICE_LED/MAINLOOP.c:23-118 | the same of the request tables of MAINLOOP.c from any idle state |
| `Replies.GetStatusSends` | DE2_115_NIOS_DEVICE_LED/software/DE2_115_NIOS_DEVICE_LED/CHAP_9.c:406-507 | GET_STATUS: self-powered and remote-wakeup bits, zeros or the halt bit, stall or nothing, by state, recipient and form |
| `Replies.ClearFeatureSends` | DE2_115_NIOS_DEVICE_LED/software/DE2_115_NIOS_DEVICE_LED/CHAP_9.c:509-613 | CLEAR_FEATURE: which halt flags are cleared and how the request is answered |
| `Replies.SetFeatureSends` | DE2_115_NIOS_DEVICE_LED/software/DE2_115_NIOS_DEVICE_LED/CHAP_9.c:615-704 | SET_FEATURE: which endpoint's halt flag is set or cleared and how the request is answered |
| `Replies.SetAddressSends` | DE2_115_NIOS_DEVICE_LED/software/DE2_115_NIOS_DEVICE_LED/CHAP_9.c:706-772 | SET_ADDRESS: acknowledged, or nothing for address 0 in the default state |
| `Replies.SetConfigurationSends` | DE2_115_NIOS_DEVICE_LED/software/DE2_115_NIOS_DEVICE_LED/CHAP_9.c:865-917 | SET_CONFIGURATION: values 0 and 1 acknowledged, others stalled, nothing for stray fields in the address state |
| `Replies.SetInterfaceSends` | DE2_115_NIOS_DEVICE_LED/software/DE2_115_NIOS_DEVICE_LED/CHAP_9.c:937-970 | SET_INTERFACE: settings 0 and 1 of interface 0 acknowledged outside the address state, everything else stalled, the wrong direction stalled first in any case |
| `Replies.VendorSends` | DE2_115_NIOS_DEVICE_LED/software/DE2_115_NIOS_DEVICE_LED/D13BUS.c:47-124 | the vendor requests: firmware version 1, iso mode acknowledged, register writes met with nothing, the rest stalled |
| `Handshakes.SetupAcknowledgedIff` | DE2_115_NIOS_DEVICE_LED/software/DE2_115_NIOS_DEVICE_LED/MAINLOOP.c:150-239 | after any run, for every packet and flag: a SETUP is acknowledged to the chip if and only if it has at least eight bytes and has not been overwritten, with or without a data stage; beside that exactly the refusals of short packets and of more than 16 bytes of data are sent |
| `Handshakes.SetupIsAnswered` | DE2_115_NIOS_DEVICE_LED/software/DE2_115_NIOS_DEVICE_LED/MAINLOOP.c:417-427 | the same for the newest SETUP whenever the setup branch comes to it, with any events in between |
| `Handshakes.RequestIsStanding` | DE2_115_NIOS_DEVICE_LED/software/DE2_115_NIOS_DEVICE_LED/MAINLOOP.c:150-150 | after any run the stored request is the bytes of each SETUP read, laid over those before |
| `Handshakes.OutPacketEffect` | DE2_115_NIOS_DEVICE_LED/software/DE2_115_NIOS_DEVICE_LED/ISR.c:157-192 | after any run an OUT packet stalls if and only if the engine is idle, and puts nothing on the chip otherwise; it ends a data stage, ends a transfer, or changes no state |
| `Handshakes.InDoneEffect` | DE2_115_NIOS_DEVICE_LED/software/DE2_115_NIOS_DEVICE_LED/ISR.c:196-237 | after any run an IN-done interrupt sends exactly one packet in an IN data stage and does nothing outside |
| `Handshakes.MainLoopActsIff` | DE2_115_NIOS_DEVICE_LED/software/DE2_115_NIOS_DEVICE_LED/DE2_70_NIOS_DEVICE_LED.c:105-117 | each branch of the polling loop acts exactly in its state |
| `Handshakes.AbortIff` | DE2_115_NIOS_DEVICE_LED/software/DE2_115_NIOS_DEVICE_LED/ISR.c:149-153 | after any run Abort is up exactly from the SETUP that overtakes a due request to the decoding of the newest one |
| `Handshakes.ControlReadCompletes` | DE2_115_NIOS_DEVICE_LED/software/DE2_115_NIOS_DEVICE_LED/ISR.c:173-176 | a whole control read: dispatch, data packets, and the host's OUT packet, after which nothing has been stalled and the engine is idle |
| `Handshakes.ResetAbandons` | DE2_115_NIOS_DEVICE_LED/software/DE2_115_NIOS_DEVICE_LED/ISR.c:91-103 | a bus reset abandons any transfer: nothing is sent, and nothing follows until the host sends another packet |
| `Knowledge.SetConfigurationAcknowledgedIff` | DE2_115_NIOS_DEVICE_LED/software/DE2_115_NIOS_DEVICE_LED/CHAP_9.c:865-917 | after any run a due SET_CONFIGURATION is acknowledged if and only if its value is 0 or 1 and it is not silent, and then has been carried out; an unsupported value is stalled and leaves the device state alone |
| `Knowledge.RegisterIsHistory` | DE2_115_NIOS_DEVICE_LED/software/DE2_115_NIOS_DEVICE_LED/HAL4D13.c:73-81 | after any run, in every device state, the chip's address register holds the last address acknowledged in the default or address state, with the enable bit; a bus reset leaves it |
| `Knowledge.AnsweredFromHistory` | DE2_115_NIOS_DEVICE_LED/software/DE2_115_NIOS_DEVICE_LED/CHAP_9.c:406-970 | in runs without the requests the specification leaves open, every answer follows from the newest SETUP and from which requests have been acknowledged, bus resets included, and from nothing else |
| `Knowledge.HistoryTells` | DE2_115_NIOS_DEVICE_LED/software/DE2_115_NIOS_DEVICE_LED/CHAP_9.c:406-970 | in such runs state, configuration value, remote wakeup and alternative setting are what the acknowledged requests say |
| `Knowledge.HaltTargetIff` | DE2_115_NIOS_DEVICE_LED/software/DE2_115_NIOS_DEVICE_LED/CHAP_9.c:638-686 | SET_FEATURE(ENDPOINT_HALT) reaches the endpoint that wIndex names if and only if that is endpoint 0 without stray bits, endpoint 0 IN, or another endpoint outside the address state |
| `Knowledge.HaltAndBack` | DE2_115_NIOS_DEVICE_LED/software/DE2_115_NIOS_DEVICE_LED/CHAP_9.c:586-688 | outside the address state a due SET_FEATURE and CLEAR_FEATURE for a halt flag set and clear one and the same flag, that of the endpoint named |
| `Flags.OthersKeepFlags` | DE2_115_NIOS_DEVICE_LED/software/DE2_115_NIOS_DEVICE_LED/ISR.c:91-237 | nothing but a bus reset, SET_INTERFACE, CLEAR_FEATURE and SET_FEATURE touches remote wakeup or the alternative setting |
| `RemoteWakeup.WakeupIsHistory` | DE2_115_NIOS_DEVICE_LED/software/DE2_115_NIOS_DEVICE_LED/CHAP_9.c:509-704 | after any run the remote-wakeup flag is what the accepted feature requests since the last bus reset say |
| `RemoteWakeup.GetStatusReply` | DE2_115_NIOS_DEVICE_LED/software/DE2_115_NIOS_DEVICE_LED/CHAP_9.c:417-497 | a due GET_STATUS for the device reports self-powered and that history bit; for an interface zeros; for an endpoint the chip's halt bit |
| `BootStart.LineDoes` | sparc_usb_ISP1362/workspace/hwsw_de2-115/bootloader/main.c:147-207 | a line starts the program if and only if it begins with S7, changes memory only if it begins with S3, and does nothing after the start |
| `BootStart.StartedIff` | sparc_usb_ISP1362/workspace/hwsw_de2-115/bootloader/main.c:145-208 | any lines start the program if and only if one of them begins with S7 |
| `BootStart.OtherLinesIgnored` | sparc_usb_ISP1362/workspace/hwsw_de2-115/bootloader/main.c:152-154 | until the start, lines that do not begin with S3 might as well not be there |
| `BootStart.ProgramStarts` | sparc_usb_ISP1362/workspace/hwsw_de2-115/bootloader/main.c:145-206 | a whole session: the lines of a cut image in any order and repetition, other lines among them, an S7 line, anything after it: the program is started with exactly the image in memory |
| `BootStart.DigitIff` | sparc_usb_ISP1362/workspace/hwsw_de2-115/bootloader/main.c:60-69 | char_to_int: the printed digit, and zero for every other character |

## Left out

- ClockBridge: the endofpacket bit pipe and the nativeaddress registers (the latter copy the address path), metastability, and resets of one side alone.
- ControlPipeRuns: interrupts inside a handler, whose timing depends on the Altera interrupt library, which is not part of this model.
- ControlPipeRuns.NewestSetupWins: of an OUT packet longer than the 16-byte data buffer it states the first 16 bytes only, because the C code overruns the buffer there (OverrunIff).
- UsbDriver: endpoints 1 to 6, DMA, isochronous transfers, suspend, the chip's mode and configuration registers, debug output.
- UsbDriver.Driver.IsrOutReceived: does not model the bytes an OUT packet longer than the 16-byte data buffer would store past it, because what lies there is not known from the source; the count and the state are exact, and OverrunIff says when it happens.
- UsbDriver.Driver.BurstTransmitEP0: takes the length of the data as the length argument; a caller whose length argument exceeds its data is not modelled.
- UsbDriver.Driver.EnableIsoMode: the isochronous mode it sets is left out; only endpoint 0 is modelled.
- UsbDriver.Driver.ReadWriteRegister: the DMA request a register write stores is left out; only endpoint 0 is modelled.
- Hal.WriteEndpoint: the length 65535, for which the loop does not end, is excluded here and treated in CounterReaches.
- Hal.WriteBulkEndpoint: likewise for the length 65535.
- Hal: register access routines other than the address register, and the interrupt registers.
- BootLoader: the UART driver, which is not part of this model, the display, and the jump instruction of an S7 record (the model stops there).
- BootLoader.Loader.ProcessLine: excludes the lines whose effect the C code does not define: a lone S, and data records of fewer than 13 characters (RunsAwayIff). The length field and the checksum are not compared with the line, because the code does not compare them.
- BootLoader.Loader.RecordLoop: excludes the same lines.
- The endpoint 1 and 2 counter demo, LEDs, displays, the Windows program, other hardware description files and the generated configuration.
