# VEML6070 UV sensor driver — Dafny model

This project models the `SmarTC_VEML6070` driver class. The class drives one Vishay
VEML6070 UV sensor over a two-wire bus. Four parts are modelled:

- **the command image**: the one-byte command register, whose fields are SD (bit 0),
  RES (bit 1), IT (bits 2-3), ACK_THD (bit 4) and ACK (bit 5);
- **the driver state machine**: `launch`, `clearInt`, `shutDown`, `setACK` and the
  destructor;
- **the read path**: `readUV`, which reads two single bytes big-endian, and `getUV`,
  which caches the reading and limits how often it reads;
- **the status mapping** of the private `write()`.

The bus transport is an oracle. Each operation takes the transport's answers as
parameters:

- the byte count that `requestFrom` reports;
- the byte that `read` returns;
- the completion code of `endTransmission`.

Each operation returns three things: the new driver state, the result, and a trace of
the bus transactions it issued. A transaction is either `Request(address, quantity)`
or `Transmit(address, byte)`.

Modules:

- `Command` (`command.dfy`): the integration-time enumeration and its encodings, and
  `Pack`/`Unpack` between the five fields and a `bv8`. It also has one setter per field
  that leaves every other field and bits 6-7 unchanged.
- `Bus` (`bus.dfy`): the 7-bit slave addresses, the bus events, and the sorting of
  `endTransmission` completion codes into diagnostic categories.
- `Driver` (`driver.dfy`): the driver state, its invariant `Valid`, and one pure
  function per operation of the class.
- `Session` (`session.dfy`): any sequence of host calls, run one after another. Its
  lemmas hold across every such run: the invariant is kept, RES is never cleared, a
  launched driver stays launched, and every address is a 7-bit one.

Modelling decisions:

- **Bit-field order.** The C bit-field order is implementation-defined. The model
  allocates from the least significant bit, as GCC does on the little-endian targets
  the library is built for. The comments on the integration-time enumerators (0x04,
  0x08, 0x0C "in full buffer") confirm this order.
- **`clearInt`.** `clearInt` succeeds exactly when `requestFrom` on the alert response
  address reports **zero** bytes. It never reads the byte and never polls.
- **`readUV`.** A failed read returns 0. This is indistinguishable from a genuine
  reading of 0, as in the code.
- **Uninitialised state.** The cached reading `i_uv` and its timestamp `i_last_uvt`
  are not set by the constructor. They are not declared in the header either. The
  model takes them as constructor parameters: whatever the memory held.
- **Clock width.** The timestamp and the refresh interval are 32-bit unsigned values.
  The elapsed time is `(now - last) mod 2^32`.
- **RES before launch.** The RES bit is documented as "always 1", but nothing sets it
  before `launch`. A `shutDown` or `setACK` call made before any `launch` therefore
  transmits RES = 0 (`Session.ShutDownBeforeLaunch`). From the first `launch` attempt
  on, RES stays set (`Session.ResNeverCleared`). After a successful launch, every
  transmitted byte carries RES = 1 (`Session.LaunchedTransmitsRes`).

## Model

| member | source | states |
|---|---|---|
| Command.ItCode | include/SmarTC_VEML6070.h:62-68 | every integration-time enumerator is encoded below 4, so it fits the 2-bit IT field |
| Command.ItFromCode | include/SmarTC_VEML6070.h:62-68 | every 2-bit value 0..3 is the encoding of some enumerator |
| Command.ItCodeBijective | include/SmarTC_VEML6070.h:62-68 | the encodings are exactly 0..3, one per enumerator, in both directions |
| Command.Pack | include/SmarTC_VEML6070.h:149-159 | packing five fields gives a byte with bits 6-7 clear that unpacks to the same five fields |
| Command.Unpack | include/SmarTC_VEML6070.h:149-159 | reading a byte through the bit-field view gives SD = bit 0, RES = bit 1, IT = bits 2-3 (the value byte/4 mod 4), ACK_THD = bit 4 and ACK = bit 5 |
| Command.PackUnpack | include/SmarTC_VEML6070.h:149-159 | repacking an unpacked byte restores bits 0-5 exactly; it restores the whole byte when bits 6-7 are clear |
| Command.ItPosition | include/SmarTC_VEML6070.h:64-67 | IT value k appears as k*4 in the full byte (0x00, 0x04, 0x08, 0x0C), so IT sits at bits 2-3 |
| Command.WithSd | include/SmarTC_VEML6070.h:152 | assigning SD changes only the SD field; the other fields and bits 6-7 keep their values |
| Command.WithRes | include/SmarTC_VEML6070.h:153 | assigning RES changes only the RES field; the other fields and bits 6-7 keep their values |
| Command.WithIt | include/SmarTC_VEML6070.h:154 | assigning IT changes only the IT field; the other fields and bits 6-7 keep their values |
| Command.WithAckThd | include/SmarTC_VEML6070.h:155 | assigning ACK_THD changes only that field; the other fields and bits 6-7 keep their values |
| Command.WithAck | include/SmarTC_VEML6070.h:156 | assigning ACK changes only that field; the other fields and bits 6-7 keep their values |
| Bus.SlaveAddress | include/SmarTC_VEML6070.h:52-55 | shifting an 8-bit datasheet address right by one gives a 7-bit address that shifts back to it, apart from the read/write bit |
| Bus.AddressMap | include/SmarTC_VEML6070.h:52-55 | ARA = 0x0C, CMD = 0x38, LSB = 0x38, MSB = 0x39: all below 0x80; CMD and LSB coincide; MSB and ARA differ from CMD |
| Bus.StatusOf | src/SmarTC_VEML6070.cpp:187-207 | completion code 0 is the only success; codes above 4 are the generic failure, carrying their code |
| Bus.StatusDistinguishesCodes | src/SmarTC_VEML6070.cpp:187-205 | two completion codes fall in the same diagnostic category exactly when they are equal (code 2 is told apart from code 3) |
| Driver.Create | src/SmarTC_VEML6070.cpp:43-50 | a new driver is not launched, has an all-zero command image and satisfies the invariant |
| Driver.Write | src/SmarTC_VEML6070.cpp:177-208 | transmits exactly one byte, the whole current image, to the command address; leaves the state alone; succeeds exactly when the code is 0 |
| Driver.ClearInt | src/SmarTC_VEML6070.cpp:123-136 | issues one request for one byte at the alert response address; succeeds exactly when 0 bytes are reported; never changes the state |
| Driver.Launch | src/SmarTC_VEML6070.cpp:91-121 | if already launched: succeeds with no bus traffic and no state change. Otherwise, all-or-nothing: launched and successful exactly when clearInt and the write both succeed. RES is then set. IT holds the configured time whenever clearInt succeeded. No byte is written when clearInt fails. Nothing else changes |
| Driver.ShutDown | src/SmarTC_VEML6070.cpp:138-148 | only the SD field changes, to `enable`; transmits the new image; returns the write's result |
| Driver.SetAck | src/SmarTC_VEML6070.cpp:150-163 | only ACK and ACK_THD change; the interrupt clear is issued whatever it reports; transmits the new image; returns the write's result |
| Driver.ReadUV | src/SmarTC_VEML6070.cpp:210-234 | msb*256+lsb when both requests yield exactly one byte, otherwise 0. A failed LSB request discards the MSB. The LSB is requested only after the MSB arrived. State is unchanged |
| Driver.Combine | src/SmarTC_VEML6070.cpp:219-230 | shifting the MSB into a 16-bit accumulator and OR-ing the LSB in gives msb*256+lsb |
| Driver.BigEndianValue | src/SmarTC_VEML6070.cpp:219-230 | the shift-and-OR on 16 bits equals the arithmetic big-endian value |
| Driver.ReadUVBigEndian | src/SmarTC_VEML6070.cpp:219-233 | the high byte of a successful reading is the MSB and the low byte the LSB; MSB 0x12 and LSB 0x34 give 0x1234 |
| Driver.Elapsed | src/SmarTC_VEML6070.cpp:167 | the unsigned 32-bit `now - last`: adding it to `last` modulo 2^32 gives `now`; it is the plain difference when `now >= last` and 2^32 minus the gap when the clock wrapped |
| Driver.ElapsedAcrossWrap | src/SmarTC_VEML6070.cpp:167 | the unsigned 32-bit difference of clock values is the true elapsed time whenever that is below 2^32, even across a clock wrap |
| Driver.GetUV | src/SmarTC_VEML6070.cpp:165-174 | reads again only when the wrapped elapsed time is strictly greater than the refresh interval. It then records `now` and caches the read's value even when the read failed. Otherwise it returns the cached value with no bus traffic and no change |
| Driver.GetUVThrottles | src/SmarTC_VEML6070.cpp:165-174 | after a read, a second getUV within the interval issues nothing and returns the same value; one past the interval issues a fresh MSB request |
| Driver.Teardown | src/SmarTC_VEML6070.cpp:82-89 | an unlaunched driver does nothing. A launched one issues the interrupt clear and then a write of the image with only SD changed, to 1; bits 6-7 keep their values. This holds whatever the transport answers |
| Session.StepFacts | src/SmarTC_VEML6070.cpp:91-174 | no public call changes the configuration, un-launches the driver, clears RES once set, or breaks the invariant |
| Session.StepTraceFacts | src/SmarTC_VEML6070.cpp:123-234 | every call addresses only 7-bit addresses. It writes only bytes with bits 6-7 clear when the image has them clear. Once the driver is launched, every written byte has RES set |
| Session.Run | src/SmarTC_VEML6070.cpp:91-174 | a run of calls gives one reply per call, keeps the configuration, and keeps a launched driver launched; every address it uses is 7-bit |
| Session.RunPreservesValid | src/SmarTC_VEML6070.cpp:45 | from a valid state (a zeroed buffer in particular), every sequence of calls keeps bits 6-7 of the image zero. Every transmitted byte has them zero, and a launched driver keeps RES and the configured IT |
| Session.ResNeverCleared | include/SmarTC_VEML6070.h:153 | once RES is set, no sequence of calls clears it |
| Session.LaunchedTransmitsRes | include/SmarTC_VEML6070.h:153 | after a successful launch, every command byte transmitted by any later sequence of calls has RES = 1 |
| Session.ShutDownBeforeLaunch | src/SmarTC_VEML6070.cpp:138-148 | on a fresh driver, shutDown(true) transmits 0x01, a byte whose RES bit is 0 |
| Session.LaunchTwice | src/SmarTC_VEML6070.cpp:91-108 | a second launch after a successful one is a no-op reporting success; after a failed one it starts the whole sequence again |
| Session.FreshLaunchByte | src/SmarTC_VEML6070.cpp:95-112 | a successful launch of a fresh driver transmits exactly RES plus the configured IT field |
| Session.TeardownByte | src/SmarTC_VEML6070.cpp:82-89 | tearing down a launched, valid driver transmits a byte with SD = 1, RES = 1, the configured IT, the previous ACK fields and bits 6-7 clear, and leaves a valid driver |
| Session.SetAckKeepsTimingAndStandby | src/SmarTC_VEML6070.cpp:150-163 | setACK(true, false) transmits ACK = 1 and ACK_THD = 0 and keeps the IT and SD fields it found |

## Left out

- Driver.Create: the refresh interval `i_itv` is a constructor parameter. The code computes it in double precision and truncates it to an unsigned integer (src/SmarTC_VEML6070.cpp:65-79). The model does not cover that floating-point arithmetic.
- Driver.GetUV: takes one clock value per call. The code reads `millis()` twice, once for the test and once for the new timestamp; the second value can be a few ms later.
- The default constructor (src/SmarTC_VEML6070.cpp:35-41) is not modelled. It leaves `i_init` and `i_itv` uninitialised.
- Serial logging is left out. It has no effect on the driver state.
- `Wire.begin()` is left out of the trace. It joins the bus and issues no transaction.
- Bus timing, arbitration and electrical behaviour belong to the transport. The transport is an oracle here.
- The example sketch `examples/main.cpp` is not part of this model. It calls `launch` once in `setup()` and `getUV` on every pass of `loop()`.
- `Wire.read()` returns -1 when no byte is buffered. It is only reached after `requestFrom` reported exactly one byte, so the model takes the byte as given.
