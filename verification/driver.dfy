/** The state and operations of one VEML6070 driver instance.

    Every operation is a pure step: it takes the current state and the bus transport's
    answers, and returns the new state, the operation's result and the trace of bus
    transactions it issued. */
module Driver {
  import opened Command
  import opened Bus

  const TwoTo32: int := 0x1_0000_0000

  /** A 32-bit unsigned value (millisecond clock, refresh interval). */
  type U32 = x: int | 0 <= x < TwoTo32

  /** A 16-bit unsigned value (UV reading). */
  type U16 = x: int | 0 <= x < 0x10000

  /** What is fixed at construction: the integration time, the sense resistor value and
      the refresh interval in milliseconds derived from them. */
  datatype Config = Config(it: IntegrationTime, rset: int, itv: U32)

  /** The driver's mutable state: whether `launch` succeeded, the command image, the
      cached UV reading and the time it was taken. */
  datatype State = State(cfg: Config, init: bool, cmd: bv8, uv: U16, lastUvt: U32)

  /** What an operation returns: the new state, its result and the bus transactions. */
  datatype Outcome<T> = Outcome(st: State, value: T, trace: seq<Event>)

  /** The state invariant: bits 6-7 of the command image are zero, and a launched driver
      has RES set and its configured integration time in the IT field. */
  predicate Valid(s: State) {
    && s.cmd & UnusedMask == 0
    && (s.init ==> Unpack(s.cmd).res && Unpack(s.cmd).it == s.cfg.it)
  }

  /** The two-argument constructor. The refresh interval is given rather than computed,
      and the cached reading and its timestamp, which the constructor leaves
      uninitialised, are whatever values `uv0` and `last0` happen to hold. */
  function Create(it: IntegrationTime, rset: int, itv: U32, uv0: U16, last0: U32): (s: State)
    ensures Valid(s)
    ensures !s.init
    ensures Unpack(s.cmd) == ZeroFields
    ensures s.cfg.it == it && s.cfg.rset == rset && s.cfg.itv == itv
  {
    State(Config(it, rset, itv), false, 0, uv0, last0)
  }

  /** `write()`: sends the whole current command image to the command address and
      succeeds exactly when the transport reports completion code 0. */
  function Write(s: State, code: bv8): (r: Outcome<bool>)
    ensures r.st == s
    ensures r.value <==> code == 0
    ensures r.trace == [Transmit(AddrCmd, s.cmd)]
  {
    Outcome(s, StatusOf(code).Success?, [Transmit(AddrCmd, s.cmd)])
  }

  /** `clearInt()`: requests one byte from the alert response address and succeeds
      exactly when the transport reports that no byte came back. */
  function ClearInt(s: State, araCount: nat): (r: Outcome<bool>)
    ensures r.st == s
    ensures r.value <==> araCount == 0
    ensures r.trace == [Request(AddrAra, 1)]
  {
    Outcome(s, araCount == 0, [Request(AddrAra, 1)])
  }

  /** `launch()`. Already launched: succeed at once, touching neither state nor bus.
      Otherwise set RES, clear the interrupt, set IT and write the command; the driver is
      launched, and the call succeeds, exactly when both bus steps succeeded. */
  function Launch(s: State, araCount: nat, code: bv8): (r: Outcome<bool>)
    ensures s.init ==> r == Outcome(s, true, [])
    ensures !s.init ==> (r.value <==> araCount == 0 && code == 0)
    ensures r.value == r.st.init
    ensures !s.init ==> Unpack(r.st.cmd).res
    ensures !s.init && araCount == 0 ==> Unpack(r.st.cmd).it == s.cfg.it
    ensures !s.init && araCount != 0 ==> Unpack(r.st.cmd).it == Unpack(s.cmd).it
    ensures !s.init && araCount != 0 ==> r.trace == [Request(AddrAra, 1)]
    ensures !s.init && araCount == 0 ==> r.trace == [Request(AddrAra, 1), Transmit(AddrCmd, r.st.cmd)]
    ensures Unpack(r.st.cmd).sd == Unpack(s.cmd).sd
    ensures Unpack(r.st.cmd).ack == Unpack(s.cmd).ack
    ensures Unpack(r.st.cmd).ackThd == Unpack(s.cmd).ackThd
    ensures r.st.cmd & UnusedMask == s.cmd & UnusedMask
    ensures r.st == s.(init := r.st.init, cmd := r.st.cmd)
  {
    if s.init then
      Outcome(s, s.init, [])
    else
      var s1 := s.(cmd := WithRes(s.cmd, true));
      var c := ClearInt(s1, araCount);
      var s2 := s1.(init := c.value);
      if !s2.init then
        Outcome(s2, s2.init, c.trace)
      else
        var s3 := s2.(cmd := WithIt(s2.cmd, s2.cfg.it));
        var w := Write(s3, code);
        var s4 := if !w.value then s3.(init := false) else s3;
        Outcome(s4, s4.init, c.trace + w.trace)
  }

  /** `shutDown(enable)`: sets the SD field to `enable` and writes the command; the
      result is the write's. */
  function ShutDown(s: State, enable: bool, code: bv8): (r: Outcome<bool>)
    ensures Unpack(r.st.cmd) == Unpack(s.cmd).(sd := enable)
    ensures r.st.cmd & UnusedMask == s.cmd & UnusedMask
    ensures r.st == s.(cmd := r.st.cmd)
    ensures r.value <==> code == 0
    ensures r.trace == [Transmit(AddrCmd, r.st.cmd)]
  {
    var s1 := s.(cmd := WithSd(s.cmd, enable));
    var w := Write(s1, code);
    Outcome(s1, w.value, w.trace)
  }

  /** `setACK(active, steps)`: sets ACK and ACK_THD, clears the interrupt without looking
      at the outcome, and writes the command; the result is the write's. */
  function SetAck(s: State, active: bool, steps: bool, araCount: nat, code: bv8): (r: Outcome<bool>)
    ensures Unpack(r.st.cmd) == Unpack(s.cmd).(ack := active, ackThd := steps)
    ensures r.st.cmd & UnusedMask == s.cmd & UnusedMask
    ensures r.st == s.(cmd := r.st.cmd)
    ensures r.value <==> code == 0
    ensures r.trace == [Request(AddrAra, 1), Transmit(AddrCmd, r.st.cmd)]
  {
    var s1 := s.(cmd := WithAckThd(WithAck(s.cmd, active), steps));
    var c := ClearInt(s1, araCount);
    var w := Write(c.st, code);
    Outcome(w.st, w.value, c.trace + w.trace)
  }

  /** `readUV()`: one byte from the MSB address, then one from the LSB address, combined
      big-endian. A request that does not yield exactly one byte ends the read with 0,
      and the LSB request is only issued once the MSB byte arrived. */
  function ReadUV(s: State, msbCount: nat, msb: bv8, lsbCount: nat, lsb: bv8): (r: Outcome<U16>)
    ensures r.st == s
    ensures msbCount == 1 && lsbCount == 1 ==> r.value == msb as int * 256 + lsb as int
    ensures msbCount != 1 || lsbCount != 1 ==> r.value == 0
    ensures msbCount != 1 ==> r.trace == [Request(AddrMsb, 1)]
    ensures msbCount == 1 ==> r.trace == [Request(AddrMsb, 1), Request(AddrLsb, 1)]
  {
    if msbCount != 1 then
      Outcome(s, 0, [Request(AddrMsb, 1)])
    else
      if lsbCount != 1 then
        Outcome(s, 0, [Request(AddrMsb, 1), Request(AddrLsb, 1)])
      else
        Outcome(s, Combine(msb, lsb), [Request(AddrMsb, 1), Request(AddrLsb, 1)])
  }

  /** `uv = msb; uv <<= 8; uv |= lsb` on a 16-bit accumulator: the big-endian value. */
  function Combine(msb: bv8, lsb: bv8): (v: U16)
    ensures v == msb as int * 256 + lsb as int
  {
    var uv: bv16 := ((msb as bv16) << 8) | (lsb as bv16);
    BigEndianValue(msb, lsb);
    uv as int
  }

  /** Shifting the MSB up by 8 and OR-ing the LSB in is the big-endian value. */
  lemma BigEndianValue(msb: bv8, lsb: bv8)
    ensures (((msb as bv16) << 8) | (lsb as bv16)) as int == msb as int * 256 + lsb as int
  {
  }

  /** A successful read is split back into its two bytes: the MSB is the high byte. */
  lemma ReadUVBigEndian(s: State, msb: bv8, lsb: bv8)
    ensures ReadUV(s, 1, msb, 1, lsb).value / 256 == msb as int
    ensures ReadUV(s, 1, msb, 1, lsb).value % 256 == lsb as int
    ensures ReadUV(s, 1, 0x12, 1, 0x34).value == 0x1234
  {
  }

  /** Milliseconds from `last` to `now` on a 32-bit unsigned clock that wraps. */
  function Elapsed(last: U32, now: U32): (e: U32)
    ensures (last + e) % TwoTo32 == now
    ensures last <= now ==> e == now - last
    ensures now < last ==> e == TwoTo32 - (last - now)
  {
    (now - last) % TwoTo32
  }

  /** The wrapping difference is the true elapsed time whenever that is below 2^32,
      also when the clock wrapped in between. */
  lemma ElapsedAcrossWrap(t0: nat, delta: nat)
    requires delta < TwoTo32
    ensures Elapsed(t0 % TwoTo32, (t0 + delta) % TwoTo32) == delta
  {
  }

  /** `getUV()` at clock value `now`: reads afresh only when strictly more than the
      refresh interval has passed since the last read, then records `now` and caches the
      read's value even if the read failed; otherwise nothing changes. The call returns
      the cached value. */
  function GetUV(s: State, now: U32, msbCount: nat, msb: bv8, lsbCount: nat, lsb: bv8): (r: Outcome<U16>)
    ensures r.value == r.st.uv
    ensures Elapsed(s.lastUvt, now) <= s.cfg.itv ==> r == Outcome(s, s.uv, [])
    ensures Elapsed(s.lastUvt, now) > s.cfg.itv ==>
      && r.st == s.(lastUvt := now, uv := r.value)
      && (msbCount == 1 && lsbCount == 1 ==> r.value == msb as int * 256 + lsb as int)
      && (msbCount != 1 || lsbCount != 1 ==> r.value == 0)
      && r.trace == ReadUV(s, msbCount, msb, lsbCount, lsb).trace
  {
    if Elapsed(s.lastUvt, now) > s.cfg.itv then
      var rd := ReadUV(s, msbCount, msb, lsbCount, lsb);
      var s1 := s.(lastUvt := now, uv := rd.value);
      Outcome(s1, s1.uv, rd.trace)
    else
      Outcome(s, s.uv, [])
  }

  /** After a `getUV` that read, a second `getUV` no more than the refresh interval
      later issues no bus transaction and returns the same value; one strictly later
      issues exactly one fresh read. */
  lemma GetUVThrottles(s: State, t1: U32, t2: U32, m1: nat, b1: bv8, l1: nat, c1: bv8,
                       m2: nat, b2: bv8, l2: nat, c2: bv8)
    requires Elapsed(s.lastUvt, t1) > s.cfg.itv
    ensures var a := GetUV(s, t1, m1, b1, l1, c1);
      && (Elapsed(t1, t2) <= s.cfg.itv ==> GetUV(a.st, t2, m2, b2, l2, c2) == Outcome(a.st, a.value, []))
      && (Elapsed(t1, t2) > s.cfg.itv ==>
            GetUV(a.st, t2, m2, b2, l2, c2).trace[0] == Request(AddrMsb, 1)
            && GetUV(a.st, t2, m2, b2, l2, c2).st.lastUvt == t2)
  {
  }

  /** The destructor: a launched driver clears the interrupt and requests shutdown,
      ignoring both outcomes; an unlaunched one does nothing. */
  function Teardown(s: State, araCount: nat, code: bv8): (r: Outcome<()>)
    ensures !s.init ==> r == Outcome(s, (), [])
    ensures s.init ==> Unpack(r.st.cmd) == Unpack(s.cmd).(sd := true)
    ensures s.init ==> r.st.cmd & UnusedMask == s.cmd & UnusedMask
    ensures s.init ==> r.st == s.(cmd := r.st.cmd)
    ensures s.init ==> r.trace == [Request(AddrAra, 1), Transmit(AddrCmd, r.st.cmd)]
  {
    if !s.init then
      Outcome(s, (), [])
    else
      var c := ClearInt(s, araCount);
      var d := ShutDown(c.st, true, code);
      Outcome(d.st, (), c.trace + d.trace)
  }
}
