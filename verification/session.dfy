/** A driver's life as a sequence of host calls, each with the bus transport's answers,
    and the facts that hold across any such sequence. */
module Session {
  import opened Command
  import opened Bus
  import D = Driver

  /** One public call on the driver, together with what the transport answers to it. */
  datatype Call =
    | Launch(araCount: nat, code: bv8)
    | ClearInt(araCount: nat)
    | ShutDown(enable: bool, code: bv8)
    | SetAck(active: bool, steps: bool, araCount: nat, code: bv8)
    | ReadUV(msbCount: nat, msb: bv8, lsbCount: nat, lsb: bv8)
    | GetUV(now: D.U32, msbCount: nat, msb: bv8, lsbCount: nat, lsb: bv8)

  /** What a call returns to the host. */
  datatype Reply = Status(ok: bool) | Reading(uv: D.U16)

  function Step(s: D.State, c: Call): D.Outcome<Reply> {
    match c
    case Launch(n, code) =>
      var o := D.Launch(s, n, code); D.Outcome(o.st, Status(o.value), o.trace)
    case ClearInt(n) =>
      var o := D.ClearInt(s, n); D.Outcome(o.st, Status(o.value), o.trace)
    case ShutDown(e, code) =>
      var o := D.ShutDown(s, e, code); D.Outcome(o.st, Status(o.value), o.trace)
    case SetAck(a, t, n, code) =>
      var o := D.SetAck(s, a, t, n, code); D.Outcome(o.st, Status(o.value), o.trace)
    case ReadUV(mc, m, lc, l) =>
      var o := D.ReadUV(s, mc, m, lc, l); D.Outcome(o.st, Reading(o.value), o.trace)
    case GetUV(now, mc, m, lc, l) =>
      var o := D.GetUV(s, now, mc, m, lc, l); D.Outcome(o.st, Reading(o.value), o.trace)
  }

  /** Every byte the trace writes has RES set. */
  predicate ResInEveryTransmit(t: seq<Event>) {
    forall i :: 0 <= i < |t| && t[i].Transmit? ==> Unpack(t[i].data).res
  }

  /** Every byte the trace writes has bits 6-7 clear. */
  predicate UnusedClearInEveryTransmit(t: seq<Event>) {
    forall i :: 0 <= i < |t| && t[i].Transmit? ==> t[i].data & UnusedMask == 0
  }

  /** One call keeps the configuration, never un-launches the driver, keeps RES once
      set and keeps the state invariant. */
  lemma StepFacts(s: D.State, c: Call)
    ensures Step(s, c).st.cfg == s.cfg
    ensures s.init ==> Step(s, c).st.init
    ensures Unpack(s.cmd).res ==> Unpack(Step(s, c).st.cmd).res
    ensures D.Valid(s) ==> D.Valid(Step(s, c).st)
  {
  }

  /** One call talks only to 7-bit addresses and writes only bytes whose unused bits
      are as clear as the image's, with RES set once the driver is launched. */
  lemma StepTraceFacts(s: D.State, c: Call)
    ensures SevenBitTrace(Step(s, c).trace)
    ensures s.cmd & UnusedMask == 0 ==> UnusedClearInEveryTransmit(Step(s, c).trace)
    ensures D.Valid(s) && s.init ==> ResInEveryTransmit(Step(s, c).trace)
  {
  }

  /** Runs the calls in order from `s`: the final state, every reply, and the whole
      trace. The configuration never changes and a launched driver stays launched. */
  function Run(s: D.State, calls: seq<Call>): (r: D.Outcome<seq<Reply>>)
    ensures |r.value| == |calls|
    ensures r.st.cfg == s.cfg
    ensures s.init ==> r.st.init
    ensures SevenBitTrace(r.trace)
    decreases |calls|
  {
    if calls == [] then
      D.Outcome(s, [], [])
    else
      var o := Step(s, calls[0]);
      StepFacts(s, calls[0]);
      StepTraceFacts(s, calls[0]);
      var rest := Run(o.st, calls[1..]);
      D.Outcome(rest.st, [o.value] + rest.value, o.trace + rest.trace)
  }

  /** The state invariant holds after any sequence of calls from a valid state; in
      particular, from a freshly constructed driver, bits 6-7 of the image stay zero. */
  lemma {:induction false} RunPreservesValid(s: D.State, calls: seq<Call>)
    requires D.Valid(s)
    ensures D.Valid(Run(s, calls).st)
    ensures UnusedClearInEveryTransmit(Run(s, calls).trace)
    decreases |calls|
  {
    if calls != [] {
      var o := Step(s, calls[0]);
      StepFacts(s, calls[0]);
      StepTraceFacts(s, calls[0]);
      RunPreservesValid(o.st, calls[1..]);
      var rest := Run(o.st, calls[1..]);
      assert Run(s, calls).trace == o.trace + rest.trace;
    }
  }

  /** Once RES is set, no sequence of calls clears it. */
  lemma {:induction false} ResNeverCleared(s: D.State, calls: seq<Call>)
    requires Unpack(s.cmd).res
    ensures Unpack(Run(s, calls).st.cmd).res
    decreases |calls|
  {
    if calls != [] {
      StepFacts(s, calls[0]);
      ResNeverCleared(Step(s, calls[0]).st, calls[1..]);
    }
  }

  /** Once launched from a valid state, every command byte the driver transmits, in
      any later sequence of calls, has RES set. */
  lemma {:induction false} LaunchedTransmitsRes(s: D.State, calls: seq<Call>)
    requires D.Valid(s) && s.init
    ensures ResInEveryTransmit(Run(s, calls).trace)
    decreases |calls|
  {
    if calls != [] {
      var o := Step(s, calls[0]);
      StepFacts(s, calls[0]);
      StepTraceFacts(s, calls[0]);
      LaunchedTransmitsRes(o.st, calls[1..]);
      var rest := Run(o.st, calls[1..]);
      assert Run(s, calls).trace == o.trace + rest.trace;
    }
  }

  /** A shutdown request before any launch transmits a byte whose RES bit is 0: the
      "always 1" promise on RES holds only from the first launch attempt on. */
  lemma ShutDownBeforeLaunch(it: IntegrationTime, rset: int, itv: D.U32, uv0: D.U16, last0: D.U32)
    ensures var o := D.ShutDown(D.Create(it, rset, itv, uv0, last0), true, 0);
      o.trace == [Transmit(AddrCmd, 0x01)] && !Unpack(o.trace[0].data).res
  {
  }

  /** Calling `launch` twice: when the first call succeeds the second is a pure no-op
      reporting success; when it fails the second runs the whole sequence again. */
  lemma LaunchTwice(s: D.State, n1: nat, c1: bv8, n2: nat, c2: bv8)
    requires !s.init
    ensures var a := D.Launch(s, n1, c1);
      && (a.value ==> D.Launch(a.st, n2, c2) == D.Outcome(a.st, true, []))
      && (!a.value ==> D.Launch(a.st, n2, c2).trace[0] == Request(AddrAra, 1))
  {
  }

  /** Launching a fresh driver whose bus answers both steps successfully transmits
      exactly RES plus the configured IT field, and nothing else. */
  lemma FreshLaunchByte(it: IntegrationTime, rset: int, itv: D.U32, uv0: D.U16, last0: D.U32)
    ensures var o := D.Launch(D.Create(it, rset, itv, uv0, last0), 0, 0);
      o.value && o.trace == [Request(AddrAra, 1), Transmit(AddrCmd, Pack(ZeroFields.(res := true, it := it)))]
  {
  }

  /** `setACK(true, false)` after a launch transmits ACK = 1 and ACK_THD = 0 and keeps
      the IT and SD fields it found. */
  lemma SetAckKeepsTimingAndStandby(s: D.State, n: nat, code: bv8)
    ensures var o := D.SetAck(s, true, false, n, code);
      var f := Unpack(o.trace[1].data);
      f.ack && !f.ackThd && f.it == Unpack(s.cmd).it && f.sd == Unpack(s.cmd).sd
  {
  }

  /** Tearing down a launched, valid driver transmits a standby byte with SD and RES
      set, the configured IT, bits 6-7 clear, and the ACK fields it had; the driver it
      leaves behind is still valid. */
  lemma TeardownByte(s: D.State, n: nat, code: bv8)
    requires D.Valid(s) && s.init
    ensures var o := D.Teardown(s, n, code);
      && |o.trace| == 2 && o.trace[1].Transmit?
      && Unpack(o.trace[1].data) == Unpack(s.cmd).(sd := true)
      && Unpack(o.trace[1].data).res && Unpack(o.trace[1].data).it == s.cfg.it
      && o.trace[1].data & UnusedMask == 0
      && D.Valid(o.st)
  {
  }
}
