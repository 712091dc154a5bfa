/** What the driver sees of the two-wire bus: the slave addresses it talks to, the
    transactions it issues, and the completion codes of a transmission.

    The transport itself is an oracle: every driver operation takes the transport's
    answers (byte counts, bytes, completion codes) as parameters and returns the
    transactions it issued as a trace of `Event`s. */
module Bus {

  /** A datasheet address is the 8-bit write address; the bus wants its 7-bit form. */
  function SlaveAddress(wire: bv8): (a: bv8)
    ensures a < 0x80
    ensures a << 1 == wire & 0xFE
  {
    wire >> 1
  }

  /** Alert response address, read to clear a latched interrupt. */
  const AddrAra: bv8 := SlaveAddress(0x18)
  /** Command register (write) address. */
  const AddrCmd: bv8 := SlaveAddress(0x70)
  /** Least significant byte of the UV reading. */
  const AddrLsb: bv8 := SlaveAddress(0x71)
  /** Most significant byte of the UV reading. */
  const AddrMsb: bv8 := SlaveAddress(0x73)

  /** Every address is a valid 7-bit address; the command address and the LSB read
      address coincide once shifted, and the MSB read address is distinct from both. */
  lemma AddressMap()
    ensures AddrAra == 0x0C && AddrCmd == 0x38 && AddrLsb == 0x38 && AddrMsb == 0x39
    ensures AddrAra < 0x80 && AddrCmd < 0x80 && AddrLsb < 0x80 && AddrMsb < 0x80
    ensures AddrCmd == AddrLsb && AddrMsb != AddrCmd && AddrAra != AddrCmd && AddrAra != AddrMsb
  {
  }

  /** One bus transaction issued by the driver:
      `Request` is `requestFrom(addr, quantity)`,
      `Transmit` is `beginTransmission(addr); write(data); endTransmission()`. */
  datatype Event =
    | Request(addr: bv8, quantity: nat)
    | Transmit(addr: bv8, data: bv8)

  /** The diagnostic categories `endTransmission`'s completion code is sorted into. */
  datatype Status =
    | Success
    | DataTooLong
    | AddressNack
    | DataNack
    | OtherError
    | Unknown(code: bv8)

  /** The completion-code switch of `write()`. */
  function StatusOf(code: bv8): (s: Status)
    ensures s.Success? <==> code == 0
    ensures s.Unknown? <==> code > 4
    ensures s.Unknown? ==> s.code == code
  {
    match code
    case 0 => Success
    case 1 => DataTooLong
    case 2 => AddressNack
    case 3 => DataNack
    case 4 => OtherError
    case _ => Unknown(code)
  }

  /** Different completion codes never share a diagnostic category, so the category
      determines the code (code 2 is told apart from code 3, for one). */
  lemma StatusDistinguishesCodes(c1: bv8, c2: bv8)
    ensures StatusOf(c1) == StatusOf(c2) <==> c1 == c2
  {
  }

  /** Every transaction in a trace goes to a 7-bit address. */
  predicate SevenBitTrace(t: seq<Event>) {
    forall i :: 0 <= i < |t| ==> t[i].addr < 0x80
  }
}
