/** The VEML6070 command register image and the integration-time encodings.

    The driver keeps one byte that it sends whole to the command address. The byte is
    split into five fields, least significant bit first:

      bit 0     SD       shutdown (standby) request
      bit 1     RES      reserved, documented as "must always be 1"
      bits 2-3  IT       integration time
      bit 4     ACK_THD  interrupt threshold step (102 or 145 steps)
      bit 5     ACK      interrupt enable
      bits 6-7  -        covered by no field, never written by a field update

    The source overlays a bit-field struct on the raw byte; here the overlay is an
    explicit Pack/Unpack pair and one setter per field, all on `bv8`. */
module Command {

  /** The four integration-time settings, in the order of their numeric values. */
  datatype IntegrationTime = Half | Single | Double | Quadruple

  /** The numeric value each integration-time enumerator is declared with. */
  function ItCode(it: IntegrationTime): (k: bv8)
    ensures k < 4
  {
    match it
    case Half => 0x00
    case Single => 0x01
    case Double => 0x02
    case Quadruple => 0x03
  }

  /** The enumerator a 2-bit IT value denotes. */
  function ItFromCode(k: bv8): (it: IntegrationTime)
    requires k < 4
    ensures ItCode(it) == k
  {
    if k == 0 then Half
    else if k == 1 then Single
    else if k == 2 then Double
    else Quadruple
  }

  /** The encodings are exactly 0..3, one per enumerator, so the enumeration and the
      2-bit IT field are in one-to-one correspondence. */
  lemma ItCodeBijective()
    ensures forall it :: ItFromCode(ItCode(it)) == it
    ensures forall a, b :: ItCode(a) == ItCode(b) ==> a == b
    ensures forall k: bv8 :: k < 4 ==> ItCode(ItFromCode(k)) == k
  {
  }

  const SdMask: bv8 := 0x01
  const ResMask: bv8 := 0x02
  const ItMask: bv8 := 0x0C
  const AckThdMask: bv8 := 0x10
  const AckMask: bv8 := 0x20
  /** Bits 6 and 7, which no field of the command register covers. */
  const UnusedMask: bv8 := 0xC0

  /** The five fields of the command register, as named values. */
  datatype Fields = Fields(sd: bool, res: bool, it: IntegrationTime, ackThd: bool, ack: bool)

  /** The image of a freshly zeroed buffer. */
  const ZeroFields := Fields(false, false, Half, false, false)

  function Flag(v: bool, mask: bv8): bv8 {
    if v then mask else 0
  }

  /** Places each field at its bit position; bits 6-7 of the result are zero. */
  function Pack(f: Fields): (b: bv8)
    ensures b & UnusedMask == 0
    ensures Unpack(b) == f
  {
    Flag(f.sd, SdMask) | Flag(f.res, ResMask) | (ItCode(f.it) << 2)
      | Flag(f.ackThd, AckThdMask) | Flag(f.ack, AckMask)
  }

  /** Reads the five fields out of a command byte, least significant bit first: SD is
      bit 0, RES bit 1, IT bits 2-3, ACK_THD bit 4 and ACK bit 5; bits 6-7 belong to no
      field. */
  function Unpack(b: bv8): (f: Fields)
    ensures f.sd <==> b % 2 == 1
    ensures f.res <==> b / 2 % 2 == 1
    ensures ItCode(f.it) == b / 4 % 4
    ensures f.ackThd <==> b / 16 % 2 == 1
    ensures f.ack <==> b / 32 % 2 == 1
  {
    Fields(b & SdMask != 0, b & ResMask != 0, ItFromCode((b >> 2) & 3),
           b & AckThdMask != 0, b & AckMask != 0)
  }

  /** Packing the unpacked fields restores every bit a field covers, and only those. */
  lemma PackUnpack(b: bv8)
    ensures Pack(Unpack(b)) == b & !UnusedMask
    ensures b & UnusedMask == 0 ==> Pack(Unpack(b)) == b
  {
  }

  /** Integration time k appears as k * 4 in the full byte: 0x00, 0x04, 0x08, 0x0C. */
  lemma ItPosition()
    ensures Pack(ZeroFields.(it := Half)) == 0x00
    ensures Pack(ZeroFields.(it := Single)) == 0x04
    ensures Pack(ZeroFields.(it := Double)) == 0x08
    ensures Pack(ZeroFields.(it := Quadruple)) == 0x0C
    ensures forall it :: Pack(ZeroFields.(it := it)) == ItCode(it) * 4
  {
  }

  function SetFlag(b: bv8, mask: bv8, v: bool): bv8 {
    if v then b | mask else b & !mask
  }

  /** `bitfield.SD = v`: only the SD field changes. */
  function WithSd(b: bv8, v: bool): (r: bv8)
    ensures Unpack(r) == Unpack(b).(sd := v)
    ensures r & UnusedMask == b & UnusedMask
  {
    SetFlag(b, SdMask, v)
  }

  /** `bitfield.RES = v`: only the RES field changes. */
  function WithRes(b: bv8, v: bool): (r: bv8)
    ensures Unpack(r) == Unpack(b).(res := v)
    ensures r & UnusedMask == b & UnusedMask
  {
    SetFlag(b, ResMask, v)
  }

  /** `bitfield.IT = it`: only the IT field changes. */
  function WithIt(b: bv8, it: IntegrationTime): (r: bv8)
    ensures Unpack(r) == Unpack(b).(it := it)
    ensures r & UnusedMask == b & UnusedMask
  {
    (b & !ItMask) | (ItCode(it) << 2)
  }

  /** `bitfield.ACK_THD = v`: only the ACK_THD field changes. */
  function WithAckThd(b: bv8, v: bool): (r: bv8)
    ensures Unpack(r) == Unpack(b).(ackThd := v)
    ensures r & UnusedMask == b & UnusedMask
  {
    SetFlag(b, AckThdMask, v)
  }

  /** `bitfield.ACK = v`: only the ACK field changes. */
  function WithAck(b: bv8, v: bool): (r: bv8)
    ensures Unpack(r) == Unpack(b).(ack := v)
    ensures r & UnusedMask == b & UnusedMask
  {
    SetFlag(b, AckMask, v)
  }
}
