/** The packed two-bit slots of a status list: least significant pair first, as
    in section 4.1 of draft-ietf-oauth-status-list. */
module StatusBits {

  type Byte = bv8
  type Bits = seq<Byte>

  datatype StatusValue = Valid | Revoked | Suspended | Reserved

  const STATUS_LIST_BITS := 2
  const STATUS_LIST_CAPACITY := 131072
  const BITSTRING_BYTES := STATUS_LIST_CAPACITY * STATUS_LIST_BITS / 8

  function ToPair(v: StatusValue): Byte {
    match v
    case Valid => 0
    case Revoked => 1
    case Suspended => 2
    case Reserved => 3
  }

  function FromPair(p: Byte): StatusValue {
    if p == 0 then Valid else if p == 1 then Revoked else if p == 2 then Suspended else Reserved
  }

  function GetPair(b: Byte, k: nat): Byte
    requires k < 4
  {
    match k
    case 0 => b & 0x03
    case 1 => (b >> 2) & 0x03
    case 2 => (b >> 4) & 0x03
    case 3 => (b >> 6) & 0x03
  }

  function SetPair(b: Byte, k: nat, p: Byte): Byte
    requires k < 4
  {
    match k
    case 0 => (b & 0xFC) | p
    case 1 => (b & 0xF3) | (p << 2)
    case 2 => (b & 0xCF) | (p << 4)
    case 3 => (b & 0x3F) | (p << 6)
  }

  function SlotAt(bits: Bits, i: nat): StatusValue
    requires i < 4 * |bits|
  {
    FromPair(GetPair(bits[i / 4], i % 4))
  }

  function WithSlot(bits: Bits, i: nat, v: StatusValue): (r: Bits)
    requires i < 4 * |bits|
    ensures |r| == |bits|
  {
    bits[i / 4 := SetPair(bits[i / 4], i % 4, ToPair(v))]
  }

  /** What the packed bytes mean: one status value per slot. */
  ghost function Slots(bits: Bits): seq<StatusValue> {
    seq(4 * |bits|, i requires 0 <= i < 4 * |bits| => SlotAt(bits, i))
  }

  function Zeros(n: nat): (r: Bits)
    ensures |r| == n
    ensures forall i :: 0 <= i < 4 * n ==> SlotAt(r, i) == Valid
  {
    seq(n, _ => 0 as Byte)
  }

  /** Writing one slot changes that slot and no other, in the same byte or elsewhere. */
  lemma SlotLaw(bits: Bits, i: nat, v: StatusValue, j: nat)
    requires i < 4 * |bits| && j < 4 * |bits|
    ensures SlotAt(WithSlot(bits, i, v), j) == if j == i then v else SlotAt(bits, j)
  {
  }

  /** The byte edit refines the update of one element of the slot sequence. */
  lemma WithSlotRefines(bits: Bits, i: nat, v: StatusValue)
    requires i < 4 * |bits|
    ensures Slots(WithSlot(bits, i, v)) == Slots(bits)[i := v]
  {
    forall j | 0 <= j < 4 * |bits| ensures Slots(WithSlot(bits, i, v))[j] == Slots(bits)[i := v][j] {
      SlotLaw(bits, i, v, j);
    }
  }

  /** The wire format: slot i is the pair of bits 2 * (i mod 4) of byte i div 4, and 0, 1
      and 2 stand for valid, revoked and suspended. */
  lemma SlotWireFormat(bits: Bits, i: nat)
    requires i < 4 * |bits|
    ensures var pair := (bits[i / 4] >> (2 * (i % 4))) & 3;
            && (SlotAt(bits, i) == Valid <==> pair == 0)
            && (SlotAt(bits, i) == Revoked <==> pair == 1)
            && (SlotAt(bits, i) == Suspended <==> pair == 2)
  {
  }

  lemma BytesFromPairs(a: Byte, b: Byte)
    requires forall k :: 0 <= k < 4 ==> FromPair(GetPair(a, k)) == FromPair(GetPair(b, k))
    ensures a == b
  {
    assert FromPair(GetPair(a, 0)) == FromPair(GetPair(b, 0));
    assert FromPair(GetPair(a, 1)) == FromPair(GetPair(b, 1));
    assert FromPair(GetPair(a, 2)) == FromPair(GetPair(b, 2));
    assert FromPair(GetPair(a, 3)) == FromPair(GetPair(b, 3));
  }

  /** Packing loses nothing: equal slot sequences come from equal bytes. */
  lemma SlotsInjective(a: Bits, b: Bits)
    requires Slots(a) == Slots(b)
    ensures a == b
  {
    assert |Slots(a)| == 4 * |a| && |Slots(b)| == 4 * |b|;
    forall n | 0 <= n < |a| ensures a[n] == b[n] {
      forall k | 0 <= k < 4 ensures FromPair(GetPair(a[n], k)) == FromPair(GetPair(b[n], k)) {
        assert Slots(a)[4 * n + k] == Slots(b)[4 * n + k];
      }
      BytesFromPairs(a[n], b[n]);
    }
  }

  /** The in-place edit of the fetched bitstring buffer. An index outside the
      buffer is reported and leaves it as it was. */
  method SetAt(buf: array<Byte>, i: nat, v: StatusValue) returns (ok: bool)
    modifies buf
    ensures ok == (i < 4 * buf.Length)
    ensures ok ==> buf[..] == WithSlot(old(buf[..]), i, v)
    ensures ok ==> Slots(buf[..]) == Slots(old(buf[..]))[i := v]
    ensures !ok ==> buf[..] == old(buf[..])
  {
    if i >= 4 * buf.Length {
      return false;
    }
    WithSlotRefines(buf[..], i, v);
    buf[i / 4] := SetPair(buf[i / 4], i % 4, ToPair(v));
    ok := true;
  }
}
