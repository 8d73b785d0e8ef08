/** `Mininet.randMac`: a random 48-bit MAC address forced to be unicast and
    locally administered. The random draw (`random.randint(1, 2**48 - 1)`) is a
    parameter. */
module Mac {

  /** The multicast (I/G) bit: lowest bit of the first octet, bit 40 of the value. */
  const MulticastBit: bv48 := 0x0100_0000_0000
  /** The locally-administered (U/L) bit: second bit of the first octet, bit 41. */
  const LocalBit: bv48 := 0x0200_0000_0000
  /** The mask applied to the random draw (every bit but the multicast bit). */
  const DrawMask: bv48 := 0xfeff_ffff_ffff
  /** The bits `randMac` leaves to chance. */
  const FreeBits: bv48 := 0xfcff_ffff_ffff

  predicate IsUnicast(m: bv48) { m & MulticastBit == 0 }

  predicate IsLocallyAdministered(m: bv48) { m & LocalBit == LocalBit }

  /** The first octet of the colon-hex rendering. */
  function FirstOctet(m: bv48): bv8 { (m >> 40) as bv8 }

  /** The mask-and-set step of `randMac`, on the 48-bit value. */
  function ForceUnicastLocal(x: bv48): (m: bv48)
    ensures IsUnicast(m) && IsLocallyAdministered(m)
    ensures FirstOctet(m) & 1 == 0 && FirstOctet(m) & 2 == 2
    ensures m & FreeBits == x & FreeBits
  {
    (x & DrawMask) | LocalBit
  }

  /** The address `randMac` renders for the draw `r`. */
  function RandMac(r: int): (m: bv48)
    requires 1 <= r < 0x1_0000_0000_0000
    ensures IsUnicast(m) && IsLocallyAdministered(m)
  {
    ForceUnicastLocal(r as bv48)
  }

  /** Every unicast, locally administered address is a possible result:
      such an address is its own image, so `randMac` covers exactly that set. */
  lemma ForceFixesAdmissible(m: bv48)
    requires IsUnicast(m) && IsLocallyAdministered(m)
    ensures m != 0
    ensures ForceUnicastLocal(m) == m
  {
  }
}
