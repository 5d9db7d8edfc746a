/** What the comparison loop needs of eight-bit words. */
module MachineByte {

  lemma CastKeepsInt(n: int)
    requires 0 <= n < 256
    ensures (n as bv8) as int == n
  {
  }

  /** A running difference is zero only while everything compared so far agrees. */
  lemma OrXor(r: bv8, x: bv8, y: bv8)
    ensures r | (x ^ y) == 0 <==> r == 0 && x == y
  {
  }
}

/** Byte strings: what the bridge's `std::string` values are. */
module ByteText {
  import M = MachineByte

  newtype byte = x: int | 0 <= x < 256

  type Bytes = seq<byte>

  predicate IsDigit(b: byte) { 48 <= b <= 57 }

  predicate IsUpper(b: byte) { 65 <= b <= 90 }

  predicate IsLower(b: byte) { 97 <= b <= 122 }

  predicate IsAlnum(b: byte) { IsDigit(b) || IsUpper(b) || IsLower(b) }

  /** The value of a hexadecimal digit of either case, or -1. */
  function HexValue(b: byte): (v: int)
    ensures -1 <= v < 16
  {
    if IsDigit(b) then b as int - 48
    else if 65 <= b <= 70 then b as int - 55
    else if 97 <= b <= 102 then b as int - 87
    else -1
  }

  /** A byte survives the trip through a machine word. */
  lemma CastKeepsByte(b: byte)
    ensures (b as bv8) as byte == b
  {
    M.CastKeepsInt(b as int);
  }
}
