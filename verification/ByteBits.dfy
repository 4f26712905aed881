/** Words as bits and as bytes. */
module ByteBits {
  function Joined(a: bv8, b: bv8, c: bv8, d: bv8): bv32 {
    ((d as bv32) << 24) | ((c as bv32) << 16) | ((b as bv32) << 8) | (a as bv32)
  }

  function ByteOf(b: bv32): bv8 { (b & 0xff) as bv8 }

  lemma JoinedBytes(a: bv8, b: bv8, c: bv8, d: bv8)
    ensures var w := Joined(a, b, c, d);
            ByteOf(w) == a && ByteOf(w >> 8) == b && ByteOf(w >> 16) == c && ByteOf(w >> 24) == d
  {}

  lemma BytesJoined(b: bv32)
    ensures Joined(ByteOf(b), ByteOf(b >> 8), ByteOf(b >> 16), ByteOf(b >> 24)) == b
  {}

  /** The eight bits of a number. */
  function Octet(x: nat): bv8
    requires x < 256
  {
    if x == 0 then 0 else (Octet(x / 2) << 1) | (if x % 2 == 1 then 1 else 0)
  }

  lemma Doubled(b: bv8, c: bv8)
    requires b < 128 && c <= 1
    ensures ((b << 1) | c) as int == 2 * (b as int) + (c as int)
  {}

  lemma Half(b: bv8)
    requires b as int < 128
    ensures b < 128
  {}

  lemma OctetStep(x: nat, b: bv8, c: bv8)
    requires b as int == x / 2 && x < 256 && c == if x % 2 == 1 then 1 else 0
    ensures ((b << 1) | c) as int == x
  {
    Half(b);
    Doubled(b, c);
  }

  lemma {:induction false} OctetValue(x: nat)
    requires x < 256
    ensures Octet(x) as int == x
  {
    if x > 0 {
      OctetValue(x / 2);
      OctetStep(x, Octet(x / 2), if x % 2 == 1 then 1 else 0);
    }
  }

  lemma SameValue(a: bv8, b: bv8)
    requires a as int == b as int
    ensures a == b
  {}

  lemma OctetBack(b: bv8, x: nat)
    requires x == b as int
    ensures x < 256 && Octet(x) == b
  {
    OctetValue(x);
    SameValue(Octet(x), b);
  }
}
