/** Four-byte integers as the mesh packets carry them, lowest byte first. */
module Words {
  import opened Addresses

  const U32 := 0x1_0000_0000
  const I31 := 0x8000_0000

  predicate Int32(n: int) {
    -I31 <= n < I31
  }

  function Unsigned(b: seq<Byte>): nat
    requires |b| == 4
  {
    b[0] as int + 256 * b[1] as int + 65536 * b[2] as int + 16777216 * b[3] as int
  }

  function Signed(b: seq<Byte>): (n: int)
    requires |b| == 4
    ensures Int32(n) && (n - Unsigned(b)) % U32 == 0
  {
    var u := Unsigned(b);
    if u < I31 then u else u - U32
  }

  function Bytes(n: int): (b: seq<Byte>)
    requires Int32(n)
    ensures |b| == 4
  {
    var u := if n < 0 then n + U32 else n;
    [u % 256, u / 256 % 256, u / 65536 % 256, u / 16777216]
  }

  // The number whose digits to base 256 these are, the lowest first
  function Little(b: seq<Byte>): nat {
    if b == [] then 0 else b[0] + 256 * Little(b[1..])
  }

  lemma LittleThree(b: seq<Byte>)
    requires |b| == 3
    ensures Little(b) == b[0] as int + 256 * b[1] as int + 65536 * b[2] as int
  {
    var c := b[1..];
    assert c[1..] == [b[2]] && [b[2]][1..] == [];
    assert Little([b[2]]) == b[2] && Little(c) == b[1] + 256 * Little(c[1..]);
  }

  lemma UnsignedLittle(b: seq<Byte>)
    requires |b| == 4
    ensures Unsigned(b) == Little(b)
  {
    LittleThree(b[1..]);
  }

  lemma SignedBytes(n: int)
    requires Int32(n)
    ensures Signed(Bytes(n)) == n
  {
    var u := if n < 0 then n + U32 else n;
    var x, y := u / 256, u / 65536;
    assert x / 256 == y && y / 256 == u / 16777216;
    assert u == x * 256 + u % 256 && x == y * 256 + x % 256 && y == (y / 256) * 256 + y % 256;
  }
}
