/** Bytes and the little-endian integers that memory, disk and packets hold. */
module Bytes {
  type Byte = b: int | 0 <= b < 256

  const DOS_A_32: int := 0x1_0000_0000
  const DOS_A_31: int := 0x8000_0000

  function Le32(n: int): (r: seq<Byte>)
    requires 0 <= n < DOS_A_32
    ensures |r| == 4
  {
    [n % 256, n / 256 % 256, n / 65536 % 256, n / 16777216]
  }

  function De32(b: seq<Byte>): (n: int)
    requires |b| == 4
    ensures 0 <= n < DOS_A_32
  {
    b[0] as int + 256 * b[1] as int + 65536 * b[2] as int + 16777216 * b[3] as int
  }

  lemma Ida32(n: int)
    requires 0 <= n < DOS_A_32
    ensures De32(Le32(n)) == n
  {
    assert n / 65536 == n / 256 / 256;
    assert n / 16777216 == n / 65536 / 256;
  }

  lemma Vuelta32(b: seq<Byte>)
    requires |b| == 4
    ensures Le32(De32(b)) == b
  {
    var n := De32(b);
    var b0: int, b1: int, b2: int, b3: int := b[0], b[1], b[2], b[3];
    assert n == b0 + 256 * (b1 + 256 * (b2 + 256 * b3));
    assert n / 256 == b1 + 256 * (b2 + 256 * b3);
    assert n / 65536 == n / 256 / 256 == b2 + 256 * b3;
    assert n / 16777216 == n / 65536 / 256 == b3;
    assert Le32(n)[0] == b[0] && Le32(n)[1] == b[1] && Le32(n)[2] == b[2] && Le32(n)[3] == b[3];
  }

  predicate EsInt(i: int) {
    -DOS_A_31 <= i < DOS_A_31
  }

  /** A C int, in two's complement. */
  function LeInt(i: int): (r: seq<Byte>)
    requires EsInt(i)
    ensures |r| == 4
  {
    Le32(if i < 0 then i + DOS_A_32 else i)
  }

  function DeInt(b: seq<Byte>): (i: int)
    requires |b| == 4
    ensures EsInt(i)
  {
    var n := De32(b);
    if n >= DOS_A_31 then n - DOS_A_32 else n
  }

  lemma IdaInt(i: int)
    requires EsInt(i)
    ensures DeInt(LeInt(i)) == i
  {
    Ida32(if i < 0 then i + DOS_A_32 else i);
  }

  lemma VueltaInt(b: seq<Byte>)
    requires |b| == 4
    ensures LeInt(DeInt(b)) == b
  {
    Vuelta32(b);
  }

  predicate EsSizeT(n: int) {
    0 <= n < DOS_A_32 * DOS_A_32
  }

  function Le64(n: int): (r: seq<Byte>)
    requires EsSizeT(n)
    ensures |r| == 8
  {
    assert n == DOS_A_32 * (n / DOS_A_32) + n % DOS_A_32;
    Le32(n % DOS_A_32) + Le32(n / DOS_A_32)
  }

  function De64(b: seq<Byte>): (n: int)
    requires |b| == 8
    ensures EsSizeT(n)
  {
    De32(b[..4]) + DOS_A_32 * De32(b[4..])
  }

  lemma Ida64(n: int)
    requires EsSizeT(n)
    ensures De64(Le64(n)) == n
  {
    Ida32(n % DOS_A_32);
    Ida32(n / DOS_A_32);
    assert Le64(n)[..4] == Le32(n % DOS_A_32) && Le64(n)[4..] == Le32(n / DOS_A_32);
  }

  lemma Vuelta64(b: seq<Byte>)
    requires |b| == 8
    ensures Le64(De64(b)) == b
  {
    Vuelta32(b[..4]);
    Vuelta32(b[4..]);
    Cociente(De32(b[..4]), De32(b[4..]));
    assert b == b[..4] + b[4..];
  }

  lemma Cociente(bajo: int, alto: int)
    requires 0 <= bajo < DOS_A_32
    ensures (bajo + DOS_A_32 * alto) / DOS_A_32 == alto && (bajo + DOS_A_32 * alto) % DOS_A_32 == bajo
  {
  }

  /** An int goes out modulo 2^32, and a size_t that fits in four bytes goes out as those and four zeros. */
  lemma FormaNumeros(i: int, n: int)
    requires EsInt(i) && 0 <= n < DOS_A_32
    ensures De32(LeInt(i)) == i % DOS_A_32
    ensures Le64(n) == Le32(n) + [0, 0, 0, 0]
  {
    Ida32(i % DOS_A_32);
    assert n % DOS_A_32 == n && n / DOS_A_32 == 0;
    assert Le32(0) == [0, 0, 0, 0];
  }

  /** memcpy of `valor` to address dir. */
  function Copiar(d: seq<Byte>, dir: nat, valor: seq<Byte>): (r: seq<Byte>)
    requires dir + |valor| <= |d|
    ensures |r| == |d|
    ensures forall x :: 0 <= x < |d| ==> r[x] == if dir <= x < dir + |valor| then valor[x - dir] else d[x]
  {
    seq(|d|, x requires 0 <= x < |d| => if dir <= x < dir + |valor| then valor[x - dir] else d[x])
  }
}
