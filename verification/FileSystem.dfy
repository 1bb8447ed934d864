/** The filesystem server: a bitmap, a block array, and files made of data blocks and one index block. */
module FileSystem {
  import opened Listas
  import opened Bytes

  datatype Fcb = Fcb(nombre: string, tamanio: nat, datos: seq<nat>, indice: nat)

  /** bs is BLOCK_SIZE; the bitmap has one bit a block. */
  datatype Disco = Disco(bs: nat, bitmap: seq<bool>, bloques: seq<Byte>, fcbs: seq<Fcb>)

  // ---- Bitmap ----

  function PrimerLibre(bm: seq<bool>, i: nat): (r: Option<nat>)
    requires i <= |bm|
    ensures r.Some? ==> i <= r.value < |bm| && !bm[r.value] && forall j :: i <= j < r.value ==> bm[j]
    ensures r.None? ==> forall j :: i <= j < |bm| ==> bm[j]
    decreases |bm| - i
  {
    if i == |bm| then None else if !bm[i] then Some(i) else PrimerLibre(bm, i + 1)
  }

  function Libres(bm: seq<bool>): nat {
    if bm == [] then 0 else (if bm[0] then 0 else 1) + Libres(bm[1..])
  }

  lemma {:induction false} LibresCero(bm: seq<bool>)
    ensures Libres(bm) == 0 <==> forall j :: 0 <= j < |bm| ==> bm[j]
  {
    if bm == [] {
      // base case
    } else {
      LibresCero(bm[1..]);
      assert forall j :: 1 <= j < |bm| ==> bm[j] == bm[1..][j - 1];
      assert forall j :: 0 <= j < |bm[1..]| ==> bm[1..][j] == bm[j + 1];
    }
  }

  lemma {:induction false} LibresSetear(bm: seq<bool>, i: nat)
    requires i < |bm| && !bm[i]
    ensures Libres(bm[i := true]) == Libres(bm) - 1
  {
    if i > 0 {
      assert bm[i := true][1..] == bm[1..][i - 1 := true];
      LibresSetear(bm[1..], i - 1);
    } else {
      assert bm[i := true][1..] == bm[1..];
    }
  }

  /** n times: the first clear bit is set and its index recorded. */
  function Asignar(bm: seq<bool>, n: nat): (r: (seq<bool>, seq<nat>))
    requires n <= Libres(bm)
    ensures |r.0| == |bm|
    decreases n
  {
    if n == 0 then (bm, [])
    else
      LibresCero(bm);
      var i := PrimerLibre(bm, 0).value;
      LibresSetear(bm, i);
      var (bm1, ys) := Asignar(bm[i := true], n - 1);
      (bm1, [i] + ys)
  }

  predicate Ascendente(xs: seq<nat>) {
    forall j, k :: 0 <= j < k < |xs| ==> xs[j] < xs[k]
  }

  lemma AsignarPaso(bm: seq<bool>, n: nat)
    requires 1 <= n <= Libres(bm)
    ensures PrimerLibre(bm, 0).Some?
    ensures var i := PrimerLibre(bm, 0).value;
            && Libres(bm[i := true]) == Libres(bm) - 1
            && Asignar(bm, n).0 == Asignar(bm[i := true], n - 1).0
            && Asignar(bm, n).1 == [i] + Asignar(bm[i := true], n - 1).1
  {
    LibresCero(bm);
    LibresSetear(bm, PrimerLibre(bm, 0).value);
  }

  /** The blocks taken are the n lowest clear ones, in ascending order. */
  lemma {:induction false} AsignarMenores(bm: seq<bool>, n: nat)
    requires n <= Libres(bm)
    ensures var (r, xs) := Asignar(bm, n);
            && |xs| == n && Ascendente(xs) && Libres(r) == Libres(bm) - n
            && (forall k :: 0 <= k < n ==> xs[k] < |bm| && !bm[xs[k]])
            && (forall b :: 0 <= b < |bm| ==> (r[b] <==> bm[b] || b in xs))
            && (n > 0 ==> forall b :: 0 <= b < xs[n - 1] ==> r[b])
    decreases n
  {
    if n == 0 {
      // base case
    } else {
      AsignarPaso(bm, n);
      var i := PrimerLibre(bm, 0).value;
      AsignarMenores(bm[i := true], n - 1);
      var (r, ys) := Asignar(bm[i := true], n - 1);
      forall k | 0 <= k < |ys| ensures i < ys[k] && !bm[ys[k]] {
        assert !bm[i := true][ys[k]];
      }
      AsignarCabeza(bm, i, r, ys);
    }
  }

  lemma AsignarCabeza(bm: seq<bool>, i: nat, r: seq<bool>, ys: seq<nat>)
    requires i < |bm| == |r| && !bm[i] && (forall b :: 0 <= b < i ==> bm[b]) && Ascendente(ys)
    requires forall k :: 0 <= k < |ys| ==> i < ys[k] < |bm| && !bm[ys[k]]
    requires forall b :: 0 <= b < |bm| ==> (r[b] <==> bm[i := true][b] || b in ys)
    requires ys != [] ==> forall b :: 0 <= b < ys[|ys| - 1] ==> r[b]
    ensures var xs := [i] + ys;
            && Ascendente(xs) && (forall k :: 0 <= k < |xs| ==> xs[k] < |bm| && !bm[xs[k]])
            && (forall b :: 0 <= b < |bm| ==> (r[b] <==> bm[b] || b in xs))
            && (forall b :: 0 <= b < xs[|xs| - 1] ==> r[b])
  {
  }

  /** asignar_bloques_de_datos and then asignar_bloque_de_indice. */
  function Reservar(bm: seq<bool>, n: nat): (r: (seq<bool>, seq<nat>, nat))
    requires n + 1 <= Libres(bm)
    ensures |r.0| == |bm|
  {
    AsignarMenores(bm, n);
    var (bm1, datos) := Asignar(bm, n);
    AsignarMenores(bm1, 1);
    var (bm2, xs) := Asignar(bm1, 1);
    (bm2, datos, xs[0])
  }

  ghost predicate Reservado(bm: seq<bool>, r: seq<bool>, xs: seq<nat>) {
    && |r| == |bm|
    && (forall b :: b in xs ==> b < |bm| && !bm[b])
    && (forall b :: 0 <= b < |bm| ==> (r[b] <==> bm[b] || b in xs))
  }

  /** Everything below the last block of xs is taken. */
  predicate SinHuecosAntes(r: seq<bool>, xs: seq<nat>) {
    xs != [] ==> forall b :: 0 <= b < |r| && b < xs[|xs| - 1] ==> r[b]
  }

  lemma AsignarReserva(bm: seq<bool>, n: nat)
    requires n <= Libres(bm)
    ensures var (r, xs) := Asignar(bm, n);
            Reservado(bm, r, xs) && |xs| == n && Ascendente(xs) && Libres(r) == Libres(bm) - n && SinHuecosAntes(r, xs)
  {
    AsignarMenores(bm, n);
  }

  /** The data blocks, then the index block: the lowest clear blocks again, so the index block comes last. */
  lemma ReservarForma(bm: seq<bool>, n: nat)
    requires n + 1 <= Libres(bm)
    ensures var (r, datos, ix) := Reservar(bm, n);
            && |datos| == n && Ascendente(datos + [ix]) && Libres(r) == Libres(bm) - (n + 1)
            && Reservado(bm, r, datos + [ix]) && SinHuecosAntes(r, datos + [ix])
  {
    AsignarReserva(bm, n);
    var (bm1, datos) := Asignar(bm, n);
    AsignarReserva(bm1, 1);
    var (bm2, xs) := Asignar(bm1, 1);
    assert xs == [xs[0]];
    SeguidoDe(bm, bm1, bm2, datos, xs[0]);
  }

  lemma SeguidoDe(bm: seq<bool>, bm1: seq<bool>, bm2: seq<bool>, datos: seq<nat>, ix: nat)
    requires Reservado(bm, bm1, datos) && Ascendente(datos) && SinHuecosAntes(bm1, datos)
    requires Reservado(bm1, bm2, [ix]) && SinHuecosAntes(bm2, [ix])
    ensures Ascendente(datos + [ix]) && Reservado(bm, bm2, datos + [ix]) && SinHuecosAntes(bm2, datos + [ix])
  {
    assert ix in [ix];
    forall k | 0 <= k < |datos| ensures datos[k] < ix {
      assert datos[k] in datos;
      assert bm1[datos[k]] && !bm1[ix];
      assert datos[k] <= datos[|datos| - 1];
    }
  }

  // ---- Blocks ----

  /** The address of block b. It is b times bs (DirEs); stated as a recursion it keeps the proofs linear. */
  function Dir(b: nat, bs: nat): nat {
    if b == 0 then 0 else Dir(b - 1, bs) + bs
  }

  lemma {:induction false} DirEs(b: nat, bs: nat)
    ensures Dir(b, bs) == b * bs
  {
    if b == 0 {
      // base case
    } else {
      DirEs(b - 1, bs);
      assert b * bs == (b - 1) * bs + bs;
    }
  }

  lemma {:induction false} DirOrden(a: nat, b: nat, bs: nat)
    requires a < b
    ensures Dir(a, bs) + bs <= Dir(b, bs)
    decreases b
  {
    if a == b - 1 {
      // base case
    } else {
      DirOrden(a, b - 1, bs);
    }
  }

  predicate EnBloque(x: nat, b: nat, bs: nat) {
    Dir(b, bs) <= x < Dir(b, bs) + bs
  }

  lemma UnSoloBloque(x: nat, a: nat, b: nat, bs: nat)
    requires EnBloque(x, a, bs) && EnBloque(x, b, bs)
    ensures a == b
  {
    if a < b { DirOrden(a, b, bs); }
    if b < a { DirOrden(b, a, bs); }
  }

  /** tamanio_en_bloques: one block for the empty file, otherwise the ceiling. */
  function TamanioEnBloques(t: nat, bs: nat): (n: nat)
    requires bs >= 1
    ensures n >= 1 && t <= Dir(n, bs) && (t > 0 ==> Dir(n - 1, bs) < t)
  {
    if t == 0 then 1
    else
      Techo(t, bs);
      (t + bs - 1) / bs
  }

  lemma Techo(t: nat, bs: nat)
    requires bs >= 1 && t >= 1
    ensures var n := (t + bs - 1) / bs; n >= 1 && t <= Dir(n, bs) && Dir(n - 1, bs) < t
  {
    var n := (t + bs - 1) / bs;
    assert n * bs <= t + bs - 1 < n * bs + bs;
    assert n != 0;
    assert (n - 1) * bs == n * bs - bs;
    DirEs(n, bs);
    DirEs(n - 1, bs);
  }

  /** The k-th uint32 of an index block. */
  function Entera(r: seq<Byte>, k: nat): nat
    requires 4 * k + 4 <= |r|
  {
    De32(r[4 * k..4 * k + 4])
  }

  lemma EnteraUnida(p: seq<Byte>, q: seq<Byte>, k: nat)
    requires 4 * k + 4 <= |p|
    ensures Entera(p + q, k) == Entera(p, k)
  {
    assert (p + q)[4 * k..4 * k + 4] == p[4 * k..4 * k + 4];
  }

  lemma EnteraUltima(p: seq<Byte>, n: nat, k: nat)
    requires |p| == 4 * k && n < DOS_A_32
    ensures Entera(p + Le32(n), k) == n
  {
    assert (p + Le32(n))[4 * k..4 * k + 4] == Le32(n);
    Ida32(n);
  }

  /** The data block indices as escribir_bloque_de_indice lays them out. */
  function Indices(datos: seq<nat>): (r: seq<Byte>)
    requires forall k :: 0 <= k < |datos| ==> datos[k] < DOS_A_32
    ensures |r| == 4 * |datos|
    ensures forall k :: 0 <= k < |datos| ==> Entera(r, k) == datos[k]
  {
    if datos == [] then []
    else
      var n := |datos| - 1;
      var p := Indices(datos[..n]);
      assert forall k :: 0 <= k < n ==> Entera(p + Le32(datos[n]), k) == datos[k] by {
        forall k | 0 <= k < n ensures Entera(p + Le32(datos[n]), k) == datos[k] { EnteraUnida(p, Le32(datos[n]), k); }
      }
      EnteraUltima(p, datos[n], n);
      p + Le32(datos[n])
  }

  /** The index block's k-th entry. */
  function Entrada(bloques: seq<Byte>, bs: nat, indice: nat, k: nat): nat
    requires Dir(indice, bs) + 4 * k + 4 <= |bloques|
  {
    De32(bloques[Dir(indice, bs) + 4 * k..Dir(indice, bs) + 4 * k + 4])
  }

  /** The whole blocks in a length: its quotient by bs (PartesEs). Like Dir, a recursion to keep the proofs linear. */
  function Llenos(len: nat, bs: nat): nat
    requires bs >= 1
    decreases len
  {
    if len < bs then 0 else Llenos(len - bs, bs) + 1
  }

  /** The bytes after the whole blocks: the remainder. */
  function Resto(len: nat, bs: nat): (r: nat)
    requires bs >= 1
    ensures r < bs
    decreases len
  {
    if len < bs then len else Resto(len - bs, bs)
  }

  lemma {:induction false} PartesEs(len: nat, bs: nat)
    requires bs >= 1
    ensures Llenos(len, bs) == len / bs && Resto(len, bs) == len % bs
    decreases len
  {
    if len < bs {
      assert Dir(0, bs) == 0;
      Cociente(len, 0, len, bs);
    } else {
      PartesEs(len - bs, bs);
      UnBloqueMas(len, bs);
    }
  }

  lemma UnBloqueMas(len: nat, bs: nat)
    requires 1 <= bs <= len
    ensures len / bs == (len - bs) / bs + 1 && len % bs == (len - bs) % bs
  {
    var q, r := (len - bs) / bs, (len - bs) % bs;
    assert len - bs == q * bs + r;
    DirEs(q, bs);
    assert Dir(q + 1, bs) == Dir(q, bs) + bs;
    Cociente(len, q + 1, r, bs);
  }

  lemma Cociente(x: nat, q: nat, r: nat, bs: nat)
    requires bs >= 1 && r < bs && x == Dir(q, bs) + r
    ensures x / bs == q && x % bs == r
  {
    var p, s := x / bs, x % bs;
    assert x == p * bs + s && s < bs;
    DirEs(p, bs);
    if p < q { DirOrden(p, q, bs); }
    if q < p { DirOrden(q, p, bs); }
  }

  /** A message as the program has it: the memory that its pointer leads to, and its length. What the memory holds
      past the length is whatever happens to be there. */
  datatype Mensaje = Mensaje(memoria: seq<Byte>, largo: nat)

  /** What escribir_bloques_de_datos writes at block k: full blocks, then what is left of the message. With no
      remainder every block is written whole. */
  function Trozo(msg: Mensaje, bs: nat, k: nat): (r: seq<Byte>)
    requires bs >= 1 && EnRango(msg, bs, k)
    ensures |r| <= bs
  {
    if k < Llenos(msg.largo, bs) || Resto(msg.largo, bs) == 0 then msg.memoria[Dir(k, bs)..Dir(k, bs) + bs]
    else if k == Llenos(msg.largo, bs) then msg.memoria[Dir(k, bs)..Dir(k, bs) + Resto(msg.largo, bs)]
    else []
  }

  /** The write of block k reads no byte past the memory. */
  predicate EnRango(msg: Mensaje, bs: nat, k: nat)
    requires bs >= 1
  {
    if k < Llenos(msg.largo, bs) || Resto(msg.largo, bs) == 0 then Dir(k, bs) + bs <= |msg.memoria|
    else k == Llenos(msg.largo, bs) ==> Dir(k, bs) + Resto(msg.largo, bs) <= |msg.memoria|
  }

  predicate TodoEnRango(msg: Mensaje, bs: nat, n: nat)
    requires bs >= 1
  {
    forall k :: 0 <= k < n ==> EnRango(msg, bs, k)
  }

  lemma {:induction false} Partes(len: nat, bs: nat)
    requires bs >= 1
    ensures len == Dir(Llenos(len, bs), bs) + Resto(len, bs)
    decreases len
  {
    if len < bs {
      // base case
    } else {
      Partes(len - bs, bs);
    }
  }

  /** Every write stays inside the memory exactly when the message has a remainder or the memory fills all the blocks;
      with nothing past the message, when the message has a remainder or fills all the blocks. */
  lemma LecturaEnRango(msg: Mensaje, bs: nat, n: nat)
    requires bs >= 1 && n >= 1 && msg.largo <= Dir(n, bs) && msg.largo <= |msg.memoria|
    ensures TodoEnRango(msg, bs, n) <==> Resto(msg.largo, bs) != 0 || Dir(n, bs) <= |msg.memoria|
    ensures |msg.memoria| == msg.largo ==>
      (TodoEnRango(msg, bs, n) <==> Resto(msg.largo, bs) != 0 || msg.largo == Dir(n, bs))
  {
    var q := Llenos(msg.largo, bs);
    Partes(msg.largo, bs);
    forall k | 0 <= k < q ensures Dir(k, bs) + bs <= |msg.memoria| { DirOrden(k, q, bs); }
    if Resto(msg.largo, bs) == 0 && Dir(n, bs) > |msg.memoria| {
      assert !EnRango(msg, bs, n - 1);
    } else if Resto(msg.largo, bs) == 0 {
      forall k | 0 <= k < n ensures EnRango(msg, bs, k) { DirOrden(k, n, bs); }
    }
  }

  /** A message of one block dumped from a partition of two: the second block is written from past its end. */
  lemma LecturaFuera(msg: Mensaje)
    requires msg.largo == |msg.memoria| == 8
    ensures TamanioEnBloques(16, 8) == 2 && 4 * 2 <= 8 && msg.largo <= 16
    ensures !EnRango(msg, 8, 1) && !TodoEnRango(msg, 8, 2)
  {
    DirEs(1, 8);
  }

  predicate BloqueOk(bloques: seq<Byte>, bs: nat, b: nat) {
    Dir(b, bs) + bs <= |bloques|
  }

  predicate BloquesOk(bloques: seq<Byte>, bs: nat, datos: seq<nat>) {
    forall k :: 0 <= k < |datos| ==> BloqueOk(bloques, bs, datos[k])
  }

  /** One turn of the data loop. Escribible says that it stays inside the array and the memory of the message. */
  function Tras(bloques: seq<Byte>, bs: nat, datos: seq<nat>, msg: Mensaje, k: nat): (r: seq<Byte>)
    requires bs >= 1 && k < |datos|
    ensures |r| == |bloques|
  {
    if BloqueOk(bloques, bs, datos[k]) && EnRango(msg, bs, k) then
      Copiar(bloques, Dir(datos[k], bs), Trozo(msg, bs, k))
    else bloques
  }

  lemma TrasFuera(bloques: seq<Byte>, bs: nat, datos: seq<nat>, msg: Mensaje, k: nat, x: nat)
    requires bs >= 1 && k < |datos| && x < |bloques| && !EnBloque(x, datos[k], bs)
    ensures Tras(bloques, bs, datos, msg, k)[x] == bloques[x]
  {
  }

  lemma TrasDentro(bloques: seq<Byte>, bs: nat, datos: seq<nat>, msg: Mensaje, k: nat, off: nat)
    requires bs >= 1 && k < |datos| && BloqueOk(bloques, bs, datos[k]) && EnRango(msg, bs, k) && off < |Trozo(msg, bs, k)|
    ensures Tras(bloques, bs, datos, msg, k)[Dir(datos[k], bs) + off] == Trozo(msg, bs, k)[off]
  {
  }

  function EscribirDatos(bloques: seq<Byte>, bs: nat, datos: seq<nat>, msg: Mensaje, k: nat): (r: seq<Byte>)
    requires bs >= 1 && k <= |datos|
    ensures |r| == |bloques|
    decreases |datos| - k
  {
    if k == |datos| then bloques
    else EscribirDatos(Tras(bloques, bs, datos, msg, k), bs, datos, msg, k + 1)
  }

  predicate Fuera(datos: seq<nat>, bs: nat, k: nat, x: nat) {
    forall j :: k <= j < |datos| ==> !EnBloque(x, datos[j], bs)
  }

  lemma FueraDesde(datos: seq<nat>, bs: nat, k: nat, x: nat)
    requires k < |datos| && Fuera(datos, bs, k, x)
    ensures !EnBloque(x, datos[k], bs) && Fuera(datos, bs, k + 1, x)
  {
  }

  /** The blocks after turn k of the loop, from which the rest of it goes on. */
  lemma UnaVuelta(bloques: seq<Byte>, bs: nat, datos: seq<nat>, msg: Mensaje, k: nat) returns (b: seq<Byte>)
    requires bs >= 1 && k < |datos|
    ensures |b| == |bloques| && EscribirDatos(bloques, bs, datos, msg, k) == EscribirDatos(b, bs, datos, msg, k + 1)
  {
    b := Tras(bloques, bs, datos, msg, k);
  }

  lemma VueltaFuera(bloques: seq<Byte>, bs: nat, datos: seq<nat>, msg: Mensaje, k: nat, x: nat) returns (b: seq<Byte>)
    requires bs >= 1 && k < |datos| && x < |bloques| && !EnBloque(x, datos[k], bs)
    ensures |b| == |bloques| && b[x] == bloques[x]
    ensures EscribirDatos(bloques, bs, datos, msg, k) == EscribirDatos(b, bs, datos, msg, k + 1)
  {
    TrasFuera(bloques, bs, datos, msg, k, x);
    b := Tras(bloques, bs, datos, msg, k);
  }

  /** Bytes outside the blocks still to be written keep their value. */
  lemma {:induction false} EscribirFuera(bloques: seq<Byte>, bs: nat, datos: seq<nat>, msg: Mensaje, k: nat, x: nat)
    requires bs >= 1 && k <= |datos| && x < |bloques| && Fuera(datos, bs, k, x)
    ensures EscribirDatos(bloques, bs, datos, msg, k)[x] == bloques[x]
    decreases |datos| - k
  {
    if k == |datos| {
      // base case
    } else {
      FueraDesde(datos, bs, k, x);
      var b := VueltaFuera(bloques, bs, datos, msg, k, x);
      EscribirFuera(b, bs, datos, msg, k + 1, x);
    }
  }

  lemma FueraDeOtros(datos: seq<nat>, bs: nat, k: nat, b: nat, x: nat)
    requires k <= |datos| && EnBloque(x, b, bs) && forall j :: k <= j < |datos| ==> datos[j] != b
    ensures Fuera(datos, bs, k, x)
  {
    forall j | k <= j < |datos| ensures !EnBloque(x, datos[j], bs) {
      if EnBloque(x, datos[j], bs) {
        UnSoloBloque(x, datos[j], b, bs);
        assert false;
      }
    }
  }

  lemma VueltaDentro(bloques: seq<Byte>, bs: nat, datos: seq<nat>, msg: Mensaje, k: nat, off: nat) returns (b: seq<Byte>)
    requires bs >= 1 && k < |datos| && BloqueOk(bloques, bs, datos[k]) && EnRango(msg, bs, k) && off < |Trozo(msg, bs, k)|
    ensures |b| == |bloques| && b[Dir(datos[k], bs) + off] == Trozo(msg, bs, k)[off]
    ensures EscribirDatos(bloques, bs, datos, msg, k) == EscribirDatos(b, bs, datos, msg, k + 1)
  {
    TrasDentro(bloques, bs, datos, msg, k, off);
    b := Tras(bloques, bs, datos, msg, k);
  }

  lemma {:induction false} EscribirDentro(bloques: seq<Byte>, bs: nat, datos: seq<nat>, msg: Mensaje, k: nat, j: nat, off: nat)
    requires bs >= 1 && k <= j < |datos| && BloqueOk(bloques, bs, datos[j]) && SinRepetidos(datos)
    requires EnRango(msg, bs, j) && off < |Trozo(msg, bs, j)|
    ensures EscribirDatos(bloques, bs, datos, msg, k)[Dir(datos[j], bs) + off] == Trozo(msg, bs, j)[off]
    decreases j - k
  {
    if k == j {
      EscribirAhora(bloques, bs, datos, msg, j, off);
    } else {
      var b := UnaVuelta(bloques, bs, datos, msg, k);
      EscribirDentro(b, bs, datos, msg, k + 1, j, off);
    }
  }

  lemma EscribirAhora(bloques: seq<Byte>, bs: nat, datos: seq<nat>, msg: Mensaje, j: nat, off: nat)
    requires bs >= 1 && j < |datos| && BloqueOk(bloques, bs, datos[j]) && SinRepetidos(datos)
    requires EnRango(msg, bs, j) && off < |Trozo(msg, bs, j)|
    ensures EscribirDatos(bloques, bs, datos, msg, j)[Dir(datos[j], bs) + off] == Trozo(msg, bs, j)[off]
  {
    var b := VueltaDentro(bloques, bs, datos, msg, j, off);
    QuedaEscrito(b, bs, datos, msg, j, off);
  }

  /** A block already written is not written again. */
  lemma QuedaEscrito(b1: seq<Byte>, bs: nat, datos: seq<nat>, msg: Mensaje, k: nat, off: nat)
    requires bs >= 1 && k < |datos| && SinRepetidos(datos)
    requires off < bs && Dir(datos[k], bs) + off < |b1|
    ensures EscribirDatos(b1, bs, datos, msg, k + 1)[Dir(datos[k], bs) + off] == b1[Dir(datos[k], bs) + off]
  {
    FueraDeOtros(datos, bs, k + 1, datos[k], Dir(datos[k], bs) + off);
    EscribirFuera(b1, bs, datos, msg, k + 1, Dir(datos[k], bs) + off);
  }

  // ---- The dump transaction ----

  predicate Forma(d: Disco) {
    d.bs >= 1 && |d.bloques| == Dir(|d.bitmap|, d.bs) && |d.bitmap| <= DOS_A_31
  }

  /** What a request must satisfy: its index fits one block, the message fits the partition, and the memory holds what
      the program reads of it. */
  predicate Pedido(bs: nat, tam: nat, msg: Mensaje)
    requires bs >= 1
  {
    var n := TamanioEnBloques(tam, bs);
    && 4 * n <= bs && msg.largo <= tam
    && msg.largo <= |msg.memoria| && (Resto(msg.largo, bs) != 0 || Dir(n, bs) <= |msg.memoria|)
  }

  lemma BloquesEnteros(d: Disco, datos: seq<nat>)
    requires Forma(d) && forall k :: 0 <= k < |datos| ==> datos[k] < |d.bitmap|
    ensures BloquesOk(d.bloques, d.bs, datos)
  {
    forall k | 0 <= k < |datos| ensures BloqueOk(d.bloques, d.bs, datos[k]) { DirOrden(datos[k], |d.bitmap|, d.bs); }
  }

  predicate Acepta(d: Disco, tam: nat)
    requires d.bs >= 1
  {
    TamanioEnBloques(tam, d.bs) + 1 <= Libres(d.bitmap)
  }

  /** A refused request writes nothing, so nothing is asked of it. */
  predicate Atendible(d: Disco, tam: nat, msg: Mensaje)
    requires d.bs >= 1
  {
    Acepta(d, tam) ==> Pedido(d.bs, tam, msg)
  }

  function NuevoFcb(d: Disco, nombre: string, tam: nat): Fcb
    requires d.bs >= 1 && Acepta(d, tam)
  {
    var (_, datos, ix) := Reservar(d.bitmap, TamanioEnBloques(tam, d.bs));
    Fcb(nombre, tam, datos, ix)
  }

  /** The writes of a dump land inside the block array and read inside the memory of the message. */
  predicate Escribible(d: Disco, f: Fcb, msg: Mensaje) {
    && d.bs >= 1 && BloquesOk(d.bloques, d.bs, f.datos) && BloqueOk(d.bloques, d.bs, f.indice) && 4 * |f.datos| <= d.bs
    && (forall k :: 0 <= k < |f.datos| ==> f.datos[k] < DOS_A_32)
    && TodoEnRango(msg, d.bs, |f.datos|)
  }

  lemma EsEscribible(d: Disco, nombre: string, tam: nat, msg: Mensaje)
    requires Forma(d) && Pedido(d.bs, tam, msg) && Acepta(d, tam)
    ensures Escribible(d, NuevoFcb(d, nombre, tam), msg)
  {
    var n := TamanioEnBloques(tam, d.bs);
    ReservarForma(d.bitmap, n);
    var f := NuevoFcb(d, nombre, tam);
    forall k | 0 <= k < |f.datos| ensures f.datos[k] < |d.bitmap| { assert f.datos[k] in f.datos + [f.indice]; }
    assert f.indice in f.datos + [f.indice];
    DirOrden(f.indice, |d.bitmap|, d.bs);
    BloquesEnteros(d, f.datos);
    LecturaEnRango(msg, d.bs, n);
  }

  /** The block array with the index block written. */
  function ConIndice(d: Disco, f: Fcb): (r: seq<Byte>)
    requires BloqueOk(d.bloques, d.bs, f.indice) && 4 * |f.datos| <= d.bs
    requires forall k :: 0 <= k < |f.datos| ==> f.datos[k] < DOS_A_32
    ensures |r| == |d.bloques|
  {
    Copiar(d.bloques, Dir(f.indice, d.bs), Indices(f.datos))
  }

  /** The index block and then the data blocks. */
  function Escrito(d: Disco, f: Fcb, msg: Mensaje): (r: seq<Byte>)
    requires Escribible(d, f, msg)
    ensures |r| == |d.bloques|
  {
    EscribirDatos(ConIndice(d, f), d.bs, f.datos, msg, 0)
  }

  /** atender_memory_dump for a name not used before; the second component is the answer. */
  function Dump(d: Disco, nombre: string, tam: nat, msg: Mensaje): (r: (Disco, bool))
    requires Forma(d) && Atendible(d, tam, msg)
    ensures r.0.bs == d.bs && |r.0.bitmap| == |d.bitmap| && |r.0.bloques| == |d.bloques|
  {
    if Acepta(d, tam) then
      EsEscribible(d, nombre, tam, msg);
      var f := NuevoFcb(d, nombre, tam);
      (Disco(d.bs, Reservar(d.bitmap, TamanioEnBloques(tam, d.bs)).0, Escrito(d, f, msg), d.fcbs + [f]), true)
    else (d, false)
  }

  // ---- Invariant ----

  function Propios(f: Fcb): seq<nat> {
    f.datos + [f.indice]
  }

  ghost predicate FcbOk(d: Disco, f: Fcb)
    requires Forma(d)
  {
    && |f.datos| == TamanioEnBloques(f.tamanio, d.bs) && 4 * |f.datos| <= d.bs
    && SinRepetidos(Propios(f))
    && (forall k :: 0 <= k < |Propios(f)| ==> Propios(f)[k] < |d.bitmap|)
    && IndiceOk(d.bloques, d.bs, f)
  }

  predicate IndiceOk(bloques: seq<Byte>, bs: nat, f: Fcb) {
    && Dir(f.indice, bs) + 4 * |f.datos| <= |bloques|
    && (forall k :: 0 <= k < |f.datos| ==> Entrada(bloques, bs, f.indice, k) == f.datos[k])
  }

  predicate Ajenos(xs: seq<nat>, ys: seq<nat>) {
    forall b :: b in xs ==> b !in ys
  }

  predicate DeAlguno(fcbs: seq<Fcb>, b: nat) {
    exists k :: 0 <= k < |fcbs| && b in Propios(fcbs[k])
  }

  /** `previos` are the blocks already taken when the server started. Set bits are exactly those and the files' own
      blocks, and no block has two owners. */
  ghost predicate Inv(d: Disco, previos: set<nat>) {
    && Forma(d)
    && (forall k :: 0 <= k < |d.fcbs| ==> FcbOk(d, d.fcbs[k]))
    && (forall j, k :: 0 <= j < k < |d.fcbs| ==> Ajenos(Propios(d.fcbs[j]), Propios(d.fcbs[k])))
    && (forall b :: b in previos ==> !DeAlguno(d.fcbs, b))
    && (forall b :: 0 <= b < |d.bitmap| ==> (d.bitmap[b] <==> b in previos || DeAlguno(d.fcbs, b)))
  }

  // ---- One dump ----

  lemma NuevoForma(d: Disco, nombre: string, tam: nat)
    requires Forma(d) && Acepta(d, tam)
    ensures var f := NuevoFcb(d, nombre, tam);
            && |f.datos| == TamanioEnBloques(tam, d.bs) && f.nombre == nombre && f.tamanio == tam
            && Ascendente(Propios(f)) && SinRepetidos(Propios(f))
            && (forall b :: b in Propios(f) ==> b < |d.bitmap| && !d.bitmap[b])
  {
    ReservarForma(d.bitmap, TamanioEnBloques(tam, d.bs));
  }

  /** No byte outside the new file's blocks changes. */
  lemma EscritoFuera(d: Disco, f: Fcb, msg: Mensaje, b: nat, x: nat)
    requires Escribible(d, f, msg) && x < |d.bloques| && EnBloque(x, b, d.bs) && b !in Propios(f)
    ensures Escrito(d, f, msg)[x] == d.bloques[x]
  {
    forall j | 0 <= j < |f.datos| ensures f.datos[j] != b { assert Propios(f)[j] == f.datos[j]; }
    FueraDeOtros(f.datos, d.bs, 0, b, x);
    EscribirFuera(ConIndice(d, f), d.bs, f.datos, msg, 0, x);
    IndiceFuera(d, f, b, x);
  }

  lemma IndiceFuera(d: Disco, f: Fcb, b: nat, x: nat)
    requires BloqueOk(d.bloques, d.bs, f.indice) && 4 * |f.datos| <= d.bs
    requires forall k :: 0 <= k < |f.datos| ==> f.datos[k] < DOS_A_32
    requires x < |d.bloques| && EnBloque(x, b, d.bs) && b !in Propios(f)
    ensures ConIndice(d, f)[x] == d.bloques[x]
  {
    assert Propios(f)[|f.datos|] == f.indice;
    if EnBloque(x, f.indice, d.bs) { UnSoloBloque(x, f.indice, b, d.bs); }
  }

  lemma EscritoDatos(d: Disco, f: Fcb, msg: Mensaje, j: nat, off: nat)
    requires Escribible(d, f, msg) && SinRepetidos(f.datos) && j < |f.datos|
    requires EnRango(msg, d.bs, j) && off < |Trozo(msg, d.bs, j)|
    ensures Dir(f.datos[j], d.bs) + off < |d.bloques|
    ensures Escrito(d, f, msg)[Dir(f.datos[j], d.bs) + off] == Trozo(msg, d.bs, j)[off]
  {
    assert BloqueOk(d.bloques, d.bs, f.datos[j]);
    EscritoEs(d, f, msg);
    DatosEn(d, f, ConIndice(d, f), msg, j, off);
  }

  lemma EscritoEs(d: Disco, f: Fcb, msg: Mensaje)
    requires Escribible(d, f, msg)
    ensures Escrito(d, f, msg) == EscribirDatos(ConIndice(d, f), d.bs, f.datos, msg, 0)
  {
  }

  lemma DatosEn(d: Disco, f: Fcb, b: seq<Byte>, msg: Mensaje, j: nat, off: nat)
    requires d.bs >= 1 && |b| == |d.bloques| && j < |f.datos| && BloqueOk(d.bloques, d.bs, f.datos[j])
    requires SinRepetidos(f.datos) && EnRango(msg, d.bs, j) && off < |Trozo(msg, d.bs, j)|
    ensures EscribirDatos(b, d.bs, f.datos, msg, 0)[Dir(f.datos[j], d.bs) + off] == Trozo(msg, d.bs, j)[off]
  {
    EscribirDentro(b, d.bs, f.datos, msg, 0, j, off);
  }

  /** The index block survives the data writes. */
  lemma EscritoIndice(d: Disco, f: Fcb, msg: Mensaje)
    requires Escribible(d, f, msg) && SinRepetidos(Propios(f))
    ensures IndiceOk(Escrito(d, f, msg), d.bs, f)
  {
    forall k | 0 <= k < |f.datos| ensures Entrada(Escrito(d, f, msg), d.bs, f.indice, k) == f.datos[k] {
      EscritoEntrada(d, f, msg, k);
    }
  }

  lemma EscritoEntrada(d: Disco, f: Fcb, msg: Mensaje, k: nat)
    requires Escribible(d, f, msg) && SinRepetidos(Propios(f)) && k < |f.datos|
    ensures Entrada(Escrito(d, f, msg), d.bs, f.indice, k) == f.datos[k]
  {
    IndiceNoEsDato(f);
    forall x | Dir(f.indice, d.bs) <= x < Dir(f.indice, d.bs) + d.bs ensures Escrito(d, f, msg)[x] == ConIndice(d, f)[x] {
      FueraDeOtros(f.datos, d.bs, 0, f.indice, x);
      EscribirFuera(ConIndice(d, f), d.bs, f.datos, msg, 0, x);
    }
    UnaEntrada(d, f, k);
    MismaEntrada(ConIndice(d, f), Escrito(d, f, msg), d.bs, f.indice, k);
  }

  /** Byte `off` of the j-th data block of a dump: the message's, or what the memory holds past it when the blocks are
      written whole; what was there before, where nothing is written. */
  lemma EscritoByte(d: Disco, f: Fcb, msg: Mensaje, j: nat, off: nat)
    requires Escribible(d, f, msg) && SinRepetidos(Propios(f)) && j < |f.datos| && off < d.bs
    requires msg.largo <= |msg.memoria|
    ensures Dir(f.datos[j], d.bs) + off < |d.bloques|
    ensures var p := Dir(j, d.bs) + off;
            var escrito := Escrito(d, f, msg)[Dir(f.datos[j], d.bs) + off];
            if p < msg.largo || Resto(msg.largo, d.bs) == 0 then p < |msg.memoria| && escrito == msg.memoria[p]
            else escrito == d.bloques[Dir(f.datos[j], d.bs) + off]
  {
    IndiceNoEsDato(f);
    assert BloqueOk(d.bloques, d.bs, f.datos[j]) && EnRango(msg, d.bs, j);
    TrozoHasta(msg, d.bs, j, off);
    if off < |Trozo(msg, d.bs, j)| {
      EscritoDatos(d, f, msg, j, off);
    } else {
      EscritoSobra(d, f, msg, j, off);
    }
  }

  lemma EscritoSobra(d: Disco, f: Fcb, msg: Mensaje, j: nat, off: nat)
    requires Escribible(d, f, msg) && SinRepetidos(Propios(f)) && j < |f.datos|
    requires EnRango(msg, d.bs, j) && |Trozo(msg, d.bs, j)| <= off < d.bs
    ensures Dir(f.datos[j], d.bs) + off < |d.bloques|
    ensures Escrito(d, f, msg)[Dir(f.datos[j], d.bs) + off] == d.bloques[Dir(f.datos[j], d.bs) + off]
  {
    IndiceNoEsDato(f);
    assert BloqueOk(d.bloques, d.bs, f.datos[j]);
    EscritoEs(d, f, msg);
    IndiceNoTocaDato(d, f, j, off);
    SobraEn(d, f, ConIndice(d, f), msg, j, off);
  }

  lemma SobraEn(d: Disco, f: Fcb, b: seq<Byte>, msg: Mensaje, j: nat, off: nat)
    requires d.bs >= 1 && |b| == |d.bloques| && j < |f.datos| && BloqueOk(d.bloques, d.bs, f.datos[j])
    requires SinRepetidos(f.datos) && EnRango(msg, d.bs, j) && |Trozo(msg, d.bs, j)| <= off < d.bs
    ensures EscribirDatos(b, d.bs, f.datos, msg, 0)[Dir(f.datos[j], d.bs) + off] == b[Dir(f.datos[j], d.bs) + off]
  {
    SobranteIntacto(b, d.bs, f.datos, msg, 0, j, off);
  }

  lemma TrozoHasta(msg: Mensaje, bs: nat, j: nat, off: nat)
    requires bs >= 1 && off < bs && EnRango(msg, bs, j) && msg.largo <= |msg.memoria|
    ensures off < |Trozo(msg, bs, j)| <==> Dir(j, bs) + off < msg.largo || Resto(msg.largo, bs) == 0
    ensures off < |Trozo(msg, bs, j)| ==> Dir(j, bs) + off < |msg.memoria| && Trozo(msg, bs, j)[off] == msg.memoria[Dir(j, bs) + off]
  {
    var q := Llenos(msg.largo, bs);
    Partes(msg.largo, bs);
    if q < j { DirOrden(q, j, bs); }
    if j < q { DirOrden(j, q, bs); }
  }

  lemma IndiceNoTocaDato(d: Disco, f: Fcb, j: nat, off: nat)
    requires BloqueOk(d.bloques, d.bs, f.indice) && 4 * |f.datos| <= d.bs && SinRepetidos(Propios(f))
    requires forall k :: 0 <= k < |f.datos| ==> f.datos[k] < DOS_A_32
    requires j < |f.datos| && off < d.bs && BloqueOk(d.bloques, d.bs, f.datos[j])
    ensures ConIndice(d, f)[Dir(f.datos[j], d.bs) + off] == d.bloques[Dir(f.datos[j], d.bs) + off]
  {
    IndiceNoEsDato(f);
    var x := Dir(f.datos[j], d.bs) + off;
    if EnBloque(x, f.indice, d.bs) { UnSoloBloque(x, f.indice, f.datos[j], d.bs); }
  }

  /** The bytes of a block past what is written of it. */
  lemma {:induction false} SobranteIntacto(bloques: seq<Byte>, bs: nat, datos: seq<nat>, msg: Mensaje, k: nat, j: nat, off: nat)
    requires bs >= 1 && k <= j < |datos| && BloqueOk(bloques, bs, datos[j]) && SinRepetidos(datos)
    requires EnRango(msg, bs, j) && |Trozo(msg, bs, j)| <= off < bs
    ensures EscribirDatos(bloques, bs, datos, msg, k)[Dir(datos[j], bs) + off] == bloques[Dir(datos[j], bs) + off]
    decreases j - k
  {
    var x := Dir(datos[j], bs) + off;
    if k == j {
      var b := VueltaSobra(bloques, bs, datos, msg, j, off);
      QuedaEscrito(b, bs, datos, msg, j, off);
    } else {
      if EnBloque(x, datos[k], bs) { UnSoloBloque(x, datos[k], datos[j], bs); }
      var b := VueltaFuera(bloques, bs, datos, msg, k, x);
      SobranteIntacto(b, bs, datos, msg, k + 1, j, off);
    }
  }

  lemma VueltaSobra(bloques: seq<Byte>, bs: nat, datos: seq<nat>, msg: Mensaje, k: nat, off: nat) returns (b: seq<Byte>)
    requires bs >= 1 && k < |datos| && BloqueOk(bloques, bs, datos[k]) && EnRango(msg, bs, k)
    requires |Trozo(msg, bs, k)| <= off < bs
    ensures |b| == |bloques| && b[Dir(datos[k], bs) + off] == bloques[Dir(datos[k], bs) + off]
    ensures EscribirDatos(bloques, bs, datos, msg, k) == EscribirDatos(b, bs, datos, msg, k + 1)
  {
    b := Tras(bloques, bs, datos, msg, k);
  }

  lemma UnaEntrada(d: Disco, f: Fcb, k: nat)
    requires BloqueOk(d.bloques, d.bs, f.indice) && 4 * |f.datos| <= d.bs && k < |f.datos|
    requires forall j :: 0 <= j < |f.datos| ==> f.datos[j] < DOS_A_32
    ensures Entrada(ConIndice(d, f), d.bs, f.indice, k) == f.datos[k]
  {
    EntradaCopiada(d.bloques, Dir(f.indice, d.bs), Indices(f.datos), k);
    assert Entera(Indices(f.datos), k) == f.datos[k];
  }

  lemma EntradaCopiada(b: seq<Byte>, dir: nat, v: seq<Byte>, k: nat)
    requires dir + |v| <= |b| && 4 * k + 4 <= |v|
    ensures Copiar(b, dir, v)[dir + 4 * k..dir + 4 * k + 4] == v[4 * k..4 * k + 4]
  {
    var r := Copiar(b, dir, v);
    assert r[dir..dir + |v|] == v;
    Subtrozo(r, dir, |v|, 4 * k);
  }

  lemma Subtrozo(a: seq<Byte>, dir: nat, largo: nat, off: nat)
    requires dir + largo <= |a| && off + 4 <= largo
    ensures a[dir + off..dir + off + 4] == a[dir..dir + largo][off..off + 4]
  {
    var s := a[dir..dir + largo];
    var l, r := a[dir + off..dir + off + 4], s[off..off + 4];
    forall y | 0 <= y < 4 ensures l[y] == r[y] {
      assert s[off + y] == a[dir + (off + y)];
    }
  }

  lemma MismaEntrada(a: seq<Byte>, b: seq<Byte>, bs: nat, indice: nat, k: nat)
    requires |a| == |b| && BloqueOk(a, bs, indice) && 4 * k + 4 <= bs
    requires forall x :: Dir(indice, bs) <= x < Dir(indice, bs) + bs ==> a[x] == b[x]
    ensures Entrada(a, bs, indice, k) == Entrada(b, bs, indice, k)
  {
    var dir := Dir(indice, bs) + 4 * k;
    assert a[dir..dir + 4] == b[dir..dir + 4];
  }

  lemma IndiceNoEsDato(f: Fcb)
    requires SinRepetidos(Propios(f))
    ensures SinRepetidos(f.datos) && forall j :: 0 <= j < |f.datos| ==> f.datos[j] != f.indice
  {
    assert Propios(f)[|f.datos|] == f.indice;
    assert forall j :: 0 <= j < |f.datos| ==> Propios(f)[j] == f.datos[j];
  }

  // ---- Reading a file ----

  predicate Legible(bloques: seq<Byte>, bs: nat, f: Fcb) {
    && bs >= 1 && IndiceOk(bloques, bs, f) && BloquesOk(bloques, bs, f.datos)
  }

  /** Byte `off` of the file's k-th block, reached through the index block as it is on disk. */
  function LeerByte(bloques: seq<Byte>, bs: nat, f: Fcb, k: nat, off: nat): (r: Byte)
    requires Legible(bloques, bs, f) && k < |f.datos| && off < bs
    ensures BloqueOk(bloques, bs, f.datos[k]) && r == bloques[Dir(f.datos[k], bs) + off]
  {
    assert Entrada(bloques, bs, f.indice, k) == f.datos[k] && BloqueOk(bloques, bs, f.datos[k]);
    bloques[Dir(Entrada(bloques, bs, f.indice, k), bs) + off]
  }

  /** The first `len` bytes of the file. */
  function Leer(bloques: seq<Byte>, bs: nat, f: Fcb, len: nat): (r: seq<Byte>)
    requires Legible(bloques, bs, f) && len <= Dir(|f.datos|, bs)
    ensures |r| == len
  {
    seq(len, p requires 0 <= p < len => (EnArchivo(p, bs, |f.datos|); LeerByte(bloques, bs, f, Llenos(p, bs), Resto(p, bs))))
  }

  lemma EnArchivo(p: nat, bs: nat, n: nat)
    requires bs >= 1 && p < Dir(n, bs)
    ensures Llenos(p, bs) < n
  {
    Partes(p, bs);
    if n < Llenos(p, bs) { DirOrden(n, Llenos(p, bs), bs); }
  }

  lemma TrozoByte(msg: Mensaje, bs: nat, p: nat)
    requires bs >= 1 && p < msg.largo <= |msg.memoria| && EnRango(msg, bs, Llenos(p, bs))
    ensures Resto(p, bs) < |Trozo(msg, bs, Llenos(p, bs))| && Trozo(msg, bs, Llenos(p, bs))[Resto(p, bs)] == msg.memoria[p]
  {
    Partes(p, bs);
    Partes(msg.largo, bs);
    TrozoEn(msg, bs, Llenos(p, bs), Resto(p, bs), Llenos(msg.largo, bs), Resto(msg.largo, bs));
  }

  lemma TrozoEn(msg: Mensaje, bs: nat, k: nat, off: nat, q: nat, resto: nat)
    requires bs >= 1 && off < bs && Dir(k, bs) + off < msg.largo <= |msg.memoria| && EnRango(msg, bs, k)
    requires q == Llenos(msg.largo, bs) && resto == Resto(msg.largo, bs) && msg.largo == Dir(q, bs) + resto
    ensures off < |Trozo(msg, bs, k)| && Trozo(msg, bs, k)[off] == msg.memoria[Dir(k, bs) + off]
  {
    if q < k { DirOrden(q, k, bs); }
    if k < q { DirOrden(k, q, bs); }
  }

  /** What was dumped is what is read. */
  lemma EscritoSeLee(d: Disco, f: Fcb, msg: Mensaje)
    requires Escribible(d, f, msg) && SinRepetidos(Propios(f)) && msg.largo <= Dir(|f.datos|, d.bs)
    requires msg.largo <= |msg.memoria|
    ensures Legible(Escrito(d, f, msg), d.bs, f)
    ensures Leer(Escrito(d, f, msg), d.bs, f, msg.largo) == msg.memoria[..msg.largo]
  {
    EscritoIndice(d, f, msg);
    IndiceNoEsDato(f);
    forall k | 0 <= k < |f.datos| ensures BloqueOk(Escrito(d, f, msg), d.bs, f.datos[k]) {
      assert BloqueOk(d.bloques, d.bs, f.datos[k]);
    }
    forall p | 0 <= p < msg.largo ensures Leer(Escrito(d, f, msg), d.bs, f, msg.largo)[p] == msg.memoria[p] {
      LeidoEscrito(d, f, msg, p);
    }
  }

  lemma LeidoEscrito(d: Disco, f: Fcb, msg: Mensaje, p: nat)
    requires Escribible(d, f, msg) && SinRepetidos(f.datos) && p < msg.largo <= Dir(|f.datos|, d.bs)
    requires msg.largo <= |msg.memoria|
    requires Legible(Escrito(d, f, msg), d.bs, f)
    ensures Leer(Escrito(d, f, msg), d.bs, f, msg.largo)[p] == msg.memoria[p]
  {
    var k, off := LeerEn(Escrito(d, f, msg), d.bs, f, msg.largo, p);
    assert EnRango(msg, d.bs, k);
    TrozoByte(msg, d.bs, p);
    ByteEscrito(d, f, msg, k, off);
  }

  lemma ByteEscrito(d: Disco, f: Fcb, msg: Mensaje, k: nat, off: nat)
    requires Escribible(d, f, msg) && SinRepetidos(f.datos) && Legible(Escrito(d, f, msg), d.bs, f)
    requires k < |f.datos| && EnRango(msg, d.bs, k) && off < |Trozo(msg, d.bs, k)|
    ensures LeerByte(Escrito(d, f, msg), d.bs, f, k, off) == Trozo(msg, d.bs, k)[off]
  {
    EscritoDatos(d, f, msg, k, off);
    ByteLeido(Escrito(d, f, msg), d.bs, f, k, off, Trozo(msg, d.bs, k)[off]);
  }

  lemma ByteLeido(bloques: seq<Byte>, bs: nat, f: Fcb, k: nat, off: nat, v: Byte)
    requires Legible(bloques, bs, f) && k < |f.datos| && off < bs
    requires Dir(f.datos[k], bs) + off < |bloques| && bloques[Dir(f.datos[k], bs) + off] == v
    ensures LeerByte(bloques, bs, f, k, off) == v
  {
  }

  lemma LeerEn(bloques: seq<Byte>, bs: nat, f: Fcb, len: nat, p: nat) returns (k: nat, off: nat)
    requires Legible(bloques, bs, f) && p < len <= Dir(|f.datos|, bs)
    ensures k == Llenos(p, bs) && off == Resto(p, bs) && k < |f.datos| && off < bs
    ensures Leer(bloques, bs, f, len)[p] == LeerByte(bloques, bs, f, k, off)
  {
    EnArchivo(p, bs, |f.datos|);
    k, off := Llenos(p, bs), Resto(p, bs);
  }

  /** A file none of whose blocks a dump takes reads the same after it, to the last byte. */
  lemma OtroSeLeeIgual(d: Disco, f: Fcb, msg: Mensaje, g: Fcb, len: nat)
    requires Escribible(d, f, msg) && Ajenos(Propios(g), Propios(f))
    requires Legible(d.bloques, d.bs, g) && BloqueOk(d.bloques, d.bs, g.indice)
    requires 4 * |g.datos| <= d.bs && len <= Dir(|g.datos|, d.bs)
    ensures Legible(Escrito(d, f, msg), d.bs, g)
    ensures Leer(Escrito(d, f, msg), d.bs, g, len) == Leer(d.bloques, d.bs, g, len)
  {
    forall k | 0 <= k < |g.datos|
      ensures Entrada(Escrito(d, f, msg), d.bs, g.indice, k) == Entrada(d.bloques, d.bs, g.indice, k)
    {
      assert Propios(g)[|g.datos|] == g.indice;
      EntradaAjena(d, f, msg, g.indice, k);
    }
    forall k | 0 <= k < |g.datos| ensures BloqueOk(Escrito(d, f, msg), d.bs, g.datos[k]) {
      assert BloqueOk(d.bloques, d.bs, g.datos[k]);
    }
    forall p | 0 <= p < len
      ensures Leer(Escrito(d, f, msg), d.bs, g, len)[p] == Leer(d.bloques, d.bs, g, len)[p]
    {
      LeidoIgual(d, f, msg, g, len, p);
    }
  }

  lemma EntradaAjena(d: Disco, f: Fcb, msg: Mensaje, b: nat, k: nat)
    requires Escribible(d, f, msg) && b !in Propios(f) && 4 * k + 4 <= d.bs && BloqueOk(d.bloques, d.bs, b)
    ensures Entrada(Escrito(d, f, msg), d.bs, b, k) == Entrada(d.bloques, d.bs, b, k)
  {
    forall x | Dir(b, d.bs) <= x < Dir(b, d.bs) + d.bs ensures Escrito(d, f, msg)[x] == d.bloques[x] {
      EscritoFuera(d, f, msg, b, x);
    }
    MismaEntrada(d.bloques, Escrito(d, f, msg), d.bs, b, k);
  }

  lemma LeidoIgual(d: Disco, f: Fcb, msg: Mensaje, g: Fcb, len: nat, p: nat)
    requires Escribible(d, f, msg) && Ajenos(Propios(g), Propios(f)) && p < len <= Dir(|g.datos|, d.bs)
    requires Legible(d.bloques, d.bs, g) && Legible(Escrito(d, f, msg), d.bs, g)
    ensures Leer(Escrito(d, f, msg), d.bs, g, len)[p] == Leer(d.bloques, d.bs, g, len)[p]
  {
    var k, off := LeerEn(Escrito(d, f, msg), d.bs, g, len, p);
    var _, _ := LeerEn(d.bloques, d.bs, g, len, p);
    ByteIgual(d, f, msg, g, k, off);
  }

  lemma ByteIgual(d: Disco, f: Fcb, msg: Mensaje, g: Fcb, k: nat, off: nat)
    requires Escribible(d, f, msg) && Ajenos(Propios(g), Propios(f)) && k < |g.datos| && off < d.bs
    requires Legible(d.bloques, d.bs, g) && Legible(Escrito(d, f, msg), d.bs, g)
    ensures LeerByte(Escrito(d, f, msg), d.bs, g, k, off) == LeerByte(d.bloques, d.bs, g, k, off)
  {
    assert Propios(g)[k] == g.datos[k];
    assert BloqueOk(d.bloques, d.bs, g.datos[k]);
    EscritoFuera(d, f, msg, g.datos[k], Dir(g.datos[k], d.bs) + off);
  }
}
