/** The filesystem server as the program has it: loops over a bitmap and a mapped array of bytes. Every method is
    proved to be its function in FileSystem. */
module FileSystemMaquina {
  import opened Listas
  import opened Bytes
  import opened FileSystem
  import opened FileSystemTeoremas

  class FileSystemServidor {
    const bs: nat
    const bitmap: array<bool>
    const bloques: array<Byte>
    var fcbs: seq<Fcb>

    ghost function Estado(): Disco
      reads this, bitmap, bloques
    {
      Disco(bs, bitmap[..], bloques[..], fcbs)
    }

    constructor (blockSize: nat, blockCount: nat)
      requires blockSize >= 1 && blockCount <= DOS_A_31
      ensures fresh(bitmap) && fresh(bloques) && Inv(Estado(), {}) && fcbs == [] && bs == blockSize
      ensures bitmap.Length == blockCount && Prefijo(bitmap[..], 0)
    {
      DirEs(blockCount, blockSize);
      bs := blockSize;
      bitmap := new bool[blockCount](_ => false);
      bloques := new Byte[blockCount * blockSize](_ => 0);
      fcbs := [];
    }

    /** -1 when every bit is set. */
    method EncontrarPrimerBitLibre() returns (r: int)
      ensures PrimerLibre(bitmap[..], 0) == if r == -1 then None else if r >= 0 then Some(r as nat) else None
      ensures -1 <= r < bitmap.Length
    {
      for i := 0 to bitmap.Length
        invariant PrimerLibre(bitmap[..], 0) == PrimerLibre(bitmap[..], i)
      {
        if !bitmap[i] { return i; }
      }
      return -1;
    }

    method CantidadBloquesLibres() returns (c: nat)
      ensures c == Libres(bitmap[..])
    {
      c := 0;
      assert bitmap[..][0..] == bitmap[..];
      for i := 0 to bitmap.Length
        invariant c + Libres(bitmap[..][i..]) == Libres(bitmap[..])
      {
        assert bitmap[..][i..][0] == bitmap[i] && bitmap[..][i..][1..] == bitmap[..][i + 1..];
        if !bitmap[i] { c := c + 1; }
      }
    }

    method SetearBloqueBits(i: nat)
      requires i < bitmap.Length
      modifies bitmap
      ensures bitmap[..] == old(bitmap[..])[i := true]
    {
      bitmap[i] := true;
    }

    method AsignarBloquesDeDatos(n: nat) returns (datos: seq<nat>)
      requires n <= Libres(bitmap[..])
      modifies bitmap
      ensures bitmap[..] == Asignar(old(bitmap[..]), n).0 && datos == Asignar(old(bitmap[..]), n).1
    {
      datos := [];
      for i := 0 to n
        invariant Camino(bitmap[..], n - i, datos, Asignar(old(bitmap[..]), n))
      {
        CaminoPaso(bitmap[..], n - i, datos, Asignar(old(bitmap[..]), n));
        var indice := EncontrarPrimerBitLibre();
        SetearBloqueBits(indice);
        datos := datos + [indice];
      }
    }

    method AsignarBloqueDeIndice() returns (indice: nat)
      requires Libres(bitmap[..]) >= 1
      modifies bitmap
      ensures bitmap[..] == Asignar(old(bitmap[..]), 1).0 && [indice] == Asignar(old(bitmap[..]), 1).1
    {
      AsignarPaso(bitmap[..], 1);
      indice := EncontrarPrimerBitLibre();
      SetearBloqueBits(indice);
    }

    method EscribirDataEnBloque(dir: nat, valor: seq<Byte>)
      requires dir + |valor| <= bloques.Length
      modifies bloques
      ensures bloques[..] == Copiar(old(bloques[..]), dir, valor)
    {
      forall i | 0 <= i < |valor| {
        bloques[dir + i] := valor[i];
      }
    }

    method LeerDataDeBloque(indice: nat, tamanio: nat) returns (valor: seq<Byte>)
      requires Dir(indice, bs) + tamanio <= bloques.Length
      ensures valor == bloques[..][Dir(indice, bs)..Dir(indice, bs) + tamanio]
    {
      DirEs(indice, bs);
      valor := bloques[indice * bs..indice * bs + tamanio];
    }

    method EscribirBloqueDeIndice(f: Fcb)
      requires Dir(f.indice, bs) + 4 * |f.datos| <= bloques.Length
      requires forall k :: 0 <= k < |f.datos| ==> f.datos[k] < DOS_A_32
      modifies bloques
      ensures bloques[..] == Copiar(old(bloques[..]), Dir(f.indice, bs), Indices(f.datos))
    {
      var buffer: seq<Byte> := [];
      for i := 0 to |f.datos|
        invariant buffer == Indices(f.datos[..i])
      {
        assert f.datos[..i + 1][..i] == f.datos[..i];
        buffer := buffer + Le32(f.datos[i]);
      }
      assert f.datos[..|f.datos|] == f.datos;
      DirEs(f.indice, bs);
      EscribirDataEnBloque(f.indice * bs, buffer);
    }

    /** One turn of the data loop: a whole block, the rest of the message, or nothing. */
    method EscribirUnBloque(indice: nat, msg: Mensaje, i: nat, llenos: int, tamanioUltBloque: int)
      requires bs >= 1 && EnRango(msg, bs, i) && Dir(indice, bs) + bs <= bloques.Length
      requires SonPartes(msg.largo, bs, llenos, tamanioUltBloque)
      modifies bloques
      ensures bloques[..] == Copiar(old(bloques[..]), Dir(indice, bs), Trozo(msg, bs, i))
    {
      DirEs(indice, bs);
      DirEs(i, bs);
      if i <= llenos - 1 || tamanioUltBloque == 0 {
        EscribirDataEnBloque(indice * bs, msg.memoria[i * bs..i * bs + bs]);
      } else if i == llenos && tamanioUltBloque != 0 {
        EscribirDataEnBloque(indice * bs, msg.memoria[i * bs..i * bs + tamanioUltBloque]);
      }
    }

    /** The full blocks and the bytes after them, as a division and modf on reals give them. */
    method PartesDelMensaje(len: nat) returns (llenos: int, tamanioUltBloque: int)
      requires bs >= 1
      ensures SonPartes(len, bs, llenos, tamanioUltBloque)
    {
      var cantDatos := len as real / bs as real;
      llenos := cantDatos.Floor;
      var sobrante := cantDatos - llenos as real;
      tamanioUltBloque := (sobrante * bs as real).Floor;
      ModfExacto(len, bs);
      PartesEs(len, bs);
    }

    /** The data block indices, out of the index block on disk. */
    method LeerIndices(f: Fcb) returns (xs: seq<nat>)
      requires IndiceOk(bloques[..], bs, f)
      ensures xs == f.datos
    {
      var indices := LeerDataDeBloque(f.indice, 4 * |f.datos|);
      SonEntradas(bloques[..], bs, f, indices);
      xs := [];
      for i := 0 to |f.datos|
        invariant xs == f.datos[..i]
      {
        xs := xs + [De32(indices[4 * i..4 * i + 4])];
      }
    }

    method EscribirBloquesDeDatos(f: Fcb, msg: Mensaje)
      requires IndiceOk(bloques[..], bs, f)
      requires bs >= 1 && BloquesOk(bloques[..], bs, f.datos) && TodoEnRango(msg, bs, |f.datos|)
      modifies bloques
      ensures bloques[..] == EscribirDatos(old(bloques[..]), bs, f.datos, msg, 0)
    {
      var indices := LeerIndices(f);
      EscribirEnBloques(indices, msg, EscribirDatos(bloques[..], bs, f.datos, msg, 0));
    }

    method EscribirEnBloques(indices: seq<nat>, msg: Mensaje, ghost meta: seq<Byte>)
      requires Escribiendo(bloques[..], bs, indices, msg, 0, meta)
      modifies bloques
      ensures bloques[..] == meta
    {
      var llenos, tamanioUltBloque := PartesDelMensaje(msg.largo);
      for i := 0 to |indices|
        invariant Escribiendo(bloques[..], bs, indices, msg, i, meta)
      {
        EscribirTurno(indices, msg, i, llenos, tamanioUltBloque, meta);
      }
    }

    method EscribirTurno(indices: seq<nat>, msg: Mensaje, i: nat, llenos: int, tamanioUltBloque: int, ghost meta: seq<Byte>)
      requires i < |indices| && Escribiendo(bloques[..], bs, indices, msg, i, meta)
      requires SonPartes(msg.largo, bs, llenos, tamanioUltBloque)
      modifies bloques
      ensures Escribiendo(bloques[..], bs, indices, msg, i + 1, meta)
    {
      EscribiendoPaso(bloques[..], bs, indices, msg, i, meta);
      EscribirUnBloque(indices[i], msg, i, llenos, tamanioUltBloque);
    }

    /** The record of a new file, with the blocks it takes. */
    method CrearFcb(nombre: string, tam: nat, n: nat) returns (f: Fcb)
      requires bs >= 1 && n == TamanioEnBloques(tam, bs) && Acepta(Estado(), tam)
      modifies this`fcbs, bitmap
      ensures f == NuevoFcb(old(Estado()), nombre, tam) && fcbs == old(fcbs) + [f]
      ensures bitmap[..] == Reservar(old(bitmap[..]), n).0
    {
      AsignarMenores(bitmap[..], n);
      var datos := AsignarBloquesDeDatos(n);
      AsignarMenores(bitmap[..], 1);
      var indice := AsignarBloqueDeIndice();
      f := Fcb(nombre, tam, datos, indice);
      fcbs := fcbs + [f];
    }

    method EscribirArchivo(ghost d: Disco, f: Fcb, msg: Mensaje)
      requires d.bs == bs && d.bloques == bloques[..] && Escribible(d, f, msg)
      modifies bloques
      ensures bloques[..] == Escrito(d, f, msg)
    {
      EscribirBloqueDeIndice(f);
      IndiceEscrito(d, f);
      EscribirBloquesDeDatos(f, msg);
    }

    method AtenderMemoryDump(nombre: string, tam: nat, msg: Mensaje, ghost previos: set<nat>) returns (ok: bool)
      requires Inv(Estado(), previos) && Atendible(Estado(), tam, msg) && Fresco(Estado(), nombre)
      modifies this`fcbs, bitmap, bloques
      ensures (Estado(), ok) == Dump(old(Estado()), nombre, tam, msg) && Inv(Estado(), previos)
    {
      ghost var d := Estado();
      DumpInv(d, previos, nombre, tam, msg);
      var n := TamanioEnBloques(tam, bs);
      var libres := CantidadBloquesLibres();
      if n + 1 <= libres {
        EsEscribible(d, nombre, tam, msg);
        var f := CrearFcb(nombre, tam, n);
        EscribirArchivo(d, f, msg);
        ok := true;
      } else {
        ok := false;
      }
    }
  }

  predicate SonPartes(len: nat, bs: nat, llenos: int, resto: int)
    requires bs >= 1
  {
    llenos == Llenos(len, bs) && resto == Resto(len, bs)
  }

  /** The two float operations of escribir_bloques_de_datos, without rounding. */
  lemma ModfExacto(len: nat, bs: nat)
    requires bs >= 1
    ensures var c := len as real / bs as real;
            c.Floor == len / bs && ((c - c.Floor as real) * bs as real).Floor == len % bs
  {
    var q, r := len / bs, len % bs;
    var c := len as real / bs as real;
    assert len as real == q as real * bs as real + r as real;
    assert c == q as real + r as real / bs as real;
    assert 0.0 <= r as real / bs as real < 1.0;
    assert c.Floor == q;
    assert (c - q as real) * bs as real == r as real;
  }

  /** k more blocks lead to the result. */
  predicate Camino(bm: seq<bool>, k: nat, datos: seq<nat>, meta: (seq<bool>, seq<nat>)) {
    k <= Libres(bm) && Asignar(bm, k).0 == meta.0 && datos + Asignar(bm, k).1 == meta.1
  }

  lemma CaminoPaso(bm: seq<bool>, k: nat, datos: seq<nat>, meta: (seq<bool>, seq<nat>))
    requires k >= 1 && Camino(bm, k, datos, meta)
    ensures PrimerLibre(bm, 0).Some?
    ensures var i := PrimerLibre(bm, 0).value; Camino(bm[i := true], k - 1, datos + [i], meta)
  {
    AsignarPaso(bm, k);
  }

  /** Writing blocks from the i-th on leads to the result. */
  predicate Escribiendo(b: seq<Byte>, bs: nat, datos: seq<nat>, msg: Mensaje, i: nat, meta: seq<Byte>) {
    && bs >= 1 && i <= |datos| && BloquesOk(b, bs, datos) && TodoEnRango(msg, bs, |datos|)
    && EscribirDatos(b, bs, datos, msg, i) == meta
  }

  lemma EscribiendoPaso(b: seq<Byte>, bs: nat, datos: seq<nat>, msg: Mensaje, i: nat, meta: seq<Byte>)
    requires Escribiendo(b, bs, datos, msg, i, meta) && i < |datos|
    ensures EnRango(msg, bs, i) && Dir(datos[i], bs) + bs <= |b|
    ensures Escribiendo(Copiar(b, Dir(datos[i], bs), Trozo(msg, bs, i)), bs, datos, msg, i + 1, meta)
  {
    assert BloqueOk(b, bs, datos[i]) && EnRango(msg, bs, i);
    var c := Tras(b, bs, datos, msg, i);
    assert c == Copiar(b, Dir(datos[i], bs), Trozo(msg, bs, i));
    forall k | 0 <= k < |datos| ensures BloqueOk(c, bs, datos[k]) { assert BloqueOk(b, bs, datos[k]); }
  }

  lemma SonEntradas(bloques: seq<Byte>, bs: nat, f: Fcb, indices: seq<Byte>)
    requires IndiceOk(bloques, bs, f)
    requires indices == bloques[Dir(f.indice, bs)..Dir(f.indice, bs) + 4 * |f.datos|]
    ensures forall k :: 0 <= k < |f.datos| ==> De32(indices[4 * k..4 * k + 4]) == f.datos[k]
  {
    forall k | 0 <= k < |f.datos| ensures De32(indices[4 * k..4 * k + 4]) == f.datos[k] {
      Subtrozo(bloques, Dir(f.indice, bs), 4 * |f.datos|, 4 * k);
      assert Entrada(bloques, bs, f.indice, k) == f.datos[k];
    }
  }

  lemma IndiceEscrito(d: Disco, f: Fcb)
    requires BloqueOk(d.bloques, d.bs, f.indice) && 4 * |f.datos| <= d.bs
    requires forall k :: 0 <= k < |f.datos| ==> f.datos[k] < DOS_A_32
    ensures IndiceOk(ConIndice(d, f), d.bs, f)
  {
    forall k | 0 <= k < |f.datos| ensures Entrada(ConIndice(d, f), d.bs, f.indice, k) == f.datos[k] {
      UnaEntrada(d, f, k);
    }
  }
}
