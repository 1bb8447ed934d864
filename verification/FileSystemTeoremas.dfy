/** What the filesystem promises over whole runs of dumps. */
module FileSystemTeoremas {
  import opened Listas
  import opened Bytes
  import opened FileSystem

  // ---- One dump keeps the invariant ----

  lemma DumpInv(d: Disco, previos: set<nat>, nombre: string, tam: nat, msg: Mensaje)
    requires Inv(d, previos) && Atendible(d, tam, msg)
    ensures Inv(Dump(d, nombre, tam, msg).0, previos)
  {
    if Acepta(d, tam) {
      EsEscribible(d, nombre, tam, msg);
      DumpEs(d, nombre, tam, msg);
      NuevoAjeno(d, previos, nombre, tam);
      TodosOk(d, previos, nombre, tam, msg);
      RepartoOk(d, previos, nombre, tam, msg);
    }
  }

  lemma TodosOk(d: Disco, previos: set<nat>, nombre: string, tam: nat, msg: Mensaje)
    requires Inv(d, previos) && Pedido(d.bs, tam, msg) && Acepta(d, tam)
    ensures var r := Dump(d, nombre, tam, msg).0;
            Forma(r) && forall k :: 0 <= k < |r.fcbs| ==> FcbOk(r, r.fcbs[k])
  {
    var r := Dump(d, nombre, tam, msg).0;
    EsEscribible(d, nombre, tam, msg);
    DumpEs(d, nombre, tam, msg);
    forall k | 0 <= k < |d.fcbs| ensures FcbOk(r, d.fcbs[k]) { ViejoOk(d, previos, nombre, tam, msg, k); }
    NuevoOk(d, nombre, tam, msg);
  }

  lemma NuevoAjeno(d: Disco, previos: set<nat>, nombre: string, tam: nat)
    requires Inv(d, previos) && Acepta(d, tam)
    ensures var f := NuevoFcb(d, nombre, tam);
            && (forall k :: 0 <= k < |d.fcbs| ==> Ajenos(Propios(d.fcbs[k]), Propios(f)))
            && (forall b :: b in previos ==> b !in Propios(f))
  {
    NuevoForma(d, nombre, tam);
    var f := NuevoFcb(d, nombre, tam);
    forall k | 0 <= k < |d.fcbs| ensures Ajenos(Propios(d.fcbs[k]), Propios(f)) {
      forall b | b in Propios(d.fcbs[k]) ensures b !in Propios(f) {
        assert DeAlguno(d.fcbs, b);
      }
    }
  }

  lemma ViejoOk(d: Disco, previos: set<nat>, nombre: string, tam: nat, msg: Mensaje, k: nat)
    requires Inv(d, previos) && Pedido(d.bs, tam, msg) && Acepta(d, tam) && k < |d.fcbs|
    ensures FcbOk(Dump(d, nombre, tam, msg).0, d.fcbs[k])
  {
    EsLegible(d, d.fcbs[k]);
    NuevoAjeno(d, previos, nombre, tam);
    EsEscribible(d, nombre, tam, msg);
    OtroSeLeeIgual(d, NuevoFcb(d, nombre, tam), msg, d.fcbs[k], 0);
  }

  lemma EsLegible(d: Disco, f: Fcb)
    requires Forma(d) && FcbOk(d, f)
    ensures Legible(d.bloques, d.bs, f) && BloqueOk(d.bloques, d.bs, f.indice)
  {
    assert Propios(f)[|f.datos|] == f.indice;
    DirOrden(f.indice, |d.bitmap|, d.bs);
    forall k | 0 <= k < |f.datos| ensures f.datos[k] < |d.bitmap| { assert Propios(f)[k] == f.datos[k]; }
    BloquesEnteros(d, f.datos);
  }

  lemma NuevoOk(d: Disco, nombre: string, tam: nat, msg: Mensaje)
    requires Forma(d) && Pedido(d.bs, tam, msg) && Acepta(d, tam)
    ensures FcbOk(Dump(d, nombre, tam, msg).0, NuevoFcb(d, nombre, tam))
  {
    var f := NuevoFcb(d, nombre, tam);
    NuevoForma(d, nombre, tam);
    EsEscribible(d, nombre, tam, msg);
    EscritoIndice(d, f, msg);
    DumpEs(d, nombre, tam, msg);
    forall k | 0 <= k < |Propios(f)| ensures Propios(f)[k] < |d.bitmap| { assert Propios(f)[k] in Propios(f); }
  }

  lemma DumpEs(d: Disco, nombre: string, tam: nat, msg: Mensaje)
    requires Forma(d) && Pedido(d.bs, tam, msg) && Acepta(d, tam) && Escribible(d, NuevoFcb(d, nombre, tam), msg)
    ensures var r := Dump(d, nombre, tam, msg).0;
            && r.bs == d.bs && |r.bitmap| == |d.bitmap| && Forma(r) && r.fcbs == d.fcbs + [NuevoFcb(d, nombre, tam)]
            && r.bloques == Escrito(d, NuevoFcb(d, nombre, tam), msg)
  {
  }

  lemma RepartoOk(d: Disco, previos: set<nat>, nombre: string, tam: nat, msg: Mensaje)
    requires Inv(d, previos) && Pedido(d.bs, tam, msg) && Acepta(d, tam)
    ensures var r := Dump(d, nombre, tam, msg).0;
            && (forall b :: b in previos ==> !DeAlguno(r.fcbs, b))
            && (forall b :: 0 <= b < |r.bitmap| ==> (r.bitmap[b] <==> b in previos || DeAlguno(r.fcbs, b)))
  {
    var f := NuevoFcb(d, nombre, tam);
    var r := Dump(d, nombre, tam, msg).0;
    NuevoAjeno(d, previos, nombre, tam);
    ReservarForma(d.bitmap, TamanioEnBloques(tam, d.bs));
    forall b ensures DeAlguno(r.fcbs, b) <==> DeAlguno(d.fcbs, b) || b in Propios(f) { DeAlgunoMas(d.fcbs, f, b); }
  }

  lemma DeAlgunoMas(fcbs: seq<Fcb>, f: Fcb, b: nat)
    ensures DeAlguno(fcbs + [f], b) <==> DeAlguno(fcbs, b) || b in Propios(f)
  {
    if DeAlguno(fcbs, b) {
      var k :| 0 <= k < |fcbs| && b in Propios(fcbs[k]);
      assert b in Propios((fcbs + [f])[k]);
    }
    if b in Propios(f) { assert (fcbs + [f])[|fcbs|] == f; }
  }

  /** Accepted exactly when n + 1 blocks are free; then exactly n + 1 are taken, and a refusal changes nothing. */
  lemma DumpExacto(d: Disco, nombre: string, tam: nat, msg: Mensaje)
    requires Forma(d) && Atendible(d, tam, msg)
    ensures var (r, ok) := Dump(d, nombre, tam, msg);
            var n := TamanioEnBloques(tam, d.bs);
            && (ok <==> n + 1 <= Libres(d.bitmap))
            && (ok ==> Libres(r.bitmap) == Libres(d.bitmap) - (n + 1) && |r.fcbs| == |d.fcbs| + 1
                       && |Propios(r.fcbs[|d.fcbs|])| == n + 1)
            && (!ok ==> r == d)
  {
    if Acepta(d, tam) { ReservarForma(d.bitmap, TamanioEnBloques(tam, d.bs)); }
  }

  // ---- Runs ----

  datatype Op = Op(nombre: string, tamanio: nat, mensaje: Mensaje)

  predicate Fresco(d: Disco, nombre: string) {
    forall k :: 0 <= k < |d.fcbs| ==> d.fcbs[k].nombre != nombre
  }

  /** The disk after the requests, and the requests that were accepted. */
  function Correr(d: Disco, h: seq<Op>, ops: seq<Op>): (r: Option<(Disco, seq<Op>)>)
    requires Forma(d)
    decreases |ops|
  {
    if ops == [] then Some((d, h))
    else if Atendible(d, ops[0].tamanio, ops[0].mensaje) && Fresco(d, ops[0].nombre) then
      var (r, ok) := Dump(d, ops[0].nombre, ops[0].tamanio, ops[0].mensaje);
      Correr(r, if ok then h + [ops[0]] else h, ops[1..])
    else None
  }

  /** The file holds the message, read through its index block. */
  predicate Contiene(d: Disco, f: Fcb, msg: Mensaje) {
    && Legible(d.bloques, d.bs, f) && msg.largo <= Dir(|f.datos|, d.bs) && msg.largo <= |msg.memoria|
    && Leer(d.bloques, d.bs, f, msg.largo) == msg.memoria[..msg.largo]
  }

  ghost predicate Guardado(d: Disco, h: seq<Op>) {
    && |h| == |d.fcbs|
    && (forall k :: 0 <= k < |h| ==> d.fcbs[k].nombre == h[k].nombre && Contiene(d, d.fcbs[k], h[k].mensaje))
  }

  lemma DumpGuardado(d: Disco, previos: set<nat>, h: seq<Op>, op: Op)
    requires Inv(d, previos) && Atendible(d, op.tamanio, op.mensaje) && Guardado(d, h)
    ensures var (r, ok) := Dump(d, op.nombre, op.tamanio, op.mensaje);
            Guardado(r, if ok then h + [op] else h)
  {
    if Acepta(d, op.tamanio) {
      var r := Dump(d, op.nombre, op.tamanio, op.mensaje).0;
      NuevoContiene(d, op);
      forall k | 0 <= k < |h| ensures Contiene(r, d.fcbs[k], h[k].mensaje) {
        ViejoContiene(d, previos, op, k, h[k].mensaje);
      }
      var f := NuevoFcb(d, op.nombre, op.tamanio);
      NuevoForma(d, op.nombre, op.tamanio);
      assert r.fcbs == d.fcbs + [f];
      UnoMasGuardado(d.fcbs, r, h, f, op);
    }
  }

  lemma UnoMasGuardado(fcbs: seq<Fcb>, r: Disco, h: seq<Op>, f: Fcb, op: Op)
    requires r.fcbs == fcbs + [f] && |h| == |fcbs| && f.nombre == op.nombre && Contiene(r, f, op.mensaje)
    requires forall k :: 0 <= k < |h| ==> fcbs[k].nombre == h[k].nombre && Contiene(r, fcbs[k], h[k].mensaje)
    ensures Guardado(r, h + [op])
  {
  }

  lemma NuevoContiene(d: Disco, op: Op)
    requires Forma(d) && Pedido(d.bs, op.tamanio, op.mensaje) && Acepta(d, op.tamanio)
    ensures Contiene(Dump(d, op.nombre, op.tamanio, op.mensaje).0, NuevoFcb(d, op.nombre, op.tamanio), op.mensaje)
  {
    EsEscribible(d, op.nombre, op.tamanio, op.mensaje);
    NuevoForma(d, op.nombre, op.tamanio);
    EscritoSeLee(d, NuevoFcb(d, op.nombre, op.tamanio), op.mensaje);
  }

  lemma ViejoContiene(d: Disco, previos: set<nat>, op: Op, k: nat, msg: Mensaje)
    requires Inv(d, previos) && Pedido(d.bs, op.tamanio, op.mensaje) && Acepta(d, op.tamanio)
    requires k < |d.fcbs| && Contiene(d, d.fcbs[k], msg)
    ensures Contiene(Dump(d, op.nombre, op.tamanio, op.mensaje).0, d.fcbs[k], msg)
  {
    NuevoAjeno(d, previos, op.nombre, op.tamanio);
    EsEscribible(d, op.nombre, op.tamanio, op.mensaje);
    EsLegible(d, d.fcbs[k]);
    OtroSeLeeIgual(d, NuevoFcb(d, op.nombre, op.tamanio), op.mensaje, d.fcbs[k], msg.largo);
  }

  lemma {:induction false} CorrerGuardado(d: Disco, previos: set<nat>, h: seq<Op>, ops: seq<Op>)
    requires Inv(d, previos) && Guardado(d, h) && Correr(d, h, ops).Some?
    ensures var (r, g) := Correr(d, h, ops).value; Inv(r, previos) && Guardado(r, g)
    decreases |ops|
  {
    if ops == [] {
      // base case
    } else {
      var op := ops[0];
      DumpInv(d, previos, op.nombre, op.tamanio, op.mensaje);
      DumpGuardado(d, previos, h, op);
      var (r, ok) := Dump(d, op.nombre, op.tamanio, op.mensaje);
      CorrerGuardado(r, previos, if ok then h + [op] else h, ops[1..]);
    }
  }

  /** Whatever was on the disk when the server started, after any run every accepted dump reads back. */
  lemma TodoSeLee(d: Disco, ops: seq<Op>, k: nat)
    requires Forma(d) && d.fcbs == [] && Correr(d, [], ops).Some?
    ensures var (r, h) := Correr(d, [], ops).value;
            |r.fcbs| == |h| && (k < |h| ==> r.fcbs[k].nombre == h[k].nombre && Contiene(r, r.fcbs[k], h[k].mensaje))
  {
    var previos := set b: nat | b < |d.bitmap| && d.bitmap[b];
    CorrerGuardado(d, previos, [], ops);
  }

  /** And a block is taken exactly when it was taken at the start or belongs to one file, which is only one. */
  lemma BitsDeArchivos(d: Disco, ops: seq<Op>, b: nat)
    requires Forma(d) && d.fcbs == [] && Correr(d, [], ops).Some? && b < |d.bitmap|
    ensures var r := Correr(d, [], ops).value.0;
            && b < |r.bitmap|
            && (r.bitmap[b] <==> d.bitmap[b] || DeAlguno(r.fcbs, b))
            && (d.bitmap[b] ==> !DeAlguno(r.fcbs, b))
            && (forall j, k :: 0 <= j < k < |r.fcbs| && b in Propios(r.fcbs[j]) ==> b !in Propios(r.fcbs[k]))
  {
    var previos := set c: nat | c < |d.bitmap| && d.bitmap[c];
    CorrerGuardado(d, previos, [], ops);
    CorrerForma(d, [], ops);
    var r := Correr(d, [], ops).value.0;
    forall j, k | 0 <= j < k < |r.fcbs| && b in Propios(r.fcbs[j]) ensures b !in Propios(r.fcbs[k]) {
      assert Ajenos(Propios(r.fcbs[j]), Propios(r.fcbs[k]));
    }
  }

  lemma {:induction false} CorrerForma(d: Disco, h: seq<Op>, ops: seq<Op>)
    requires Forma(d) && Correr(d, h, ops).Some?
    ensures var r := Correr(d, h, ops).value.0; r.bs == d.bs && |r.bitmap| == |d.bitmap| && |r.bloques| == |d.bloques|
    decreases |ops|
  {
    if ops == [] {
      // base case
    } else {
      var (r, ok) := Dump(d, ops[0].nombre, ops[0].tamanio, ops[0].mensaje);
      CorrerForma(r, if ok then h + [ops[0]] else h, ops[1..]);
    }
  }

  // ---- From an empty disk ----

  predicate Prefijo(bm: seq<bool>, u: nat) {
    u <= |bm| && forall b :: 0 <= b < |bm| ==> (bm[b] <==> b < u)
  }

  function Desde(u: nat, n: nat): seq<nat> {
    seq(n, k requires 0 <= k < n => u + k)
  }

  lemma {:induction false} AsignarPrefijo(bm: seq<bool>, u: nat, n: nat)
    requires Prefijo(bm, u) && n <= Libres(bm)
    ensures var (r, xs) := Asignar(bm, n); Prefijo(r, u + n) && xs == Desde(u, n)
    decreases n
  {
    if n == 0 {
      // base case
    } else {
      LibresCero(bm);
      var i := PrimerLibre(bm, 0).value;
      assert i >= u && !bm[u];
      assert i == u;
      LibresSetear(bm, i);
      AsignarPrefijo(bm[i := true], u + 1, n - 1);
      assert [u] + Desde(u + 1, n - 1) == Desde(u, n);
    }
  }

  /** Files one after the other from block 0: data blocks ascending, then the index block, then the next file. */
  predicate Compacto(fcbs: seq<Fcb>, u: nat)
    decreases |fcbs|
  {
    if fcbs == [] then u == 0
    else
      var f := fcbs[|fcbs| - 1];
      && u >= |f.datos| + 1 && f.datos == Desde(u - 1 - |f.datos|, |f.datos|) && f.indice == u - 1
      && Compacto(fcbs[..|fcbs| - 1], u - 1 - |f.datos|)
  }

  lemma DumpCompacto(d: Disco, u: nat, nombre: string, tam: nat, msg: Mensaje)
    requires Forma(d) && Atendible(d, tam, msg) && Prefijo(d.bitmap, u) && Compacto(d.fcbs, u)
    ensures var (r, ok) := Dump(d, nombre, tam, msg);
            var v := if ok then u + TamanioEnBloques(tam, d.bs) + 1 else u;
            Prefijo(r.bitmap, v) && Compacto(r.fcbs, v)
  {
    if Acepta(d, tam) {
      ReservarPrefijo(d.bitmap, u, TamanioEnBloques(tam, d.bs));
      CompactoMas(d.fcbs, u, NuevoFcb(d, nombre, tam));
    }
  }

  lemma ReservarPrefijo(bm: seq<bool>, u: nat, n: nat)
    requires Prefijo(bm, u) && n + 1 <= Libres(bm)
    ensures var (r, datos, ix) := Reservar(bm, n); Prefijo(r, u + n + 1) && datos == Desde(u, n) && ix == u + n
  {
    AsignarMenores(bm, n);
    AsignarPrefijo(bm, u, n);
    var bm1 := Asignar(bm, n).0;
    AsignarMenores(bm1, 1);
    AsignarPrefijo(bm1, u + n, 1);
  }

  lemma CompactoMas(fcbs: seq<Fcb>, u: nat, f: Fcb)
    requires Compacto(fcbs, u) && f.datos == Desde(u, |f.datos|) && f.indice == u + |f.datos|
    ensures Compacto(fcbs + [f], u + |f.datos| + 1)
  {
    assert (fcbs + [f])[..|fcbs + [f]| - 1] == fcbs;
  }

  /** From an empty bitmap the used blocks are always a prefix, laid out file by file. */
  lemma {:induction false} SiempreCompacto(d: Disco, u: nat, h: seq<Op>, ops: seq<Op>) returns (v: nat)
    requires Forma(d) && Prefijo(d.bitmap, u) && Compacto(d.fcbs, u) && Correr(d, h, ops).Some?
    ensures var r := Correr(d, h, ops).value.0; Prefijo(r.bitmap, v) && Compacto(r.fcbs, v)
    decreases |ops|
  {
    if ops == [] {
      v := u;
    } else {
      var op := ops[0];
      var r, ok, g := PrimerDump(d, h, ops);
      DumpCompacto(d, u, op.nombre, op.tamanio, op.mensaje);
      v := SiempreCompacto(r, if ok then u + TamanioEnBloques(op.tamanio, d.bs) + 1 else u, g, ops[1..]);
    }
  }

  /** The disk and the history after the first request, from which the rest of the run goes on. */
  lemma PrimerDump(d: Disco, h: seq<Op>, ops: seq<Op>) returns (r: Disco, ok: bool, g: seq<Op>)
    requires Forma(d) && ops != [] && Correr(d, h, ops).Some?
    ensures Atendible(d, ops[0].tamanio, ops[0].mensaje)
    ensures (r, ok) == Dump(d, ops[0].nombre, ops[0].tamanio, ops[0].mensaje) && Forma(r)
    ensures g == (if ok then h + [ops[0]] else h) && Correr(d, h, ops) == Correr(r, g, ops[1..])
  {
    r, ok := Dump(d, ops[0].nombre, ops[0].tamanio, ops[0].mensaje).0, Dump(d, ops[0].nombre, ops[0].tamanio, ops[0].mensaje).1;
    g := if ok then h + [ops[0]] else h;
  }
}
