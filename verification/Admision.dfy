/** Long-term admission: the kernel's NEW list against the memory server's allocator. */
module Admision {
  import opened Listas
  import opened Particiones
  import opened Memoria
  import opened MemoriaTeoremas

  datatype Pcb = Pcb(pid: int, tamanio: int)

  datatype Adm = Adm(mem: Mem, nuevos: seq<Pcb>, enMemoria: seq<int>, salida: seq<int>, processId: int)

  function Inicial(m: Mem): Adm {
    Adm(m, [], [], [], 0)
  }

  /** preguntar_a_memoria_para_inicializacion about the head of NEW. */
  function Preguntar(a: Adm): (Adm, bool)
    requires a.nuevos != []
  {
    var (m, ok) := AtenderCreacion(a.mem, a.nuevos[0].pid, a.nuevos[0].tamanio);
    if ok then (a.(mem := m, nuevos := a.nuevos[1..], enMemoria := a.enMemoria + [a.nuevos[0].pid]), true)
    else (a.(mem := m), false)
  }

  /** crear_proceso: memory is only asked when the process is alone in NEW. */
  function CrearProceso(a: Adm, n: int): Adm {
    var a1 := a.(nuevos := a.nuevos + [Pcb(a.processId, n)], processId := a.processId + 1);
    if |a1.nuevos| == 1 then Preguntar(a1).0 else a1
  }

  /** replanificar_creacion_proceso: until NEW is empty or its head is refused. */
  function Replanificar(a: Adm): Adm
    decreases |a.nuevos|
  {
    if a.nuevos == [] then a
    else
      var (r, ok) := Preguntar(a);
      if ok then Replanificar(r) else r
  }

  /** finalizar_proceso: release, replan, and only then the PCB moves to EXIT. */
  function FinalizarProceso(a: Adm, pid: int): Adm {
    if pid in a.salida || pid !in a.enMemoria then a
    else
      var r := Replanificar(a.(mem := AtenderFinalizacion(a.mem, pid)));
      r.(enMemoria := Quitar(r.enMemoria, pid), salida := r.salida + [pid])
  }

  // ---- Invariant ----

  predicate Residente(m: Mem, pid: int) {
    BuscarProceso(m.procs, pid).Some?
  }

  /** The first pid still in NEW, or the next to be given. */
  function Frente(a: Adm): int {
    a.processId - |a.nuevos|
  }

  /** Only partitions cut to size need a positive one. */
  predicate TamanioDe(a: Adm, n: int) {
    n >= 1 || a.mem.esquema.FIJAS?
  }

  ghost predicate NewOk(a: Adm) {
    && Frente(a) >= 0
    && (forall k :: 0 <= k < |a.nuevos| ==> a.nuevos[k].pid == Frente(a) + k && TamanioDe(a, a.nuevos[k].tamanio))
  }

  ghost predicate AdmitidosOk(a: Adm) {
    && SinRepetidos(a.enMemoria) && SinRepetidos(a.salida)
    && (forall p :: p in a.enMemoria ==> p !in a.salida)
    && (forall p :: p in a.enMemoria || p in a.salida <==> 0 <= p < Frente(a))
  }

  /** `sale` is the process that memory has released but that is still in the in-memory list. */
  ghost predicate ResidentesOk(a: Adm, sale: Option<int>) {
    forall p :: Residente(a.mem, p) <==> p in a.enMemoria && sale != Some(p)
  }

  predicate NadieEntra(a: Adm) {
    a.nuevos != [] ==> forall p :: p in a.mem.parts ==> !Cabe(p, a.nuevos[0].tamanio)
  }

  ghost predicate InvBase(a: Adm, total: int, sale: Option<int>) {
    Inv(a.mem, total) && NewOk(a) && AdmitidosOk(a) && ResidentesOk(a, sale)
  }

  ghost predicate InvAdm(a: Adm, total: int) {
    InvBase(a, total, None) && NadieEntra(a)
  }

  lemma ResidenteCreado(m: Mem, pid: int, n: int, p: int)
    ensures var (r, ok) := AtenderCreacion(m, pid, n);
            && (!ok ==> r == m)
            && (ok ==> (Residente(r, p) <==> Residente(m, p) || p == pid))
  {
    var (r, ok) := AtenderCreacion(m, pid, n);
    DondeVa(m, pid, n);
    if ok {
      assert forall k :: 0 <= k < |m.procs| ==> r.procs[k] == r.procs[..|m.procs|][k];
    }
  }

  lemma ResidenteTerminado(m: Mem, total: int, pid: int, p: int)
    requires Inv(m, total) && Residente(m, pid)
    ensures Residente(AtenderFinalizacion(m, pid), p) <==> Residente(m, p) && p != pid
  {
    var j, _, _ := FinalizarOrdenado(m, total, pid);
    SinUno(m.procs, j, p);
    assert AtenderFinalizacion(m, pid).procs == SinProceso(m.procs, j);
  }

  lemma SinUno(procs: seq<Proceso>, j: nat, p: int)
    requires PidsUnicos(procs) && j < |procs|
    ensures BuscarProceso(SinProceso(procs, j), p).Some? <==> BuscarProceso(procs, p).Some? && p != procs[j].pid
  {
    var q := SinProceso(procs, j);
    if BuscarProceso(procs, p).Some? && p != procs[j].pid {
      var h := BuscarProceso(procs, p).value;
      assert q[if h < j then h else h - 1].pid == p;
    }
    if BuscarProceso(q, p).Some? {
      OtroProceso(procs, j, q[BuscarProceso(q, p).value]);
    }
  }

  lemma PreguntarInv(a: Adm, total: int, sale: Option<int>)
    requires InvBase(a, total, sale) && a.nuevos != []
    requires sale.Some? ==> sale.value < Frente(a)
    ensures var (r, ok) := Preguntar(a);
            && InvBase(r, total, sale)
            && (ok ==> Frente(r) == Frente(a) + 1 && |r.nuevos| == |a.nuevos| - 1)
            && (!ok ==> r == a && NadieEntra(r))
            && (forall p :: p in a.enMemoria ==> p in r.enMemoria) && r.salida == a.salida
  {
    var h := a.nuevos[0];
    var (r, ok) := Preguntar(a);
    assert h.pid !in a.enMemoria;
    assert !Residente(a.mem, h.pid);
    TamanioMinimo(a.mem, total, h.pid, h.tamanio);
    EleccionCabe(a.mem, h.tamanio);
    forall p ensures Residente(r.mem, p) <==> Residente(a.mem, p) || (ok && p == h.pid) {
      ResidenteCreado(a.mem, h.pid, h.tamanio, p);
    }
  }

  lemma CrearProcesoInv(a: Adm, total: int, n: int)
    requires InvAdm(a, total) && TamanioDe(a, n)
    ensures InvAdm(CrearProceso(a, n), total)
  {
    var a1 := a.(nuevos := a.nuevos + [Pcb(a.processId, n)], processId := a.processId + 1);
    assert Frente(a1) == Frente(a);
    assert InvBase(a1, total, None);
    if |a1.nuevos| == 1 {
      PreguntarInv(a1, total, None);
    }
  }

  lemma {:induction false} ReplanificarInv(a: Adm, total: int, sale: Option<int>)
    requires InvBase(a, total, sale) && (sale.Some? ==> sale.value < Frente(a))
    ensures var r := Replanificar(a);
            && InvBase(r, total, sale) && NadieEntra(r) && Frente(r) >= Frente(a) && r.salida == a.salida
            && (forall p :: p in a.enMemoria ==> p in r.enMemoria)
    decreases |a.nuevos|
  {
    if a.nuevos == [] {
      // base case
    } else {
      PreguntarInv(a, total, sale);
      if Preguntar(a).1 { ReplanificarInv(Preguntar(a).0, total, sale); }
    }
  }

  lemma FinalizarProcesoInv(a: Adm, total: int, pid: int)
    requires InvAdm(a, total)
    ensures InvAdm(FinalizarProceso(a, pid), total)
  {
    if pid in a.enMemoria {
      LiberarInv(a, total, pid);
      var m := a.(mem := AtenderFinalizacion(a.mem, pid));
      ReplanificarInv(m, total, Some(pid));
      SaleInv(Replanificar(m), total, pid);
    }
  }

  /** Memory has released the process; its PCB has not moved yet. */
  lemma LiberarInv(a: Adm, total: int, pid: int)
    requires InvAdm(a, total) && pid in a.enMemoria
    ensures InvBase(a.(mem := AtenderFinalizacion(a.mem, pid)), total, Some(pid))
  {
    assert Residente(a.mem, pid);
    FinalizacionInv(a.mem, total, pid);
    forall p ensures Residente(AtenderFinalizacion(a.mem, pid), p) <==> Residente(a.mem, p) && p != pid {
      ResidenteTerminado(a.mem, total, pid, p);
    }
  }

  lemma SaleInv(r: Adm, total: int, pid: int)
    requires InvBase(r, total, Some(pid)) && NadieEntra(r) && pid in r.enMemoria
    ensures InvAdm(r.(enMemoria := Quitar(r.enMemoria, pid), salida := r.salida + [pid]), total)
  {
    QuitarMiembros(r.enMemoria, pid);
    AgregarSinRepetidos(r.salida, pid);
  }

  // ---- Runs ----

  datatype Op = Crea(tamanio: int) | Termina(pid: int)

  /** Sizes are positive where partitions are cut to size, and the memory server is never told to end a process that it has not admitted. */
  predicate Guarda(a: Adm, op: Op) {
    match op
    case Crea(n) => TamanioDe(a, n)
    case Termina(pid) => forall k :: 0 <= k < |a.nuevos| ==> a.nuevos[k].pid != pid
  }

  function Paso(a: Adm, op: Op): Adm {
    match op
    case Crea(n) => CrearProceso(a, n)
    case Termina(pid) => FinalizarProceso(a, pid)
  }

  function Correr(a: Adm, ops: seq<Op>): Option<Adm>
    decreases |ops|
  {
    if ops == [] then Some(a)
    else if Guarda(a, ops[0]) then Correr(Paso(a, ops[0]), ops[1..])
    else None
  }

  lemma {:induction false} CorrerInv(a: Adm, total: int, ops: seq<Op>)
    requires InvAdm(a, total) && Correr(a, ops).Some?
    ensures InvAdm(Correr(a, ops).value, total)
    decreases |ops|
  {
    if ops == [] {
      // base case
    } else {
      match ops[0] {
        case Crea(n) => CrearProcesoInv(a, total, n);
        case Termina(pid) => FinalizarProcesoInv(a, total, pid);
      }
      CorrerInv(Paso(a, ops[0]), total, ops[1..]);
    }
  }

  ghost predicate Alcanzable(a: Adm, m: Mem, total: int) {
    Inv(m, total) && m.procs == [] && exists ops :: Correr(Inicial(m), ops) == Some(a)
  }

  lemma AlcanzableInv(a: Adm, m: Mem, total: int)
    requires Alcanzable(a, m, total)
    ensures InvAdm(a, total)
  {
    var ops :| Correr(Inicial(m), ops) == Some(a);
    CorrerInv(Inicial(m), total, ops);
  }

  /** Strict order: NEW holds consecutive pids up to the last one given, and the admitted ones are those before. */
  lemma OrdenDeAdmision(a: Adm, m: Mem, total: int, p: int)
    requires Alcanzable(a, m, total)
    ensures forall k :: 0 <= k < |a.nuevos| ==> a.nuevos[k].pid == a.processId - |a.nuevos| + k
    ensures p in a.enMemoria || p in a.salida <==> 0 <= p < a.processId - |a.nuevos|
    ensures p in a.enMemoria ==> p !in a.salida
    ensures Residente(a.mem, p) <==> p in a.enMemoria
  {
    AlcanzableInv(a, m, total);
  }

  /** A process waits in NEW only while no partition fits the head; with DINAMICAS, while there is nowhere a run of
      that many free bytes. */
  lemma EsperaJustificada(a: Adm, m: Mem, total: int)
    requires Alcanzable(a, m, total) && a.nuevos != []
    ensures forall p :: p in a.mem.parts ==> !Cabe(p, a.nuevos[0].tamanio)
    ensures a.mem.esquema.DINAMICAS? ==> forall x :: !CorridaLibre(a.mem.parts, x, a.nuevos[0].tamanio)
  {
    AlcanzableInv(a, m, total);
    var n := a.nuevos[0].tamanio;
    assert TamanioDe(a, n);
    EleccionCabe(a.mem, n);
    if a.mem.esquema.DINAMICAS? { AceptaSiYSoloSi(a.mem, total, a.nuevos[0].pid, n); }
  }

  /** With every process gone the next one that fits in the whole memory is admitted at once. */
  lemma NingunaEsperaEterna(a: Adm, m: Mem, total: int)
    requires Alcanzable(a, m, total) && a.mem.esquema.DINAMICAS? && a.enMemoria == [] && a.nuevos != []
    ensures a.nuevos[0].tamanio > total
  {
    EsperaJustificada(a, m, total);
    AlcanzableInv(a, m, total);
    forall x | 0 <= x < total ensures ByteDe(a.mem.parts, x, None) { TodoLibre(a, total, x); }
    assert !CorridaLibre(a.mem.parts, 0, a.nuevos[0].tamanio);
  }

  lemma TodoLibre(a: Adm, total: int, x: int)
    requires InvAdm(a, total) && a.enMemoria == [] && 0 <= x < total
    ensures ByteDe(a.mem.parts, x, None)
  {
    var s := Ordenar(a.mem.parts);
    var i := TeselaCubre(s, 0, total, x);
    assert s[i] in s;
    forall k | 0 <= k < |a.mem.procs| ensures Residente(a.mem, a.mem.procs[k].pid) {}
    assert |a.mem.procs| == 0;
    assert Libre(s[i]);
    assert ByteDe(s, x, None);
    ByteOrdenado(a.mem, x, None);
  }

  // ---- What each request does ----

  predicate HayLugar(m: Mem, n: int) {
    exists p :: p in m.parts && Cabe(p, n)
  }

  /** Admitted at once if nobody waits before it and some partition fits it; last of NEW otherwise, with its size. */
  lemma CrearProcesoEfecto(a: Adm, n: int)
    ensures var r := CrearProceso(a, n);
            && r.processId == a.processId + 1 && r.salida == a.salida
            && (if a.nuevos == [] && HayLugar(a.mem, n) then
                  r.nuevos == [] && r.enMemoria == a.enMemoria + [a.processId] && Residente(r.mem, a.processId)
                else r.nuevos == a.nuevos + [Pcb(a.processId, n)] && r.enMemoria == a.enMemoria && r.mem == a.mem)
  {
    EleccionCabe(a.mem, n);
    ResidenteCreado(a.mem, a.processId, n, a.processId);
    assert [Pcb(a.processId, n)][1..] == [];
    if a.nuevos == [] { assert a.nuevos + [Pcb(a.processId, n)] == [Pcb(a.processId, n)]; }
  }

  function Pids(ps: seq<Pcb>): seq<int> {
    seq(|ps|, k requires 0 <= k < |ps| => ps[k].pid)
  }

  /** The first k processes of NEW have gone to memory, in their order. */
  predicate Admitidos(a: Adm, r: Adm, k: nat) {
    && k <= |a.nuevos| && r.nuevos == a.nuevos[k..] && r.enMemoria == a.enMemoria + Pids(a.nuevos[..k])
    && r.processId == a.processId && r.salida == a.salida
  }

  /** The loop admits a prefix of NEW, and nobody exactly when its head fits nowhere. */
  lemma {:induction false} ReplanificarEfecto(a: Adm) returns (k: nat)
    ensures Admitidos(a, Replanificar(a), k)
    ensures k >= 1 <==> a.nuevos != [] && HayLugar(a.mem, a.nuevos[0].tamanio)
    decreases |a.nuevos|
  {
    k := 0;
    if a.nuevos == [] {
      // base case
    } else {
      EleccionCabe(a.mem, a.nuevos[0].tamanio);
      var (r, ok) := Preguntar(a);
      if ok {
        var j := ReplanificarEfecto(r);
        k := j + 1;
        assert a.nuevos[..k] == [a.nuevos[0]] + r.nuevos[..j];
        assert Pids(a.nuevos[..k]) == [a.nuevos[0].pid] + Pids(r.nuevos[..j]);
      }
    }
  }

  lemma {:induction false} QuitarDelante(xs: seq<int>, ys: seq<int>, x: int)
    requires x in xs
    ensures Quitar(xs + ys, x) == Quitar(xs, x) + ys
  {
    assert (xs + ys)[0] == xs[0] && (xs + ys)[1..] == xs[1..] + ys;
    if xs[0] == x {
      // base case
    } else {
      QuitarDelante(xs[1..], ys, x);
    }
  }

  lemma ConBytes(m: Mem, total: int, pid: int, x: int)
    requires Inv(m, total) && ByteDe(m.parts, x, Some(pid))
    ensures Residente(m, pid)
  {
    ByteOrdenado(m, x, Some(pid));
    var p :| p in Ordenar(m.parts) && En(p, x) && p.dueno == Some(pid);
    var pr :| pr in m.procs && Corresponde(p, pr);
  }

  /** Bytes that are free, or will be when the process has ended, n of them in a row from x on. */
  predicate CorridaSin(m: Mem, pid: int, x: int, n: int) {
    forall b :: x <= b < x + n ==> ByteDe(m.parts, b, None) || ByteDe(m.parts, b, Some(pid))
  }

  /** The end of a process: it moves to EXIT and has no byte left; of NEW a prefix is admitted, in order, behind those
      in memory. Under DINAMICAS somebody is admitted exactly when the head finds enough free bytes in a row, those
      of the ended process included. */
  lemma FinalizarProcesoEfecto(a: Adm, total: int, pid: int) returns (k: nat)
    requires InvAdm(a, total) && pid in a.enMemoria
    ensures var r := FinalizarProceso(a, pid);
            && r.salida == a.salida + [pid] && pid !in r.enMemoria && !Residente(r.mem, pid)
            && (forall x :: !ByteDe(r.mem.parts, x, Some(pid)))
            && k <= |a.nuevos| && r.nuevos == a.nuevos[k..] && r.processId == a.processId
            && r.enMemoria == Quitar(a.enMemoria, pid) + Pids(a.nuevos[..k])
            && (k >= 1 <==> a.nuevos != [] && HayLugar(AtenderFinalizacion(a.mem, pid), a.nuevos[0].tamanio))
            && (a.mem.esquema.DINAMICAS? && a.nuevos != [] ==>
                  (k >= 1 <==> exists x :: CorridaSin(a.mem, pid, x, a.nuevos[0].tamanio)))
  {
    FinalizarProcesoInv(a, total, pid);
    LiberarInv(a, total, pid);
    var m := a.(mem := AtenderFinalizacion(a.mem, pid));
    k := ReplanificarEfecto(m);
    QuitarDelante(a.enMemoria, Pids(a.nuevos[..k]), pid);
    var r := FinalizarProceso(a, pid);
    forall x ensures !ByteDe(r.mem.parts, x, Some(pid)) {
      if ByteDe(r.mem.parts, x, Some(pid)) { ConBytes(r.mem, total, pid, x); }
    }
    if a.mem.esquema.DINAMICAS? && a.nuevos != [] { LugarTrasFin(a.mem, total, pid, a.nuevos[0].tamanio); }
  }

  lemma LugarTrasFin(m: Mem, total: int, pid: int, n: int)
    requires Inv(m, total) && Residente(m, pid) && m.esquema.DINAMICAS? && n >= 1
    ensures HayLugar(AtenderFinalizacion(m, pid), n) <==> exists x :: CorridaSin(m, pid, x, n)
  {
    FinalizacionInv(m, total, pid);
    HayCorrida(AtenderFinalizacion(m, pid), total, n);
    CorridasTrasFin(m, total, pid, n);
  }

  lemma HayCorrida(m: Mem, total: int, n: int)
    requires Inv(m, total) && m.esquema.DINAMICAS? && n >= 1
    ensures HayLugar(m, n) <==> exists x :: CorridaLibre(m.parts, x, n)
  {
    EleccionCabe(m, n);
    AceptaSiYSoloSi(m, total, 0, n);
  }

  lemma CorridasTrasFin(m: Mem, total: int, pid: int, n: int)
    requires Inv(m, total) && Residente(m, pid)
    ensures forall x :: CorridaLibre(AtenderFinalizacion(m, pid).parts, x, n) <==> CorridaSin(m, pid, x, n)
  {
    var r := AtenderFinalizacion(m, pid);
    forall b ensures ByteDe(r.parts, b, None) <==> ByteDe(m.parts, b, None) || ByteDe(m.parts, b, Some(pid)) {
      FinalizacionBytes(m, total, pid, b, None);
    }
  }
}
