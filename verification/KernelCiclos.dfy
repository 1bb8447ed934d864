/** Cycles of waiting threads: exactly which messages close one, and what their absence is worth. */
module KernelCiclos {
  import opened Listas
  import opened KernelEstado
  import opened Reparto
  import opened Grafos
  import opened KernelInvariante
  import opened KernelPasos
  import opened KernelTeoremas

  /** Who waits for whom. Threads that have ended may still be listed, but nobody waits for them. */
  ghost function Esperas(s: State): Grafo<HiloId> {
    (x, y) => EsperaA(s, x, y)
  }

  /** The thread that the caller will have to wait for if this message is handled now. */
  function Objetivo(s: State, op: Op): Option<HiloId> {
    match op
    case Pide(x, ThreadJoin(tid)) =>
      if x in s.exec && Vivo(s, HiloId(x.pid, tid)) then Some(HiloId(x.pid, tid)) else None
    case Pide(x, MutexLock(n)) =>
      var b := Buscar(s.mutexes, x.pid, n);
      if x in s.exec && b.Some? then Dueno(s, b.value) else None
    case _ => None
  }

  /** The caller would wait for itself, or for a thread that already waits, through any chain, for the caller. */
  ghost predicate CierraCiclo(s: State, op: Op) {
    op.Pide? && Objetivo(s, op).Some? && Llega(Esperas(s), Objetivo(s, op).value, op.hilo)
  }

  // ---- The join lists ----

  function Joiners(s: State, y: HiloId): seq<HiloId> {
    Espera(s, Nadie, EnJoin(y))
  }

  /** Each join list is as it was, or empty. */
  ghost predicate SinJoinNuevo(s: State, r: State) {
    forall y :: Joiners(r, y) == [] || Joiners(r, y) == Joiners(s, y)
  }

  lemma PlanificarJoin(s: State)
    ensures SinJoinNuevo(s, Planificar(s))
  {
    if s.exec == [] && s.ready != [] {
      ElegirMiembro(s);
      QuitarIncluye(s.ready, Elegir(s));
    }
  }

  lemma BloquearJoin(s: State, x: HiloId)
    ensures SinJoinNuevo(s, BloquearEnEjecucion(s, x))
  {
    if x in s.exec {
      var m := ConFlag(s.(exec := Quitar(s.exec, x), blocked := s.blocked + [x]), x);
      QuitarIncluye(s.exec, x);
      PlanificarJoin(m);
    }
  }

  lemma DesbloquearJoin(s: State, x: HiloId)
    ensures SinJoinNuevo(s, Desbloquear(s, x))
  {
    if x in s.blocked {
      var m := s.(blocked := Quitar(s.blocked, x), ready := s.ready + [x]);
      QuitarIncluye(s.blocked, x);
      PlanificarJoin(m);
    }
  }

  lemma ProtocoloJoin(s: State, i: nat)
    requires i < |s.mutexes|
    ensures SinJoinNuevo(s, Protocolo(s, i))
  {
    var m := s.mutexes[i];
    if m.bloqueados != [] {
      var h := m.bloqueados[0];
      var s0 := s.(mutexes := s.mutexes[i := m.(bloqueados := m.bloqueados[1..])]);
      DesbloquearJoin(s0, h);
      AsignarJoin(Desbloquear(s0, h), i, h);
    }
  }

  lemma AsignarJoin(s: State, i: nat, h: HiloId)
    requires i < |s.mutexes|
    ensures SinJoinNuevo(s, ConDueno(Asignar(s, i, h), i, Some(h)))
  {
  }

  lemma {:induction false} LiberarRecursosJoin(s: State, ms: seq<nat>)
    requires Rangos(s, ms)
    ensures SinJoinNuevo(s, LiberarRecursos(s, ms))
    decreases |ms|
  {
    if ms == [] {
      // base case
    } else {
      ProtocoloJoin(s, ms[0]);
      LiberarRecursosJoin(Protocolo(s, ms[0]), ms[1..]);
    }
  }

  lemma {:induction false} LiberarJoinJoin(s: State, js: seq<HiloId>)
    ensures SinJoinNuevo(s, LiberarJoin(s, js))
    decreases |js|
  {
    if js == [] {
      // base case
    } else {
      DesbloquearJoin(s, js[0]);
      LiberarJoinJoin(Desbloquear(s, js[0]), js[1..]);
    }
  }

  lemma RemoverJoin(s: State, x: HiloId)
    ensures SinJoinNuevo(s, ConFlag(Remover(s, x), x))
  {
    QuitarIncluye(s.ready, x);
    QuitarIncluye(s.exec, x);
    QuitarIncluye(s.blocked, x);
  }

  lemma DesocuparJoin(s: State, x: HiloId)
    requires Inv(s) && Vivo(s, x)
    ensures x in s.tcbs && SinJoinNuevo(s, SinHilo(s, x))
  {
    RemoverJoin(s, x);
    assert Asignados(s, Nadie, x) == s.tcbs[x].mutexes;
    DesocuparEfecto(ConFlag(Remover(s, x), x), x, s.tcbs[x].mutexes);
  }

  lemma FinalizarJoin(s: State, x: HiloId)
    requires Inv(s)
    ensures SinJoinNuevo(s, FinalizarHilo(s, x))
  {
    if Vivo(s, x) {
      var ms, js := s.tcbs[x].mutexes, s.tcbs[x].joiners;
      DesocuparJoin(s, x);
      var s1 := SinHilo(s, x);
      LiberarRecursosJoin(s1, ms);
      var s2 := LiberarRecursos(s1, ms);
      var m := s2.(exit := s2.exit + [x]);
      LiberarJoinJoin(m, js);
      PlanificarJoin(LiberarJoin(m, js));
      CadenaJoin(s, s1, s2, m, LiberarJoin(m, js), FinalizarHilo(s, x));
    }
  }

  lemma CadenaJoin(s: State, s1: State, s2: State, m: State, s3: State, r: State)
    requires SinJoinNuevo(s, s1) && SinJoinNuevo(s1, s2) && SinJoinNuevo(s2, m) && SinJoinNuevo(m, s3)
    requires SinJoinNuevo(s3, r)
    ensures SinJoinNuevo(s, r)
  {
  }

  lemma CrearJoin(s: State, pid: int, p: int, f: bool)
    requires pid in s.siguienteTid
    ensures SinJoinNuevo(s, CrearTcb(s, pid, p, f))
  {
    PlanificarJoin(HiloNuevo(s, pid, p, f));
  }

  lemma LiberacionJoin(s: State, i: nat, x: HiloId)
    requires i < |s.mutexes| && x in s.tcbs && Rangos(s, s.tcbs[x].mutexes)
    ensures SinJoinNuevo(s, Liberacion(s, i, x))
  {
    var xs := QuitarPorNombre(s.mutexes, s.tcbs[x].mutexes, s.mutexes[i].nombre);
    ProtocoloJoin(s.(tcbs := s.tcbs[x := s.tcbs[x].(mutexes := xs)]), i);
  }

  /** A message that makes nobody wait for a thread extends no join list. */
  lemma PasoJoin(s: State, op: Op)
    requires Inv(s) && Objetivo(s, op).None?
    ensures SinJoinNuevo(s, Paso(s, op))
  {
    match op
    case Pide(x, sys) =>
      if x in s.exec {
        FlagInv(s, x, Nadie, {});
        AtenderJoin(ConFlag(s, x), x, sys);
      }
    case Desaloja(x) => if x in s.exec { DesalojaJoin(s, x); }
    case FinIo => FinIoJoin(s);
    case FinDump(x) => DesbloquearJoin(s.(dumps := Quitar(s.dumps, x)), x);
    case NuevoProceso(pid, p, f) => CrearJoin(s.(siguienteTid := s.siguienteTid[pid := 0]), pid, p, f);
    case Termina(x) => FinalizarJoin(s, x);
    case Vence(t) =>
  }

  lemma DesalojaJoin(s: State, x: HiloId)
    requires Formado(s) && x in s.exec
    ensures SinJoinNuevo(s, Paso(s, Desaloja(x)))
  {
    var m := ConFlag(s, x).(exec := Quitar(s.exec, x), ready := s.ready + [x]);
    QuitarIncluye(s.exec, x);
    PlanificarJoin(m);
  }

  lemma FinIoJoin(s: State)
    ensures SinJoinNuevo(s, AtenderFinIo(s))
  {
    if s.io != [] {
      var m := s.(io := s.io[1..]);
      DesbloquearJoin(m, s.io[0]);
      PlanificarJoin(Desbloquear(m, s.io[0]));
    }
  }

  lemma AtenderJoin(s: State, x: HiloId, sys: Syscall)
    requires Inv(s) && x in s.exec && Objetivo(s, Pide(x, sys)).None?
    ensures SinJoinNuevo(s, Atender(s, x, sys))
  {
    match sys
    case ThreadCreate(p, f) => if x.pid in s.siguienteTid { CrearJoin(s, x.pid, p, f); }
    case ThreadJoin(tid) =>
    case ThreadCancel(tid) => FinalizarJoin(s, HiloId(x.pid, tid));
    case ThreadExit => FinalizarJoin(s, x);
    case MutexCreate(n) =>
    case MutexLock(n) => FinalizarJoin(s, x);
    case MutexUnlock(n) =>
      UnlockJoin(s, x, n);
      AtenderUnlockEs(s, x, n);
    case DumpMemory =>
      DumpJoin(s, x);
      AtenderDumpEs(s, x);
    case IO => BloquearJoin(s.(io := s.io + [x]), x);
    case Proceso =>
  }

  lemma UnlockJoin(s: State, x: HiloId, n: string)
    requires Inv(s)
    ensures SinJoinNuevo(s, Unlock(s, x, n))
  {
    FinalizarJoin(s, x);
    var b := Buscar(s.mutexes, x.pid, n);
    if b.Some? && s.mutexes[b.value].dueno == Some(x) && x in s.tcbs { LiberacionJoin(s, b.value, x); }
  }

  lemma DumpJoin(s: State, x: HiloId)
    ensures SinJoinNuevo(s, PideDump(s, x))
  {
    BloquearJoin(s, x);
    var s1 := BloquearEnEjecucion(s, x);
    PlanificarJoin(s1.(dumps := s1.dumps + [x]));
  }

  // ---- The mutex queues ----

  /** Each queue is empty, or as it was under the same owner, or was that with its new owner in front. */
  ghost predicate SinColaNueva(s: State, r: State) {
    forall i: nat :: ColaHeredada(s, r, i)
  }

  predicate ColaHeredada(s: State, r: State, i: nat) {
    || Cola(r, i) == []
    || (Dueno(r, i) == Dueno(s, i) && Cola(r, i) == Cola(s, i))
    || (Dueno(r, i).Some? && Cola(s, i) == [Dueno(r, i).value] + Cola(r, i))
  }

  /** Without cycles the guard leaves no waiter of a mutex to be ended from outside. */
  lemma NadieCancelado(s: State, op: Op, i: nat)
    requires Guarda(s, op) && SinCiclo(Esperas(s))
    ensures !CancelaEspera(s, op, i)
  {
    forall x ensures !(x in Cola(s, i) && Cancelable(s, x)) {
      if x in Cola(s, i) && Cancelable(s, x) {
        assert EsperaMutex(s, x, x, i);
        assert Esperas(s)(x, x);
        LlegaASi(Esperas(s), x);
        assert EnCiclo(Esperas(s), x);
      }
    }
  }

  lemma PasoColas(s: State, op: Op)
    requires Inv(s) && Guarda(s, op) && SinCiclo(Esperas(s)) && Objetivo(s, op).None?
    ensures SinColaNueva(s, Paso(s, op))
  {
    var r := Paso(s, op);
    PasoInv(s, op);
    forall i: nat ensures ColaHeredada(s, r, i) {
      NadieCancelado(s, op, i);
      PasoOrden(s, op, i);
      LibreSinCola(s, i);
      LibreSinCola(r, i);
      PedidoLibre(s, op, i);
      Hereda(s, r, i, Pedido(s, op, i));
    }
  }

  lemma LibreSinCola(s: State, i: nat)
    requires Inv(s)
    ensures Dueno(s, i).None? ==> Cola(s, i) == []
  {
    if i < |s.mutexes| { assert ColaOk(s.mutexes[i]); }
  }

  lemma PedidoLibre(s: State, op: Op, i: nat)
    requires Objetivo(s, op).None?
    ensures Pedido(s, op, i) == [] || (Dueno(s, i).None? && |Pedido(s, op, i)| == 1)
  {
  }

  lemma Hereda(s: State, r: State, i: nat, p: seq<HiloId>)
    requires Cola(s, i) + p == Otorgado(s, r, i) + Cola(r, i) && (p == [] || (Dueno(s, i).None? && |p| == 1))
    requires Dueno(s, i).None? ==> Cola(s, i) == []
    requires Dueno(r, i).None? ==> Cola(r, i) == []
    ensures ColaHeredada(s, r, i)
  {
    assert |Cola(s, i)| + |p| == |Otorgado(s, r, i)| + |Cola(r, i)|;
    if p == [] { assert Cola(s, i) + p == Cola(s, i); }
    if Otorgado(s, r, i) == [] { assert [] + Cola(r, i) == Cola(r, i); }
  }

  // ---- One message ----

  /** A new owner was first in the queue and waits nowhere now; so every pair that is new ends the chain. */
  lemma SinParNuevo(s: State, r: State, x: HiloId, y: HiloId, z: HiloId)
    requires Inv(s) && Inv(r) && SinJoinNuevo(s, r) && SinColaNueva(s, r)
    requires EsperaA(r, x, y) && EsperaA(r, y, z)
    ensures EsperaA(s, x, y)
  {
    var w := EsperaEn(r, x, y);
    if w.EnMutex? {
      assert ColaHeredada(s, r, w.i);
      if Dueno(r, w.i) == Dueno(s, w.i) && Cola(r, w.i) == Cola(s, w.i) {
        assert EsperaMutex(s, x, y, w.i);
      } else {
        DuenoNuevoNoEspera(s, r, w.i, y, z);
      }
    } else {
      assert Joiners(r, y) == Joiners(s, y);
    }
  }

  lemma DuenoNuevoNoEspera(s: State, r: State, i: nat, y: HiloId, z: HiloId)
    requires Inv(s) && Inv(r) && SinJoinNuevo(s, r) && SinColaNueva(s, r)
    requires Cola(s, i) == [y] + Cola(r, i)
    ensures !EsperaA(r, y, z)
  {
    if EsperaA(r, y, z) {
      var v := YaEstaba(s, r, y, z);
      Cabeza(ColasDe(s, Nadie), s.tcbs.Keys, s.ready + s.exec, s.blocked, i, v, y, Cola(r, i));
    }
  }

  /** Whoever waits after the message sat in the same place before it. */
  lemma YaEstaba(s: State, r: State, y: HiloId, z: HiloId) returns (v: Sitio)
    requires Inv(r) && SinJoinNuevo(s, r) && SinColaNueva(s, r) && EsperaA(r, y, z)
    ensures Esta(ColasDe(s, Nadie), y, v) && (v.EnMutex? ==> y in Cola(r, v.i))
  {
    v := EsperaEn(r, y, z);
    if v.EnMutex? {
      assert ColaHeredada(s, r, v.i);
    } else {
      assert Joiners(r, z) == Joiners(s, z);
    }
  }

  lemma Cabeza(e: Colas, todos: set<HiloId>, activos: seq<HiloId>, bloq: seq<HiloId>, i: nat, v: Sitio, y: HiloId,
               q: seq<HiloId>)
    requires UnaCola(e, todos, activos, bloq, {}) && e(EnMutex(i)) == [y] + q && Esta(e, y, v)
    ensures v == EnMutex(i) && y !in q
  {
    assert e(EnMutex(i))[0] == y;
    assert Esta(e, y, EnMutex(i));
    forall k | 0 <= k < |q| ensures q[k] != y { assert e(EnMutex(i))[k + 1] == q[k]; }
  }

  lemma IgualesEsperas(s: State, r: State)
    requires MismosDatos(s, r) && forall x :: Vivo(r, x) <==> Vivo(s, x)
    ensures forall x, y :: EsperaA(r, x, y) <==> EsperaA(s, x, y)
  {
    ColasIguales(s, r, Nadie);
    forall x, y ensures EsperaA(r, x, y) <==> EsperaA(s, x, y) {
      assert ColasDe(r, Nadie)(EnJoin(y)) == ColasDe(s, Nadie)(EnJoin(y));
      forall i: nat ensures EsperaMutex(r, x, y, i) <==> EsperaMutex(s, x, y, i) {}
    }
  }

  /** The wait of the caller is the only thing new. */
  lemma EsperaNueva(s: State, op: Op)
    requires Inv(s) && Objetivo(s, op).Some?
    ensures forall a, b :: EsperaA(Paso(s, op), a, b)
                           <==> EsperaA(s, a, b) || (a == op.hilo && b == Objetivo(s, op).value)
  {
    var x, u := op.hilo, Objetivo(s, op).value;
    var c := ConFlag(s, x);
    FlagInv(s, x, Nadie, {});
    BloquearInv(c, x);
    var s1 := BloquearEnEjecucion(c, x);
    IgualesEsperas(s, s1);
    if op.sys.ThreadJoin? {
      AtenderJoinEs(c, x, op.sys.tid);
      JoinNuevo(s1, x, u);
    } else {
      var b := Buscar(s.mutexes, x.pid, op.sys.nombre);
      AtenderLockEs(c, x, op.sys.nombre);
      LockNuevo(s1, x, b.value, u);
    }
  }

  lemma JoinNuevo(s: State, x: HiloId, u: HiloId)
    requires u in s.tcbs && Vivo(s, u)
    ensures var r := s.(tcbs := s.tcbs[u := s.tcbs[u].(joiners := s.tcbs[u].joiners + [x])]);
            forall a, b :: EsperaA(r, a, b) <==> EsperaA(s, a, b) || (a == x && b == u)
  {
    var r := s.(tcbs := s.tcbs[u := s.tcbs[u].(joiners := s.tcbs[u].joiners + [x])]);
    forall a, b ensures EsperaA(r, a, b) <==> EsperaA(s, a, b) || (a == x && b == u) {
      assert Joiners(r, b) == if b == u then Joiners(s, b) + [x] else Joiners(s, b);
      forall i: nat ensures EsperaMutex(r, a, b, i) <==> EsperaMutex(s, a, b, i) {}
    }
  }

  lemma LockNuevo(s: State, x: HiloId, i: nat, u: HiloId)
    requires i < |s.mutexes| && s.mutexes[i].dueno == Some(u)
    ensures forall a, b :: EsperaA(Encolar(s, i, x), a, b) <==> EsperaA(s, a, b) || (a == x && b == u)
  {
    var r := Encolar(s, i, x);
    assert EsperaMutex(r, x, u, i);
    forall a, b ensures EsperaA(r, a, b) <==> EsperaA(s, a, b) || (a == x && b == u) {
      assert Joiners(r, b) == Joiners(s, b);
      forall j: nat ensures EsperaMutex(r, a, b, j) <==> EsperaMutex(s, a, b, j) || (j == i && a == x && b == u) {}
    }
  }

  /** A message leaves no cycle exactly when it is not a THREAD_JOIN, or a MUTEX_LOCK of a taken mutex, whose
      target is the caller or already waits, through any chain, for the caller. */
  lemma CicloSiYSoloSi(s: State, op: Op)
    requires Inv(s) && Guarda(s, op) && SinCiclo(Esperas(s))
    ensures SinCiclo(Esperas(Paso(s, op))) <==> !CierraCiclo(s, op)
  {
    var r := Paso(s, op);
    var g, d := Esperas(s), Esperas(r);
    if Objetivo(s, op).Some? {
      var x, u := op.hilo, Objetivo(s, op).value;
      EsperaNueva(s, op);
      forall b ensures !g(x, b) {
        if g(x, b) { var w := EsperaEn(s, x, b); }
      }
      NuevoPar(g, d, x, u);
    } else {
      PasoInv(s, op);
      PasoJoin(s, op);
      PasoColas(s, op);
      forall x, y, z | d(x, y) && d(y, z) ensures g(x, y) { SinParNuevo(s, r, x, y, z); }
      CambioSinCiclo(g, d);
    }
  }

  // ---- What it is worth ----

  /** Following who waits for whom from x there is somebody able to act: a thread that can run, or one that the
      device or the memory server will wake. */
  ghost predicate Despertable(s: State, x: HiloId) {
    exists y :: Llega(Esperas(s), x, y) && Actua(s, y)
  }

  predicate Actua(s: State, y: HiloId) {
    y in s.ready || y in s.exec || y in s.io || y in s.dumps
  }

  /** There is no cycle exactly when every blocked thread has somebody able to act at the end of its chain. */
  lemma SinCicloSiYSoloSi(s: State)
    requires Inv(s)
    ensures SinCiclo(Esperas(s)) <==> forall x :: x in s.blocked ==> Despertable(s, x)
  {
    var g := Esperas(s);
    if SinCiclo(g) {
      forall x | x in s.blocked ensures Despertable(s, x) { HayQuienActue(s, x); }
    } else {
      var x :| EnCiclo(g, x);
      EnCicloBloqueado(s, x);
      forall y | Llega(g, x, y) ensures !Actua(s, y) {
        forall a, b, c | g(a, b) && g(a, c) ensures b == c { UnaEspera(s, a, b, c); }
        var p :| Une(g, p, x, y);
        CicloCerrado(g, p);
        EnCicloBloqueado(s, y);
      }
    }
  }

  lemma HayQuienActue(s: State, x: HiloId)
    requires Inv(s) && SinCiclo(Esperas(s)) && x in s.blocked
    ensures Despertable(s, x)
  {
    BloqueadoConocido(s, x);
    var f := FinDeCadena(s, x);
    FinalActua(s, x, f);
  }

  lemma FinDeCadena(s: State, x: HiloId) returns (f: HiloId)
    requires Inv(s) && SinCiclo(Esperas(s)) && x in s.tcbs
    ensures Llega(Esperas(s), x, f) && forall b :: !EsperaA(s, f, b)
  {
    var g := Esperas(s);
    forall a, b | g(a, b) ensures b in s.tcbs.Keys { EsperadoVivo(s, a, b); }
    f := Extremo(g, s.tcbs.Keys, s.tcbs.Keys, x);
    forall b ensures !EsperaA(s, f, b) { assert !g(f, b); }
  }

  lemma EsperadoVivo(s: State, x: HiloId, y: HiloId)
    requires Inv(s) && EsperaA(s, x, y)
    ensures Vivo(s, y) && y in s.tcbs
  {
    UnaEspera(s, x, y, y);
    BloqueadoConocido(s, y);
  }

  lemma BloqueadoConocido(s: State, x: HiloId)
    requires ListasOk(s, Nadie) && Vivo(s, x)
    ensures x in s.tcbs
  {
  }

  lemma FinalActua(s: State, x: HiloId, f: HiloId)
    requires Inv(s) && x in s.blocked && Llega(Esperas(s), x, f) && forall b :: !EsperaA(s, f, b)
    ensures Actua(s, f)
  {
    var p :| Une(Esperas(s), p, x, f);
    if |p| > 1 {
      assert Esperas(s)(p[|p| - 2], p[|p| - 1]);
      UnaEspera(s, p[|p| - 2], f, f);
    }
    assert Vivo(s, f);
    if f in s.blocked {
      var w :| Esta(ColasDe(s, Nadie), f, w);
      UnicaEspera(s, f, w);
    }
  }

  lemma EnCicloBloqueado(s: State, x: HiloId)
    requires Inv(s) && EnCiclo(Esperas(s), x)
    ensures x in s.blocked && !Actua(s, x)
  {
    var g := Esperas(s);
    var y :| g(x, y) && Llega(g, y, x);
    var p :| Une(g, p, y, x);
    if |p| > 1 { assert g(p[|p| - 2], p[|p| - 1]); }
    var a := if |p| > 1 then p[|p| - 2] else x;
    UnaEspera(s, a, x, x);
    EsperaDormido(s, x, y);
  }

  lemma EsperaDormido(s: State, x: HiloId, y: HiloId)
    requires Inv(s) && EsperaA(s, x, y)
    ensures !Actua(s, x)
  {
    var w := EsperaEn(s, x, y);
    EnUnSitio(ColasDe(s, Nadie), s.tcbs.Keys, s.ready + s.exec, s.blocked, x, w);
  }

  lemma EnUnSitio(e: Colas, todos: set<HiloId>, activos: seq<HiloId>, bloq: seq<HiloId>, x: HiloId, w: Sitio)
    requires UnaCola(e, todos, activos, bloq, {}) && Esta(e, x, w) && w != EnIo && w != EnDump
    ensures x !in activos && x !in e(EnIo) && x !in e(EnDump)
  {
    assert !Esta(e, x, EnIo) && !Esta(e, x, EnDump);
  }

  /** Without a cycle the machine is never left with blocked threads and nothing under way. */
  lemma NuncaParada(s: State)
    requires Inv(s) && SinCiclo(Esperas(s)) && s.blocked != []
    ensures s.exec != [] || s.io != [] || s.dumps != []
  {
    HayQuienActue(s, s.blocked[0]);
  }

  // ---- Runs ----

  ghost predicate NadieAtascado(s: State) {
    forall x :: x in s.blocked ==> Despertable(s, x)
  }

  /** At every point of the run the invariant holds and every blocked thread has somebody able to act. */
  ghost predicate SiempreSano(s: State, ops: seq<Op>)
    decreases |ops|
  {
    Inv(s) && NadieAtascado(s) && (ops == [] || SiempreSano(Paso(s, ops[0]), ops[1..]))
  }

  /** Each message, when its turn comes, meets the guard and closes no cycle. */
  ghost predicate Prudente(s: State, ops: seq<Op>)
    decreases |ops|
  {
    ops == [] || (Formado(s) && Guarda(s, ops[0]) && !CierraCiclo(s, ops[0]) && Prudente(Paso(s, ops[0]), ops[1..]))
  }

  lemma {:induction false} SanoSiYSoloSi(s: State, ops: seq<Op>)
    requires Inv(s) && NadieAtascado(s)
    ensures SiempreSano(s, ops) <==> Prudente(s, ops)
    decreases |ops|
  {
    if ops == [] {
      // base case
    } else {
      PasoSano(s, ops[0]);
      if Guarda(s, ops[0]) && !CierraCiclo(s, ops[0]) { SanoSiYSoloSi(Paso(s, ops[0]), ops[1..]); }
    }
  }

  lemma PasoSano(s: State, op: Op)
    requires Inv(s) && NadieAtascado(s)
    ensures Inv(Paso(s, op)) && NadieAtascado(Paso(s, op)) <==> Guarda(s, op) && !CierraCiclo(s, op)
  {
    PasoSiYSoloSi(s, op);
    if Guarda(s, op) {
      SinCicloSiYSoloSi(s);
      CicloSiYSoloSi(s, op);
      SinCicloSiYSoloSi(Paso(s, op));
    }
  }

  /** From the start of the kernel, a run never loses the invariant nor leaves a blocked thread without somebody able
      to act at the end of its chain exactly when each of its messages meets the guard and closes no cycle. */
  lemma NadieParaSiempre(a: Algoritmo, ops: seq<Op>)
    ensures SiempreSano(Inicial(a), ops) <==> Prudente(Inicial(a), ops)
  {
    InicialInv(a);
    SanoSiYSoloSi(Inicial(a), ops);
  }
}
