/** What the kernel's invariant means for a thread and for a mutex, the exact condition for THREAD_CANCEL,
    and the order in which each mutex is handed over. */
module KernelTeoremas {
  import opened Listas
  import opened KernelEstado
  import opened Reparto
  import opened KernelInvariante
  import opened KernelPasos

  ghost predicate Alcanzable(s: State) {
    exists a, ops :: Correr(Inicial(a), ops) == Some(s)
  }

  lemma AlcanzableInv(s: State)
    requires Alcanzable(s)
    ensures Inv(s)
  {
    var a, ops :| Correr(Inicial(a), ops) == Some(s);
    InicialInv(a);
    CorrerInv(Inicial(a), ops);
  }

  /** x waits for y: it is in y's join list, or in the queue of a mutex that y owns. */
  predicate EsperaA(s: State, x: HiloId, y: HiloId) {
    x in Espera(s, Nadie, EnJoin(y)) || exists i :: 0 <= i < |s.mutexes| && EsperaMutex(s, x, y, i)
  }

  predicate EsperaMutex(s: State, x: HiloId, y: HiloId, i: nat) {
    i < |s.mutexes| && s.mutexes[i].dueno == Some(y) && x in s.mutexes[i].bloqueados
  }

  /** Each blocked thread sits in one wait list and once, and waits there for exactly one live thread, or for the
      device or the memory server. No thread that can run sits in any. Whether the awaited thread can ever act is
      the matter of KernelCiclos. */
  lemma BloqueadoEsperaUnaVez(s: State, x: HiloId)
    requires Alcanzable(s)
    ensures x in s.blocked ==>
      exists w :: x in Espera(s, Nadie, w) && (forall v :: x in Espera(s, Nadie, v) ==> v == w)
        && (w.EnIo? || w.EnDump? <==> !exists y :: EsperaA(s, x, y))
    ensures forall y, z :: EsperaA(s, x, y) && EsperaA(s, x, z) ==> y == z && Vivo(s, y)
    ensures forall w :: SinRepetidos(Espera(s, Nadie, w))
    ensures x in s.ready || x in s.exec ==> forall w :: x !in Espera(s, Nadie, w)
  {
    AlcanzableInv(s);
    var e := ColasDe(s, Nadie);
    forall w ensures e(w) == Espera(s, Nadie, w) && SinRepetidos(e(w)) {}
    forall y, z | EsperaA(s, x, y) && EsperaA(s, x, z) ensures y == z && Vivo(s, y) { UnaEspera(s, x, y, z); }
    if x in s.blocked {
      var w :| Esta(e, x, w);
      assert x in Espera(s, Nadie, w);
      forall v | x in Espera(s, Nadie, v) ensures v == w { assert Esta(e, x, v); }
      UnicaEspera(s, x, w);
    }
    if x in s.ready || x in s.exec {
      assert x in s.ready + s.exec;
      forall w ensures x !in Espera(s, Nadie, w) { assert !Esta(e, x, w); }
    }
  }

  /** Where x stands when it waits for y. */
  lemma EsperaEn(s: State, x: HiloId, y: HiloId) returns (w: Sitio)
    requires Inv(s) && EsperaA(s, x, y)
    ensures Esta(ColasDe(s, Nadie), x, w) && Vivo(s, y)
    ensures w == EnJoin(y) || (w.EnMutex? && EsperaMutex(s, x, y, w.i))
  {
    if x in Espera(s, Nadie, EnJoin(y)) {
      w := EnJoin(y);
    } else {
      var i: nat :| i < |s.mutexes| && EsperaMutex(s, x, y, i);
      EsperaMutexViva(s, i);
      w := EnMutex(i);
    }
  }

  lemma UnaEspera(s: State, x: HiloId, y: HiloId, z: HiloId)
    requires Inv(s) && EsperaA(s, x, y) && EsperaA(s, x, z)
    ensures y == z && Vivo(s, y)
  {
    var w := EsperaEn(s, x, y);
    var v := EsperaEn(s, x, z);
    assert w == v;
  }

  /** A place where x sits is the device, the memory server, or the list of a thread. */
  lemma UnicaEspera(s: State, x: HiloId, w: Sitio)
    requires Inv(s) && Esta(ColasDe(s, Nadie), x, w)
    ensures w.EnIo? || w.EnDump? <==> !exists y :: EsperaA(s, x, y)
  {
    match w {
      case EnMutex(i) =>
        EsperaMutexViva(s, i);
        assert EsperaMutex(s, x, s.mutexes[i].dueno.value, i);
        assert EsperaA(s, x, s.mutexes[i].dueno.value);
      case EnJoin(u) => assert EsperaA(s, x, u);
      case _ =>
        forall y ensures !EsperaA(s, x, y) {
          if EsperaA(s, x, y) { var v := EsperaEn(s, x, y); }
        }
    }
  }

  lemma EsperaMutexViva(s: State, i: nat)
    requires Inv(s) && i < |s.mutexes| && s.mutexes[i].bloqueados != []
    ensures s.mutexes[i].dueno.Some? && Vivo(s, s.mutexes[i].dueno.value)
  {
    assert DuenoOk(s, Nadie, None, i) && ColaOk(s.mutexes[i]);
  }

  /** Ownership in both directions; a free mutex has no queue; a mutex is never left with a finished thread. */
  lemma DuenoSiYSoloSi(s: State, i: nat, x: HiloId)
    requires Alcanzable(s) && i < |s.mutexes|
    ensures s.mutexes[i].dueno == Some(x) <==> Vivo(s, x) && x in s.tcbs && i in s.tcbs[x].mutexes
    ensures s.mutexes[i].dueno == None ==> s.mutexes[i].bloqueados == []
    ensures x in s.exit ==> s.mutexes[i].dueno != Some(x) && x !in s.mutexes[i].bloqueados
  {
    AlcanzableInv(s);
    assert DuenoOk(s, Nadie, None, i) && ColaOk(s.mutexes[i]);
    if Vivo(s, x) && x in s.tcbs && i in s.tcbs[x].mutexes {
      var k :| 0 <= k < |Asignados(s, Nadie, x)| && Asignados(s, Nadie, x)[k] == i;
      assert Posee(s, x, Asignados(s, Nadie, x)[k]);
    }
    if x in s.mutexes[i].bloqueados { assert Esta(ColasDe(s, Nadie), x, EnMutex(i)); }
  }

  /** Under FIFO, PRIORIDADES and CMN alike. */
  lemma UnaListaPorHilo(s: State, x: HiloId)
    requires Alcanzable(s)
    ensures x in s.tcbs <==> x in s.ready || x in s.exec || x in s.blocked || x in s.exit
    ensures x in s.ready ==> x !in s.exec && x !in s.blocked && x !in s.exit
    ensures x in s.exec ==> x !in s.blocked && x !in s.exit
    ensures x in s.blocked ==> x !in s.exit
    ensures SinRepetidos(s.ready) && |s.exec| <= 1 && SinRepetidos(s.blocked) && SinRepetidos(s.exit)
    ensures s.exec == [] ==> s.ready == []
  {
    AlcanzableInv(s);
  }

  // ---- How each handler changes a mutex ----

  /** A mutex after its release: free, or with the head of its queue as owner. */
  function Cedido(m: Mutex): Mutex {
    if m.bloqueados == [] then m.(dueno := None)
    else m.(dueno := Some(m.bloqueados[0]), bloqueados := m.bloqueados[1..])
  }

  lemma DesbloquearMutexes(s: State, x: HiloId)
    ensures Desbloquear(s, x).mutexes == s.mutexes && BloquearEnEjecucion(s, x).mutexes == s.mutexes
  {
  }

  lemma ProtocoloMutexes(s: State, i: nat)
    requires i < |s.mutexes|
    ensures Protocolo(s, i).mutexes == s.mutexes[i := Cedido(s.mutexes[i])]
  {
    var m := s.mutexes[i];
    if m.bloqueados != [] {
      DesbloquearMutexes(s.(mutexes := s.mutexes[i := m.(bloqueados := m.bloqueados[1..])]), m.bloqueados[0]);
    }
  }

  lemma {:induction false} LiberarRecursosMutexes(s: State, ms: seq<nat>)
    requires Rangos(s, ms) && SinRepetidos(ms)
    ensures forall j: nat :: j < |s.mutexes| ==>
      LiberarRecursos(s, ms).mutexes[j] == (if j in ms then Cedido(s.mutexes[j]) else s.mutexes[j])
    decreases |ms|
  {
    if ms == [] {
      // base case
    } else {
      ProtocoloMutexes(s, ms[0]);
      assert ms == [ms[0]] + ms[1..];
      LiberarRecursosMutexes(Protocolo(s, ms[0]), ms[1..]);
      assert ms[0] !in ms[1..];
    }
  }

  lemma {:induction false} LiberarJoinMutexes(s: State, js: seq<HiloId>)
    ensures LiberarJoin(s, js).mutexes == s.mutexes
    decreases |js|
  {
    if js == [] {
      // base case
    } else {
      DesbloquearMutexes(s, js[0]);
      LiberarJoinMutexes(Desbloquear(s, js[0]), js[1..]);
    }
  }

  lemma FinalizarMutexes(s: State, x: HiloId)
    requires Inv(s) && Vivo(s, x)
    ensures var r := FinalizarHilo(s, x);
            |r.mutexes| == |s.mutexes| && forall j: nat :: j < |s.mutexes| ==>
              r.mutexes[j] == (if j in s.tcbs[x].mutexes
                               then Cedido(s.mutexes[j].(bloqueados := Quitar(s.mutexes[j].bloqueados, x)))
                               else s.mutexes[j])
  {
    var ms, js := s.tcbs[x].mutexes, s.tcbs[x].joiners;
    SinHiloMutexes(s, x);
    var s1 := SinHilo(s, x);
    LiberarRecursosMutexes(s1, ms);
    var s2 := LiberarRecursos(s1, ms);
    LiberarJoinMutexes(s2.(exit := s2.exit + [x]), js);
  }

  lemma SinHiloMutexes(s: State, x: HiloId)
    requires Inv(s) && Vivo(s, x)
    ensures x in s.tcbs && SinRepetidos(s.tcbs[x].mutexes) && |SinHilo(s, x).mutexes| == |s.mutexes|
    ensures forall j: nat :: j < |s.mutexes| ==>
      SinHilo(s, x).mutexes[j] ==
      if j in s.tcbs[x].mutexes then s.mutexes[j].(bloqueados := Quitar(s.mutexes[j].bloqueados, x)) else s.mutexes[j]
  {
    assert Asignados(s, Nadie, x) == s.tcbs[x].mutexes;
    DesocuparEfecto(ConFlag(Remover(s, x), x), x, s.tcbs[x].mutexes);
  }

  // ---- Ending a thread from outside ----

  /** finalizar_hilo keeps the invariant exactly when the thread waits on no mutex of another thread:
      a waiter that is ended in someone else's queue is never taken out of it. */
  lemma FinalizarSiYSoloSi(s: State, x: HiloId)
    requires Inv(s)
    ensures Inv(FinalizarHilo(s, x)) <==> Cancelable(s, x)
  {
    if Cancelable(s, x) {
      FinalizarInv(s, x);
    } else {
      var i: nat :| i < |s.mutexes| && x in s.mutexes[i].bloqueados && s.mutexes[i].dueno != Some(x);
      assert Esta(ColasDe(s, Nadie), x, EnMutex(i));
      QuedaEnCola(s, x, i);
      var r := FinalizarHilo(s, x);
      if Inv(r) { assert Esta(ColasDe(r, Nadie), x, EnMutex(i)); }
    }
  }

  /** What is left of a waiter ended in the queue of a mutex that it does not hold: its place in that queue. */
  lemma QuedaEnCola(s: State, x: HiloId, i: nat)
    requires Inv(s) && Vivo(s, x) && i < |s.mutexes| && x in s.mutexes[i].bloqueados && s.mutexes[i].dueno != Some(x)
    ensures var r := FinalizarHilo(s, x); i < |r.mutexes| && x in r.mutexes[i].bloqueados && x !in r.blocked
  {
    NoEsSuyo(s, x, i);
    FinalizarMutexes(s, x);
    FinalizarSaca(s, x);
  }

  lemma NoEsSuyo(s: State, x: HiloId, i: nat)
    requires Inv(s) && Vivo(s, x) && i < |s.mutexes| && s.mutexes[i].dueno != Some(x)
    ensures i !in s.tcbs[x].mutexes
  {
    var ms := s.tcbs[x].mutexes;
    assert Asignados(s, Nadie, x) == ms;
    forall k | 0 <= k < |ms| ensures ms[k] != i {
      assert Posee(s, x, Asignados(s, Nadie, x)[k]);
    }
  }

  lemma CancelSiYSoloSi(s: State, x: HiloId, tid: int)
    requires Inv(s) && x in s.exec
    ensures Inv(Paso(s, Pide(x, ThreadCancel(tid)))) <==> Cancelable(s, HiloId(x.pid, tid))
  {
    FlagInv(s, x, Nadie, {});
    FinalizarSiYSoloSi(ConFlag(s, x), HiloId(x.pid, tid));
  }

  /** A message keeps the invariant exactly when it ends no thread that waits on another's mutex. */
  lemma PasoSiYSoloSi(s: State, op: Op)
    requires Inv(s)
    ensures Inv(Paso(s, op)) <==> Guarda(s, op)
  {
    match op
    case Pide(x, ThreadCancel(tid)) => if x in s.exec { CancelSiYSoloSi(s, x, tid); }
    case Termina(x) => FinalizarSiYSoloSi(s, x);
    case _ => PasoInv(s, op);
  }

  /** The invariant holds at every point of the run. */
  ghost predicate SiempreInv(s: State, ops: seq<Op>)
    decreases |ops|
  {
    Inv(s) && (ops == [] || SiempreInv(Paso(s, ops[0]), ops[1..]))
  }

  /** A run keeps it throughout exactly when each of its messages meets the guard. */
  lemma {:induction false} CorrerSiYSoloSi(s: State, ops: seq<Op>)
    requires Inv(s)
    ensures SiempreInv(s, ops) <==> Correr(s, ops).Some?
    decreases |ops|
  {
    if ops == [] {
      // base case
    } else {
      PasoSiYSoloSi(s, ops[0]);
      if Guarda(s, ops[0]) { CorrerSiYSoloSi(Paso(s, ops[0]), ops[1..]); }
    }
  }

  /** An ended thread is in no state list but EXIT, guard or no guard. */
  lemma FinalizarSaca(s: State, x: HiloId)
    requires Inv(s) && Vivo(s, x)
    ensures x !in FinalizarHilo(s, x).blocked
  {
    var ms, js := s.tcbs[x].mutexes, s.tcbs[x].joiners;
    QuitarMiembros(s.blocked, x);
    var s0 := ConFlag(Remover(s, x), x);
    assert Asignados(s, Nadie, x) == ms;
    DesocuparEfecto(s0, x, ms);
    var s1 := Desocupar(s0, x, ms);
    LiberarRecursosBlocked(s1, ms, x);
    var s2 := LiberarRecursos(s1, ms);
    LiberarJoinBlocked(s2.(exit := s2.exit + [x]), js, x);
  }

  // ---- FIFO handover ----

  /** The lock request for mutex `i` that this message makes, if it makes one. */
  function Pedido(s: State, op: Op, i: nat): seq<HiloId> {
    match op
    case Pide(x, MutexLock(n)) => if x in s.exec && Buscar(s.mutexes, x.pid, n) == Some(i) then [x] else []
    case _ => []
  }

  function Dueno(s: State, i: nat): Option<HiloId> {
    if i < |s.mutexes| then s.mutexes[i].dueno else None
  }

  function Cola(s: State, i: nat): seq<HiloId> {
    if i < |s.mutexes| then s.mutexes[i].bloqueados else []
  }

  /** The grant of mutex `i` seen between two states: its owner is somebody new. */
  function Otorgado(s: State, r: State, i: nat): seq<HiloId> {
    if Dueno(r, i).Some? && Dueno(r, i) != Dueno(s, i) then [Dueno(r, i).value] else []
  }

  predicate CancelaEspera(s: State, op: Op, i: nat) {
    match op
    case Pide(x, ThreadCancel(tid)) => x in s.exec && HiloId(x.pid, tid) in Cola(s, i)
    case Termina(x) => x in Cola(s, i)
    case _ => false
  }

  lemma CesionOrden(s: State, r: State, i: nat)
    requires Inv(s) && i < |s.mutexes| == |r.mutexes| && r.mutexes[i] == Cedido(s.mutexes[i])
    requires s.mutexes[i].dueno.Some? && s.mutexes[i].dueno.value !in Cola(s, i)
    ensures Cola(s, i) == Otorgado(s, r, i) + Cola(r, i)
  {
    var q := s.mutexes[i].bloqueados;
    if q != [] { assert q == [q[0]] + q[1..]; }
  }

  lemma FinalizarOrden(s: State, x: HiloId, i: nat)
    requires Inv(s) && x !in Cola(s, i)
    ensures Cola(s, i) == Otorgado(s, FinalizarHilo(s, x), i) + Cola(FinalizarHilo(s, x), i)
  {
    if Vivo(s, x) {
      FinalizarMutexes(s, x);
      if i < |s.mutexes| && i in s.tcbs[x].mutexes {
        QuitarAusente(s.mutexes[i].bloqueados, x);
        var k :| 0 <= k < |Asignados(s, Nadie, x)| && Asignados(s, Nadie, x)[k] == i;
        assert Posee(s, x, Asignados(s, Nadie, x)[k]);
        CesionOrden(s, FinalizarHilo(s, x), i);
      }
    }
  }

  /** One message: what waits plus what is asked for is what is granted plus what still waits, in order. */
  lemma PasoOrden(s: State, op: Op, i: nat)
    requires Inv(s) && !CancelaEspera(s, op, i)
    ensures Cola(s, i) + Pedido(s, op, i) == Otorgado(s, Paso(s, op), i) + Cola(Paso(s, op), i)
  {
    if op.Pide? && op.hilo in s.exec {
      var x := op.hilo;
      var c := ConFlag(s, x);
      FlagInv(s, x, Nadie, {});
      EnEjecucionNoEspera(c, x, i);
      AtenderOrden(c, x, op.sys, i);
    } else if op.Termina? {
      FinalizarOrden(s, op.hilo, i);
    } else {
      PasoSinMutexes(s, op);
    }
  }

  lemma PasoSinMutexes(s: State, op: Op)
    requires Formado(s) && !op.Termina? && (op.Pide? ==> op.hilo !in s.exec)
    ensures Paso(s, op).mutexes == s.mutexes
  {
    match op
    case FinIo => if s.io != [] { DesbloquearMutexes(s.(io := s.io[1..]), s.io[0]); }
    case FinDump(x) => DesbloquearMutexes(s.(dumps := Quitar(s.dumps, x)), x);
    case _ =>
  }

  lemma EnEjecucionNoEspera(s: State, x: HiloId, i: nat)
    requires Inv(s) && x in s.exec
    ensures x !in Cola(s, i)
  {
    if i < |s.mutexes| { assert !Esta(ColasDe(s, Nadie), x, EnMutex(i)); }
  }

  lemma AtenderOrden(s: State, x: HiloId, sys: Syscall, i: nat)
    requires Inv(s) && x in s.exec && x !in Cola(s, i) && !CancelaEspera(s, Pide(x, sys), i)
    ensures Cola(s, i) + Pedido(s, Pide(x, sys), i)
            == Otorgado(s, Atender(s, x, sys), i) + Cola(Atender(s, x, sys), i)
  {
    match sys
    case ThreadCancel(tid) => FinalizarOrden(s, HiloId(x.pid, tid), i);
    case ThreadExit => FinalizarOrden(s, x, i);
    case MutexLock(n) =>
      var b := Buscar(s.mutexes, x.pid, n);
      if b.None? { FinalizarOrden(s, x, i); }
      else { LockOrden(s, x, b.value, n, i); }
    case MutexUnlock(n) =>
      var b := Buscar(s.mutexes, x.pid, n);
      if b.None? { FinalizarOrden(s, x, i); }
      else if s.mutexes[b.value].dueno == Some(x) { LiberacionOrden(s, x, b.value, i); }
    case _ => SinPedido(s, x, sys, i);
  }

  /** The calls that neither take nor give a mutex. */
  lemma SinPedido(s: State, x: HiloId, sys: Syscall, i: nat)
    requires Formado(s) && (forall j: nat :: j < |s.mutexes| ==> ColaOk(s.mutexes[j]))
    requires sys.ThreadCreate? || sys.ThreadJoin? || sys.MutexCreate? || sys.DumpMemory? || sys.IO? || sys.Proceso?
    ensures Otorgado(s, Atender(s, x, sys), i) == [] && Cola(Atender(s, x, sys), i) == Cola(s, i)
  {
    DesbloquearMutexes(s, x);
    DesbloquearMutexes(s.(io := s.io + [x]), x);
    if sys.MutexCreate? {
      assert Atender(s, x, sys).mutexes == s.mutexes + [Mutex(x.pid, sys.nombre, None, [])];
    } else {
      assert Atender(s, x, sys).mutexes == s.mutexes;
    }
  }

  lemma LiberacionOrden(s: State, x: HiloId, k: nat, i: nat)
    requires Inv(s) && x in s.exec && k < |s.mutexes| && s.mutexes[k].dueno == Some(x) && x !in Cola(s, i)
    requires x in s.tcbs && Rangos(s, s.tcbs[x].mutexes)
    ensures Cola(s, i) == Otorgado(s, Liberacion(s, k, x), i) + Cola(Liberacion(s, k, x), i)
  {
    LiberacionInv(s, x, k);
    var m := s.(tcbs := s.tcbs[x := s.tcbs[x].(mutexes := Quitar(s.tcbs[x].mutexes, k))]);
    ProtocoloMutexes(m, k);
    if k == i { CesionOrden(s, Liberacion(s, i, x), i); }
  }

  lemma LockOrden(s: State, x: HiloId, k: nat, n: string, i: nat)
    requires Inv(s) && x in s.exec && Buscar(s.mutexes, x.pid, n) == Some(k) && k < |s.mutexes|
    ensures Cola(s, i) + Pedido(s, Pide(x, MutexLock(n)), i) == Otorgado(s, Lock(s, x, n), i) + Cola(Lock(s, x, n), i)
  {
    if s.mutexes[k].dueno.Some? {
      DesbloquearMutexes(s, x);
      EncolarOrden(BloquearEnEjecucion(s, x), k, x, i);
      assert Lock(s, x, n) == Encolar(BloquearEnEjecucion(s, x), k, x);
    } else {
      LockToma(s, x, k, n);
      TomaOrden(s, Lock(s, x, n), x, k, i);
    }
  }

  lemma LockToma(s: State, x: HiloId, k: nat, n: string)
    requires Formado(s) && Buscar(s.mutexes, x.pid, n) == Some(k) && k < |s.mutexes| && s.mutexes[k].dueno.None?
    ensures Lock(s, x, n).mutexes == s.mutexes[k := s.mutexes[k].(dueno := Some(x))]
  {
  }

  lemma TomaOrden(s: State, r: State, x: HiloId, k: nat, i: nat)
    requires k < |s.mutexes| && s.mutexes[k].dueno.None? && ColaOk(s.mutexes[k])
    requires r.mutexes == s.mutexes[k := s.mutexes[k].(dueno := Some(x))]
    ensures Cola(s, i) + (if i == k then [x] else []) == Otorgado(s, r, i) + Cola(r, i)
  {
  }

  lemma EncolarOrden(m: State, k: nat, x: HiloId, i: nat)
    requires k < |m.mutexes|
    ensures Cola(Encolar(m, k, x), i) == if i == k then Cola(m, i) + [x] else Cola(m, i)
    ensures Dueno(Encolar(m, k, x), i) == Dueno(m, i)
  {
  }

  function Pedidos(s: State, ops: seq<Op>, i: nat): seq<HiloId>
    decreases |ops|
  {
    if ops == [] || !Formado(s) then []
    else Pedido(s, ops[0], i) + Pedidos(Paso(s, ops[0]), ops[1..], i)
  }

  function Otorgados(s: State, ops: seq<Op>, i: nat): seq<HiloId>
    decreases |ops|
  {
    if ops == [] || !Formado(s) then []
    else Otorgado(s, Paso(s, ops[0]), i) + Otorgados(Paso(s, ops[0]), ops[1..], i)
  }

  predicate SinCancelarEspera(s: State, ops: seq<Op>, i: nat)
    decreases |ops|
  {
    ops == [] || !Formado(s) || (!CancelaEspera(s, ops[0], i) && SinCancelarEspera(Paso(s, ops[0]), ops[1..], i))
  }

  lemma {:induction false} OrdenDeEntrega(s: State, ops: seq<Op>, i: nat)
    requires Inv(s) && Correr(s, ops).Some? && SinCancelarEspera(s, ops, i)
    ensures Cola(s, i) + Pedidos(s, ops, i) == Otorgados(s, ops, i) + Cola(Correr(s, ops).value, i)
    decreases |ops|
  {
    if ops == [] {
      assert Cola(s, i) + [] == [] + Cola(s, i);
    } else {
      var r := Paso(s, ops[0]);
      PasoInv(s, ops[0]);
      PasoOrden(s, ops[0], i);
      PrimerMensaje(s, ops, i);
      OrdenDeEntrega(r, ops[1..], i);
      Encadenar(Cola(s, i), Pedido(s, ops[0], i), Otorgado(s, r, i), Cola(r, i),
                Pedidos(r, ops[1..], i), Otorgados(r, ops[1..], i), Cola(Correr(r, ops[1..]).value, i));
    }
  }

  lemma PrimerMensaje(s: State, ops: seq<Op>, i: nat)
    requires ops != [] && Formado(s) && Correr(s, ops).Some?
    ensures var r := Paso(s, ops[0]);
            && Pedidos(s, ops, i) == Pedido(s, ops[0], i) + Pedidos(r, ops[1..], i)
            && Otorgados(s, ops, i) == Otorgado(s, r, i) + Otorgados(r, ops[1..], i)
            && Correr(s, ops) == Correr(r, ops[1..])
  {
  }

  lemma Encadenar<T>(c: seq<T>, p: seq<T>, o: seq<T>, c1: seq<T>, ps: seq<T>, os: seq<T>, c2: seq<T>)
    requires c + p == o + c1 && c1 + ps == os + c2
    ensures c + (p + ps) == (o + os) + c2
  {
    assert c + (p + ps) == (c + p) + ps;
    assert (o + c1) + ps == o + (c1 + ps);
    assert o + (os + c2) == (o + os) + c2;
  }

  /** From the start of the kernel: requests for a mutex are granted in order, the ungranted ones are its queue. */
  lemma EntregaFifo(a: Algoritmo, ops: seq<Op>, i: nat)
    requires Correr(Inicial(a), ops).Some? && SinCancelarEspera(Inicial(a), ops, i)
    ensures Pedidos(Inicial(a), ops, i) == Otorgados(Inicial(a), ops, i) + Cola(Correr(Inicial(a), ops).value, i)
  {
    InicialInv(a);
    OrdenDeEntrega(Inicial(a), ops, i);
    assert [] + Pedidos(Inicial(a), ops, i) == Pedidos(Inicial(a), ops, i);
  }
}
