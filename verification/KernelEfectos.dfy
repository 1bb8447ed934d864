/** What each message does, read off the state before it: who is dispatched, blocked, woken, ended or created. */
module KernelEfectos {
  import opened Listas
  import opened KernelEstado
  import opened Reparto
  import opened KernelInvariante
  import opened KernelPasos
  import opened KernelTeoremas
  import opened KernelTurnos

  // ---- A dispatch ----

  /** Whose turn it is among xs: the first under FIFO, else the earliest of the lowest priority numbers. */
  predicate EsElegido(s: State, xs: seq<HiloId>, k: nat)
    requires k < |xs|
  {
    if s.algoritmo.FIFO? then k == 0 else EsTurnoDe(s, xs, k)
  }

  /** Under CMN each dispatch has a verifier of its own, on the thread and on a new timer. */
  predicate Reloj(s: State, r: State, h: HiloId) {
    if s.algoritmo.CMN? then
      && h in r.tcbs && r.varVerificador == s.varVerificador + 1 && r.tcbs[h].verificador == s.varVerificador + 1
      && !r.tcbs[h].cancelarQuantum && r.timers == s.timers + {Timer(h, s.varVerificador + 1)}
    else r.varVerificador == s.varVerificador && r.timers == s.timers
  }

  predicate DespachaEn(s: State, xs: seq<HiloId>, r: State, k: nat)
    requires k < |xs|
  {
    EsElegido(s, xs, k) && r.exec == [xs[k]] && r.ready == xs[..k] + xs[k + 1..] && Reloj(s, r, xs[k])
  }

  /** Of the candidates xs the one whose turn it is runs; the others are READY, in their order. */
  ghost predicate Despachado(s: State, xs: seq<HiloId>, r: State) {
    if xs == [] then r.exec == [] && r.ready == [] && r.varVerificador == s.varVerificador && r.timers == s.timers
    else exists k: nat :: k < |xs| && DespachaEn(s, xs, r, k)
  }

  predicate MismoTiempo(s: State, m: State) {
    m.algoritmo == s.algoritmo && m.varVerificador == s.varVerificador && m.timers == s.timers
  }

  lemma PlanificarEfecto(s: State, m: State) returns (k: nat)
    requires MismoTiempo(s, m) && (forall y :: Prioridad(m, y) == Prioridad(s, y))
    requires m.exec == [] && m.ready != [] && SinRepetidos(m.ready) && forall y :: y in m.ready ==> y in m.tcbs
    ensures k < |m.ready| && DespachaEn(s, m.ready, Planificar(m), k) && Despachado(s, m.ready, Planificar(m))
    ensures MismosDatos(m, Planificar(m)) && Planificar(m).blocked == m.blocked && Planificar(m).exit == m.exit
    ensures forall y :: y in m.tcbs && y != m.ready[k] ==> Planificar(m).tcbs[y] == m.tcbs[y]
  {
    k := 0;
    if !m.algoritmo.FIFO? { k := ElegirTurno(m); }
    assert Planificar(m) == Despachar(m, m.ready[k]);
    DespacharEfecto(s, m, k);
    assert DespachaEn(s, m.ready, Planificar(m), k);
  }

  lemma DespacharEfecto(s: State, m: State, k: nat)
    requires MismoTiempo(s, m) && k < |m.ready| && EsElegido(m, m.ready, k) && m.exec == []
    requires SinRepetidos(m.ready) && m.ready[k] in m.tcbs && forall y :: Prioridad(m, y) == Prioridad(s, y)
    ensures var r := Despachar(m, m.ready[k]);
            && DespachaEn(s, m.ready, r, k) && MismosDatos(m, r) && r.blocked == m.blocked && r.exit == m.exit
            && forall y :: y in m.tcbs && y != m.ready[k] ==> r.tcbs[y] == m.tcbs[y]
  {
    QuitarEnPosicion(m.ready, k);
  }

  // ---- Eviction ----

  /** Somebody READY goes before x, or would but for having arrived later. */
  predicate HayRelevo(s: State, x: HiloId) {
    exists k :: 0 <= k < |s.ready| && (s.algoritmo.FIFO? || Prioridad(s, s.ready[k]) <= Prioridad(s, x))
  }

  predicate Relevado(s: State, r: State, x: HiloId, k: nat)
    requires k < |s.ready|
  {
    EsElegido(s, s.ready, k) && r.exec == [s.ready[k]] && r.ready == s.ready[..k] + s.ready[k + 1..] + [x]
  }

  /** An eviction gives the CPU to the ready thread whose turn it is and puts x last, with its flag up; or gives it
      back to x, under a new verifier, if everybody READY has a greater priority number. */
  lemma DesalojaEfecto(s: State, x: HiloId)
    requires Inv(s) && x in s.exec
    ensures var r := Paso(s, Desaloja(x));
            && x in r.tcbs && r.blocked == s.blocked && r.exit == s.exit && MismosDatos(s, r)
            && Despachado(s, s.ready + [x], r)
            && (if HayRelevo(s, x)
                then r.tcbs[x].cancelarQuantum && exists k: nat :: k < |s.ready| && Relevado(s, r, x, k)
                else r.exec == [x] && r.ready == s.ready && Reloj(s, r, x))
  {
    var c := ConFlag(s, x);
    var m := c.(exec := [], ready := s.ready + [x]);
    assert s.exec == [x] && Quitar(s.exec, x) == [];
    DesalojaListas(s, m, x);
    var k := PlanificarEfecto(s, m);
    var r := Paso(s, Desaloja(x));
    assert r == Planificar(m);
    RelevoONo(s, r, x, k);
    if k < |s.ready| { assert Relevado(s, r, x, k); }
  }

  lemma RelevoONo(s: State, r: State, x: HiloId, k: nat)
    requires k < |s.ready + [x]| && DespachaEn(s, s.ready + [x], r, k)
    ensures k < |s.ready| <==> HayRelevo(s, x)
    ensures k < |s.ready| ==> Relevado(s, r, x, k)
    ensures k == |s.ready| ==> r.exec == [x] && r.ready == s.ready
  {
    var xs := s.ready + [x];
    assert xs[|s.ready|] == x;
    assert forall j :: 0 <= j < |s.ready| ==> xs[j] == s.ready[j];
    if k < |s.ready| {
      assert xs[k + 1..] == s.ready[k + 1..] + [x] && xs[..k] == s.ready[..k];
    }
  }

  // ---- Blocking ----

  /** Where this message makes its caller wait, if it does. */
  function Bloqueo(s: State, op: Op): Option<Sitio> {
    match op
    case Pide(x, ThreadJoin(tid)) =>
      if x in s.exec && Vivo(s, HiloId(x.pid, tid)) then Some(EnJoin(HiloId(x.pid, tid))) else None
    case Pide(x, MutexLock(n)) =>
      var b := Buscar(s.mutexes, x.pid, n);
      if x in s.exec && b.Some? && s.mutexes[b.value].dueno.Some? then Some(EnMutex(b.value)) else None
    case Pide(x, DumpMemory) => if x in s.exec then Some(EnDump) else None
    case Pide(x, IO) => if x in s.exec then Some(EnIo) else None
    case _ => None
  }

  /** x leaves the CPU for the end of BLOCKED, its flag is up, and the ready thread whose turn it is runs. */
  ghost predicate Detenido(s: State, r: State, x: HiloId) {
    && x in r.tcbs && r.tcbs[x].cancelarQuantum && r.blocked == s.blocked + [x] && r.exit == s.exit
    && Despachado(s, s.ready, r)
  }

  lemma BloquearEfecto(s: State, x: HiloId)
    requires Inv(s) && x in s.exec
    ensures Detenido(s, BloquearEnEjecucion(s, x), x)
  {
    assert s.exec == [x] && Quitar(s.exec, x) == [];
    var m := ConFlag(s.(exec := [], blocked := s.blocked + [x]), x);
    assert BloquearEnEjecucion(s, x) == Planificar(m);
    if s.ready != [] { var k := PlanificarEfecto(s, m); }
  }

  /** The caller waits at the end of that list and of no other. */
  lemma BloqueoEfecto(s: State, op: Op)
    requires Inv(s) && Bloqueo(s, op).Some?
    ensures var r := Paso(s, op);
            && Detenido(s, r, op.hilo)
            && (forall i: nat :: Dueno(r, i) == Dueno(s, i))
            && (forall w :: Espera(r, Nadie, w) == UnoMas(s, Bloqueo(s, op).value, op.hilo, w))
  {
    var s1 := TrasBloquear(s, op.hilo);
    AtenderCola(s, s1, op.hilo, op.sys, Bloqueo(s, op).value);
    SigueDetenido(s, s1, Paso(s, op), op.hilo);
    forall v ensures Espera(Paso(s, op), Nadie, v) == UnoMas(s, Bloqueo(s, op).value, op.hilo, v) {
      assert Espera(s1, Nadie, v) == Espera(s, Nadie, v);
    }
  }

  /** The queue at v once x has been put at the end of the one at w. */
  function UnoMas(s: State, w: Sitio, x: HiloId, v: Sitio): seq<HiloId> {
    if v == w then Espera(s, Nadie, v) + [x] else Espera(s, Nadie, v)
  }

  /** The state with the caller off the CPU and not yet in any queue. */
  lemma TrasBloquear(s: State, x: HiloId) returns (s1: State)
    requires Inv(s) && x in s.exec
    ensures s1 == BloquearEnEjecucion(ConFlag(s, x), x)
    ensures Detenido(s, s1, x) && s1.mutexes == s.mutexes && s1.tcbs.Keys == s.tcbs.Keys && Ocupado(s1)
    ensures forall y :: Vivo(s1, y) <==> Vivo(s, y)
    ensures forall v :: Espera(s1, Nadie, v) == Espera(s, Nadie, v)
  {
    var c := ConFlag(s, x);
    FlagInv(s, x, Nadie, {});
    BloquearEfecto(c, x);
    s1 := BloquearEnEjecucion(c, x);
    DetenidoMismo(s, c, s1, x);
    BloquearInv(c, x);
    ColasIguales(s, s1, Nadie);
    forall v ensures Espera(s1, Nadie, v) == Espera(s, Nadie, v) {
      assert ColasDe(s1, Nadie)(v) == ColasDe(s, Nadie)(v);
    }
  }

  /** What the handlers do once the caller has left the CPU. */
  lemma AtenderCola(s: State, s1: State, x: HiloId, sys: Syscall, w: Sitio)
    requires Formado(s) && (forall y :: Vivo(s, y) ==> y in s.tcbs) && s1 == BloquearEnEjecucion(ConFlag(s, x), x)
    requires Bloqueo(s, Pide(x, sys)) == Some(w) && Ocupado(s1)
    requires s1.mutexes == s.mutexes && s1.tcbs.Keys == s.tcbs.Keys && forall y :: Vivo(s1, y) <==> Vivo(s, y)
    ensures var r := Paso(s, Pide(x, sys));
            MismoDespacho(s1, r) && forall v :: Espera(r, Nadie, v) == UnoMas(s1, w, x, v)
  {
    var c, r := ConFlag(s, x), Paso(s, Pide(x, sys));
    match sys {
      case ThreadJoin(tid) =>
        AtenderJoinEs(c, x, tid);
        JoinCola(s1, r, x, w.hilo);
      case MutexLock(n) =>
        AtenderLockEs(c, x, n);
        LockCola(s1, r, x, w.i);
      case DumpMemory =>
        AtenderDumpEs(c, x);
        DumpCola(s1, r, x);
      case IO =>
        AtenderIoEs(c, x);
        IoConmuta(c, x);
        IoCola(s1, r, x);
    }
  }

  /** Nothing but lists of waiters differs. */
  ghost predicate MismoDespacho(m: State, r: State) {
    && r.ready == m.ready && r.exec == m.exec && r.blocked == m.blocked && r.exit == m.exit
    && r.varVerificador == m.varVerificador && r.timers == m.timers && r.tcbs.Keys == m.tcbs.Keys
    && (forall y :: y in m.tcbs ==> r.tcbs[y].verificador == m.tcbs[y].verificador
                                    && r.tcbs[y].cancelarQuantum == m.tcbs[y].cancelarQuantum)
    && (forall i: nat :: Dueno(r, i) == Dueno(m, i))
  }

  lemma JoinCola(m: State, r: State, x: HiloId, u: HiloId)
    requires u in m.tcbs && Vivo(m, u)
    requires r == m.(tcbs := m.tcbs[u := m.tcbs[u].(joiners := m.tcbs[u].joiners + [x])])
    ensures MismoDespacho(m, r) && forall v :: Espera(r, Nadie, v) == UnoMas(m, EnJoin(u), x, v)
  {
  }

  lemma LockCola(m: State, r: State, x: HiloId, i: nat)
    requires i < |m.mutexes| && r == Encolar(m, i, x)
    ensures MismoDespacho(m, r) && forall v :: Espera(r, Nadie, v) == UnoMas(m, EnMutex(i), x, v)
  {
  }

  lemma DumpCola(m: State, r: State, x: HiloId)
    requires r == m.(dumps := m.dumps + [x])
    ensures MismoDespacho(m, r) && forall v :: Espera(r, Nadie, v) == UnoMas(m, EnDump, x, v)
  {
  }

  lemma IoCola(m: State, r: State, x: HiloId)
    requires r == m.(io := m.io + [x])
    ensures MismoDespacho(m, r) && forall v :: Espera(r, Nadie, v) == UnoMas(m, EnIo, x, v)
  {
  }

  lemma DetenidoMismo(s: State, c: State, r: State, x: HiloId)
    requires c == ConFlag(s, x) && Detenido(c, r, x)
    ensures Detenido(s, r, x)
  {
    DespachadoMismo(s, c, s.ready, r);
  }

  lemma DespachadoMismo(s: State, c: State, xs: seq<HiloId>, r: State)
    requires MismoTiempo(s, c) && (forall y :: Prioridad(c, y) == Prioridad(s, y)) && Despachado(c, xs, r)
    ensures Despachado(s, xs, r)
  {
    if xs != [] {
      var k: nat :| k < |xs| && DespachaEn(c, xs, r, k);
      assert DespachaEn(s, xs, r, k);
    }
  }

  lemma SigueDetenido(s: State, m: State, r: State, x: HiloId)
    requires Detenido(s, m, x) && MismoDespacho(m, r)
    ensures Detenido(s, r, x)
  {
    if s.ready != [] {
      var k: nat :| k < |s.ready| && DespachaEn(s, s.ready, m, k);
      assert DespachaEn(s, s.ready, r, k);
    }
  }

  // ---- Waking ----

  /** h leaves BLOCKED: for the end of READY while somebody runs, else for the CPU. */
  ghost predicate Levantado(s: State, r: State, h: HiloId) {
    && r.blocked == Quitar(s.blocked, h) && h !in r.blocked && r.exit == s.exit
    && (if s.exec != [] then r.exec == s.exec && r.ready == s.ready + [h] && MismoTiempo(s, r)
        else r.exec == [h] && r.ready == [] && Reloj(s, r, h))
  }

  /** Nobody moves. */
  predicate Quietos(s: State, r: State) {
    r.ready == s.ready && r.exec == s.exec && r.blocked == s.blocked && r.exit == s.exit && MismoTiempo(s, r)
  }

  lemma DesbloquearEfecto(s: State, m: State, h: HiloId)
    requires Inv(s) && MismoTiempo(s, m) && MismasListas(s, m) && forall y :: Prioridad(m, y) == Prioridad(s, y)
    ensures if h in s.blocked then Levantado(s, Desbloquear(m, h), h) else Quietos(s, Desbloquear(m, h))
    ensures MismosDatos(m, Desbloquear(m, h))
    ensures Planificar(Desbloquear(m, h)) == Desbloquear(m, h)
  {
    if h in s.blocked {
      QuitarMiembros(s.blocked, h);
      var a := m.(blocked := Quitar(m.blocked, h), ready := m.ready + [h]);
      if s.exec == [] {
        assert a.ready == [h];
        var k := PlanificarEfecto(s, a);
      }
    }
  }

  /** The device lets go of the head of its queue. */
  lemma FinIoEfecto(s: State)
    requires Inv(s) && s.io != []
    ensures var r := Paso(s, FinIo);
            && r.io == s.io[1..] && r.dumps == s.dumps && r.mutexes == s.mutexes
            && (if s.io[0] in s.blocked then Levantado(s, r, s.io[0]) else Quietos(s, r))
  {
    DesbloquearEfecto(s, s.(io := s.io[1..]), s.io[0]);
  }

  lemma FinDumpEfecto(s: State, x: HiloId)
    requires Inv(s) && x in s.dumps
    ensures var r := Paso(s, FinDump(x));
            && r.dumps == Quitar(s.dumps, x) && x !in r.dumps && r.io == s.io && r.mutexes == s.mutexes
            && (if x in s.blocked then Levantado(s, r, x) else Quietos(s, r))
  {
    DesbloquearEfecto(s, s.(dumps := Quitar(s.dumps, x)), x);
    assert SinRepetidos(ColasDe(s, Nadie)(EnDump));
    QuitarMiembros(s.dumps, x);
  }

  /** The mutex that a thread means by a name: the first of its process that has it. */
  predicate EsSuMutex(s: State, x: HiloId, nombre: string, i: nat) {
    i < |s.mutexes| && s.mutexes[i].pid == x.pid && s.mutexes[i].nombre == nombre && Primero(s.mutexes, i)
  }

  predicate SinMutex(s: State, x: HiloId, nombre: string) {
    forall i :: 0 <= i < |s.mutexes| ==> !(s.mutexes[i].pid == x.pid && s.mutexes[i].nombre == nombre)
  }

  lemma BuscarSuMutex(s: State, x: HiloId, nombre: string, i: nat)
    ensures EsSuMutex(s, x, nombre, i) <==> Buscar(s.mutexes, x.pid, nombre) == Some(i)
    ensures SinMutex(s, x, nombre) <==> Buscar(s.mutexes, x.pid, nombre) == None
  {
  }

  /** Mutex i has a new owner and a new queue; the others are as they were. */
  predicate CambiaMutex(s: State, r: State, i: nat, dueno: Option<HiloId>, cola: seq<HiloId>) {
    && i < |s.mutexes| == |r.mutexes| && r.mutexes[i] == s.mutexes[i].(dueno := dueno, bloqueados := cola)
    && forall j :: 0 <= j < |s.mutexes| && j != i ==> r.mutexes[j] == s.mutexes[j]
  }

  /** x goes on without mutex i, which is the first waiter's, awake, or nobody's. */
  ghost predicate Suelta(s: State, r: State, x: HiloId, i: nat)
    requires i < |s.mutexes|
  {
    var q := s.mutexes[i].bloqueados;
    && x in r.tcbs && i !in r.tcbs[x].mutexes && r.tcbs[x].cancelarQuantum && r.exec == [x]
    && r.io == s.io && r.dumps == s.dumps
    && (if q == [] then CambiaMutex(s, r, i, None, []) && Quietos(s, r)
        else CambiaMutex(s, r, i, Some(q[0]), q[1..]) && Levantado(s, r, q[0]))
  }

  /** MUTEX_UNLOCK by the owner: the first waiter owns the mutex and wakes, or nobody does; the caller goes on. */
  lemma UnlockEfecto(s: State, x: HiloId, n: string, i: nat)
    requires Inv(s) && x in s.exec && EsSuMutex(s, x, n, i) && s.mutexes[i].dueno == Some(x)
    ensures Suelta(s, Paso(s, Pide(x, MutexUnlock(n))), x, i)
  {
    var m := PasoSuelta(s, x, n, i);
    ColaBloqueada(s, i);
    ProtocoloEfecto(s, m, x, i);
  }

  lemma PasoSuelta(s: State, x: HiloId, n: string, i: nat) returns (m: State)
    requires Inv(s) && x in s.exec && EsSuMutex(s, x, n, i) && s.mutexes[i].dueno == Some(x)
    ensures i < |m.mutexes| && Paso(s, Pide(x, MutexUnlock(n))) == Protocolo(m, i)
    ensures MismoTiempo(s, m) && MismasListas(s, m) && m.mutexes == s.mutexes && m.io == s.io && m.dumps == s.dumps
    ensures x in m.tcbs && i !in m.tcbs[x].mutexes && m.tcbs[x].cancelarQuantum
    ensures SinRepetidos(s.blocked) && s.exec == [x] && x !in s.blocked
  {
    BuscarSuMutex(s, x, n, i);
    var c := LevantaFlag(s, x);
    PasoUnlockEs(s, x, n);
    m := UnlockSuelta(c, x, n, i);
  }

  /** The flag alone. */
  lemma LevantaFlag(s: State, x: HiloId) returns (c: State)
    requires Inv(s) && x in s.exec
    ensures c == ConFlag(s, x) && Inv(c) && x in c.tcbs && c.tcbs[x].cancelarQuantum
    ensures MismoTiempo(s, c) && MismasListas(s, c) && c.mutexes == s.mutexes && c.io == s.io && c.dumps == s.dumps
    ensures SinRepetidos(s.blocked) && s.exec == [x] && x !in s.blocked
  {
    c := ConFlag(s, x);
    FlagInv(s, x, Nadie, {});
  }

  lemma PasoUnlockEs(s: State, x: HiloId, n: string)
    requires Formado(s) && Formado(ConFlag(s, x)) && x in s.exec
    ensures Paso(s, Pide(x, MutexUnlock(n))) == Unlock(ConFlag(s, x), x, n)
  {
    AtenderUnlockEs(ConFlag(s, x), x, n);
  }

  /** The mutex is out of its owner's list, by name, before the protocol runs. */
  lemma UnlockSuelta(c: State, x: HiloId, n: string, i: nat) returns (m: State)
    requires Inv(c) && x in c.exec && Buscar(c.mutexes, x.pid, n) == Some(i) && c.mutexes[i].dueno == Some(x)
    ensures i < |m.mutexes| && Unlock(c, x, n) == Protocolo(m, i)
    ensures MismoTiempo(c, m) && MismasListas(c, m) && m.mutexes == c.mutexes && m.io == c.io && m.dumps == c.dumps
    ensures x in c.tcbs && x in m.tcbs && i !in m.tcbs[x].mutexes
    ensures m.tcbs[x].cancelarQuantum == c.tcbs[x].cancelarQuantum
  {
    LiberacionPorNombre(c, x, i);
    m := c.(tcbs := c.tcbs[x := c.tcbs[x].(mutexes := Quitar(c.tcbs[x].mutexes, i))]);
    assert Asignados(c, Nadie, x) == c.tcbs[x].mutexes;
    QuitarMiembros(c.tcbs[x].mutexes, i);
  }

  lemma ColaBloqueada(s: State, i: nat)
    requires Inv(s) && i < |s.mutexes|
    ensures forall y :: y in s.mutexes[i].bloqueados ==> y in s.blocked
  {
    forall y | y in s.mutexes[i].bloqueados ensures y in s.blocked { assert Esta(ColasDe(s, Nadie), y, EnMutex(i)); }
  }

  lemma ProtocoloEfecto(s: State, m: State, x: HiloId, i: nat)
    requires SinRepetidos(s.blocked) && s.exec == [x] && MismoTiempo(s, m) && MismasListas(s, m) && m.mutexes == s.mutexes
    requires i < |s.mutexes| && (forall y :: y in s.mutexes[i].bloqueados ==> y in s.blocked) && x !in s.blocked
    requires x in m.tcbs && i !in m.tcbs[x].mutexes && m.tcbs[x].cancelarQuantum && m.io == s.io && m.dumps == s.dumps
    ensures Suelta(s, Protocolo(m, i), x, i)
  {
    var u := m.mutexes[i];
    if u.bloqueados != [] {
      var h := u.bloqueados[0];
      QuitarMiembros(s.blocked, h);
    }
  }

  /** From another thread it does nothing. */
  lemma UnlockAjeno(s: State, x: HiloId, n: string, i: nat)
    requires Inv(s) && x in s.exec && EsSuMutex(s, x, n, i) && s.mutexes[i].dueno != Some(x)
    ensures Paso(s, Pide(x, MutexUnlock(n))) == ConFlag(s, x)
  {
    BuscarSuMutex(s, x, n, i);
    AtenderUnlockEs(ConFlag(s, x), x, n);
    NoEsDueno(ConFlag(s, x), x, n, i);
  }

  lemma NoEsDueno(c: State, x: HiloId, n: string, i: nat)
    requires Formado(c) && Buscar(c.mutexes, x.pid, n) == Some(i) && c.mutexes[i].dueno != Some(x)
    ensures Unlock(c, x, n) == c
  {
  }

  /** MUTEX_LOCK of a free mutex: the caller owns it and goes on. */
  lemma LockLibreEfecto(s: State, x: HiloId, n: string, i: nat)
    requires Inv(s) && x in s.exec && EsSuMutex(s, x, n, i) && s.mutexes[i].dueno == None
    ensures var r := Paso(s, Pide(x, MutexLock(n)));
            && CambiaMutex(s, r, i, Some(x), []) && Quietos(s, r) && r.io == s.io && r.dumps == s.dumps
            && x in r.tcbs && r.tcbs[x].mutexes == s.tcbs[x].mutexes + [i] && r.tcbs[x].cancelarQuantum
  {
    BuscarSuMutex(s, x, n, i);
    assert ColaOk(s.mutexes[i]);
    AtenderLockEs(ConFlag(s, x), x, n);
  }

  // ---- Creating ----

  /** h is new: the next tid of its process, with the priority asked for, no joiners and no mutexes. */
  predicate Nacido(s: State, r: State, h: HiloId, prioridad: int) {
    && h !in s.tcbs && r.tcbs.Keys == s.tcbs.Keys + {h} && r.tcbs[h].prioridad == prioridad
    && r.tcbs[h].joiners == [] && r.tcbs[h].mutexes == []
    && (forall y :: y in s.tcbs ==> r.tcbs[y].prioridad == s.tcbs[y].prioridad)
    && h.pid in r.siguienteTid && r.siguienteTid[h.pid] == h.tid + 1
    && r.blocked == s.blocked && r.exit == s.exit && r.mutexes == s.mutexes && r.io == s.io && r.dumps == s.dumps
  }

  lemma CreaHiloEfecto(s: State, x: HiloId, p: int, f: bool)
    requires Inv(s) && x in s.exec
    ensures x.pid in s.siguienteTid
    ensures var r, h := Paso(s, Pide(x, ThreadCreate(p, f))), HiloId(x.pid, s.siguienteTid[x.pid]);
            && Nacido(s, r, h, p) && r.exec == s.exec && r.ready == s.ready + [h] && MismoTiempo(s, r)
            && x in r.tcbs && r.tcbs[x].cancelarQuantum
  {
    TidLibre(s, x.pid);
  }

  /** Thread 0 of a new process runs at once if nobody does, and is the last of READY otherwise. */
  lemma CreaProcesoEfecto(s: State, pid: int, p: int, f: bool)
    requires Inv(s) && pid !in s.siguienteTid
    ensures var r, h := Paso(s, NuevoProceso(pid, p, f)), HiloId(pid, 0);
            && Nacido(s, r, h, p)
            && (if s.exec == [] then r.exec == [h] && r.ready == [] && Reloj(s, r, h)
                else r.exec == s.exec && r.ready == s.ready + [h] && MismoTiempo(s, r))
  {
    var a := HiloDeProceso(s, pid, p, f);
    if s.exec == [] {
      DespachaUnico(s, a, HiloId(pid, 0));
      NacidoTras(s, a, Planificar(a), HiloId(pid, 0), p);
    }
  }

  lemma HiloDeProceso(s: State, pid: int, p: int, f: bool) returns (a: State)
    requires Inv(s) && pid !in s.siguienteTid
    ensures Paso(s, NuevoProceso(pid, p, f)) == Planificar(a) && Nacido(s, a, HiloId(pid, 0), p) && MismoTiempo(s, a)
    ensures a.exec == s.exec && a.ready == s.ready + [HiloId(pid, 0)] && (s.exec == [] ==> s.ready == [])
  {
    a := HiloNuevo(s.(siguienteTid := s.siguienteTid[pid := 0]), pid, p, f);
    assert HiloId(pid, 0) !in s.tcbs;
  }

  lemma NacidoTras(s: State, a: State, r: State, h: HiloId, p: int)
    requires Nacido(s, a, h, p) && MismosDatos(a, r) && r.blocked == a.blocked && r.exit == a.exit
    requires forall y :: y in a.tcbs ==> r.tcbs[y].prioridad == a.tcbs[y].prioridad
    ensures Nacido(s, r, h, p)
  {
  }

  /** With one thread to choose from there is no choice. */
  lemma DespachaUnico(s: State, a: State, h: HiloId)
    requires a.exec == [] && a.ready == [h] && h in a.tcbs && MismoTiempo(s, a)
    ensures Planificar(a).exec == [h] && Planificar(a).ready == [] && Reloj(s, Planificar(a), h)
    ensures MismosDatos(a, Planificar(a)) && Planificar(a).blocked == a.blocked && Planificar(a).exit == a.exit
    ensures forall y :: y in a.tcbs ==> Planificar(a).tcbs[y].prioridad == a.tcbs[y].prioridad
  {
    assert Elegir(a) == h;
  }

  lemma CreaMutexEfecto(s: State, x: HiloId, n: string)
    requires Inv(s) && x in s.exec
    ensures var r := Paso(s, Pide(x, MutexCreate(n)));
            && Quietos(s, r) && r.mutexes == s.mutexes + [Mutex(x.pid, n, None, [])] && r.io == s.io && r.dumps == s.dumps
            && x in r.tcbs && r.tcbs[x].cancelarQuantum
  {
  }

  // ---- Ending ----

  /** The thread that this message ends, if it ends one. */
  function Finado(s: State, op: Op): Option<HiloId> {
    match op
    case Pide(x, ThreadExit) => if x in s.exec then Some(x) else None
    case Pide(x, ThreadCancel(tid)) => if x in s.exec && Vivo(s, HiloId(x.pid, tid)) then Some(HiloId(x.pid, tid)) else None
    case Pide(x, MutexLock(n)) => if x in s.exec && SinMutex(s, x, n) then Some(x) else None
    case Pide(x, MutexUnlock(n)) => if x in s.exec && SinMutex(s, x, n) then Some(x) else None
    case Termina(x) => if Vivo(s, x) then Some(x) else None
    case _ => None
  }

  /** y is the first of the queue of mutex i, x itself left aside. */
  predicate EsCabeza(s: State, x: HiloId, i: nat, y: HiloId) {
    i < |s.mutexes| && var q := Quitar(s.mutexes[i].bloqueados, x); q != [] && q[0] == y
  }

  /** y waits for the end of x, or is next for a mutex of x. */
  predicate EsperaSuFin(s: State, x: HiloId, y: HiloId) {
    && y in s.blocked && y != x
    && ((x in s.tcbs && y in s.tcbs[x].joiners)
        || exists i :: 0 <= i < |s.mutexes| && s.mutexes[i].dueno == Some(x) && EsCabeza(s, x, i, y))
  }

  /** x is in EXIT and nowhere else; exactly those that waited for its end, or were next for one of its mutexes, wake;
      each of its mutexes goes to the first of its queue, or to nobody. */
  ghost predicate Terminado(s: State, r: State, x: HiloId) {
    && r.exit == s.exit + [x] && (forall y :: Vivo(r, y) <==> Vivo(s, y) && y != x)
    && (forall y :: y in r.blocked <==> y in s.blocked && y != x && !EsperaSuFin(s, x, y))
    && |r.mutexes| == |s.mutexes| && (forall i: nat :: i < |s.mutexes| ==> MutexHeredado(s, r, x, i))
    && x !in r.exec && (s.exec != [] && s.exec != [x] ==> r.exec == s.exec)
    && (s.exec == [x] && s.ready != [] ==> r.exec != [])
    && r.tcbs.Keys == s.tcbs.Keys && r.io == s.io && r.dumps == s.dumps
  }

  predicate MutexHeredado(s: State, r: State, x: HiloId, i: nat)
    requires i < |s.mutexes| == |r.mutexes|
  {
    if s.mutexes[i].dueno != Some(x) then r.mutexes[i] == s.mutexes[i]
    else
      var q := Quitar(s.mutexes[i].bloqueados, x);
      r.mutexes[i] == s.mutexes[i].(dueno := if q == [] then None else Some(q[0]),
                                    bloqueados := if q == [] then [] else q[1..])
  }

  lemma PlanificarVivos(m: State)
    ensures forall y :: Vivo(Planificar(m), y) <==> Vivo(m, y)
    ensures Planificar(m).blocked == m.blocked && (m.exec != [] ==> Planificar(m) == m)
  {
    if m.exec == [] && m.ready != [] {
      ElegirMiembro(m);
      QuitarIncluye(m.ready, Elegir(m));
      QuitarDeja(m.ready, Elegir(m));
    }
  }

  /** What waking one thread does to everybody. */
  lemma DesbloquearVivos(m: State, h: HiloId)
    requires SinRepetidos(m.blocked)
    ensures var r := Desbloquear(m, h);
            && (forall y :: Vivo(r, y) <==> Vivo(m, y)) && SinRepetidos(r.blocked)
            && (forall y :: y in r.blocked <==> y in m.blocked && y != h) && (m.exec != [] ==> r.exec == m.exec)
            && r.tcbs.Keys == m.tcbs.Keys && r.io == m.io && r.dumps == m.dumps
  {
    QuitarMiembros(m.blocked, h);
    if h in m.blocked {
      var a := m.(blocked := Quitar(m.blocked, h), ready := m.ready + [h]);
      PlanificarVivos(a);
    }
  }

  /** Nobody's lists of mutexes or joiners matter for it. */
  ghost predicate MismosVivos(m: State, r: State) {
    && SinRepetidos(r.blocked) && (forall y :: Vivo(r, y) <==> Vivo(m, y)) && (m.exec != [] ==> r.exec == m.exec)
    && r.tcbs.Keys == m.tcbs.Keys && r.io == m.io && r.dumps == m.dumps
  }

  predicate PrimeroDe(ms: seq<Mutex>, i: nat, y: HiloId) {
    i < |ms| && ms[i].bloqueados != [] && ms[i].bloqueados[0] == y
  }

  lemma ProtocoloVivos(m: State, i: nat)
    requires i < |m.mutexes| && SinRepetidos(m.blocked)
    ensures MismosVivos(m, Protocolo(m, i))
    ensures forall y :: y in Protocolo(m, i).blocked <==> y in m.blocked && !PrimeroDe(m.mutexes, i, y)
  {
    var u := m.mutexes[i];
    if u.bloqueados != [] {
      var h := u.bloqueados[0];
      var s0 := m.(mutexes := m.mutexes[i := u.(bloqueados := u.bloqueados[1..])]);
      DesbloquearVivos(s0, h);
      var s1 := Desbloquear(s0, h);
      AsignarVivos(s1, i, h);
      assert Protocolo(m, i) == ConDueno(Asignar(s1, i, h), i, Some(h));
      forall y ensures Vivo(Protocolo(m, i), y) <==> Vivo(m, y) { assert Vivo(s0, y) <==> Vivo(m, y); }
    }
  }

  lemma AsignarVivos(m: State, i: nat, h: HiloId)
    requires i < |m.mutexes| && SinRepetidos(m.blocked)
    ensures var r := ConDueno(Asignar(m, i, h), i, Some(h)); MismosVivos(m, r) && r.blocked == m.blocked
  {
  }

  lemma {:induction false} LiberarRecursosVivos(m: State, ms: seq<nat>)
    requires Rangos(m, ms) && SinRepetidos(ms) && SinRepetidos(m.blocked)
    ensures MismosVivos(m, LiberarRecursos(m, ms))
    ensures forall y :: y in LiberarRecursos(m, ms).blocked
                        <==> y in m.blocked && forall i :: i in ms ==> !PrimeroDe(m.mutexes, i, y)
    decreases |ms|
  {
    if ms == [] {
      // base case
    } else {
      ProtocoloVivos(m, ms[0]);
      ProtocoloMutexes(m, ms[0]);
      var a := Protocolo(m, ms[0]);
      LiberarRecursosVivos(a, ms[1..]);
      assert ms == [ms[0]] + ms[1..] && ms[0] !in ms[1..];
      forall y, i | i in ms[1..] ensures PrimeroDe(a.mutexes, i, y) <==> PrimeroDe(m.mutexes, i, y) {}
    }
  }

  lemma {:induction false} LiberarJoinVivos(m: State, js: seq<HiloId>)
    requires SinRepetidos(m.blocked)
    ensures MismosVivos(m, LiberarJoin(m, js))
    ensures forall y :: y in LiberarJoin(m, js).blocked <==> y in m.blocked && y !in js
    decreases |js|
  {
    if js == [] {
      // base case
    } else {
      DesbloquearVivos(m, js[0]);
      LiberarJoinVivos(Desbloquear(m, js[0]), js[1..]);
      assert js == [js[0]] + js[1..];
    }
  }

  lemma SinHiloVivos(s: State, x: HiloId)
    requires Inv(s) && Vivo(s, x)
    ensures x in s.tcbs && SinRepetidos(s.tcbs[x].mutexes)
    ensures var m := SinHilo(s, x);
            && SinRepetidos(m.blocked) && (forall y :: y in m.blocked <==> y in s.blocked && y != x)
            && (forall y :: Vivo(m, y) <==> Vivo(s, y) && y != x)
            && m.exec == (if s.exec == [x] then [] else s.exec) && m.exit == s.exit
            && m.tcbs.Keys == s.tcbs.Keys && m.io == s.io && m.dumps == s.dumps
  {
    RemoverEfecto(s, x);
    QuitarMiembros(s.blocked, x);
    assert Asignados(s, Nadie, x) == s.tcbs[x].mutexes;
    DesocuparEfecto(ConFlag(Remover(s, x), x), x, s.tcbs[x].mutexes);
    RemoverExec(s, x);
  }

  lemma RemoverExec(s: State, x: HiloId)
    requires ListasOk(s, Nadie) && Vivo(s, x)
    ensures var m := Remover(s, x);
            && m.exec == (if s.exec == [x] then [] else s.exec) && SinRepetidos(m.blocked)
            && (forall y :: Vivo(m, y) <==> Vivo(s, y) && y != x)
  {
    QuitarMiembros(s.ready, x);
    QuitarMiembros(s.exec, x);
    QuitarMiembros(s.blocked, x);
  }

  /** finalizar_hilo, with its two loops and the dispatches inside them. */
  lemma FinalizarEfecto(s: State, x: HiloId)
    requires Inv(s) && Vivo(s, x)
    ensures Terminado(s, FinalizarHilo(s, x), x)
  {
    FinalizarMutexes(s, x);
    FinalizarHeredados(s, x);
    FinalizarVivos(s, x);
  }

  lemma FinalizarHeredados(s: State, x: HiloId)
    requires Inv(s) && Vivo(s, x)
    requires |FinalizarHilo(s, x).mutexes| == |s.mutexes| && forall j: nat :: j < |s.mutexes| ==>
      FinalizarHilo(s, x).mutexes[j] == (if j in s.tcbs[x].mutexes
                                         then Cedido(s.mutexes[j].(bloqueados := Quitar(s.mutexes[j].bloqueados, x)))
                                         else s.mutexes[j])
    ensures forall i: nat :: i < |s.mutexes| ==> MutexHeredado(s, FinalizarHilo(s, x), x, i)
  {
    forall i: nat | i < |s.mutexes| ensures MutexHeredado(s, FinalizarHilo(s, x), x, i) {
      Suyo(s, x, i);
    }
  }

  lemma Suyo(s: State, x: HiloId, i: nat)
    requires Inv(s) && Vivo(s, x) && i < |s.mutexes|
    ensures x in s.tcbs && (s.mutexes[i].dueno == Some(x) <==> i in s.tcbs[x].mutexes)
  {
    if s.mutexes[i].dueno == Some(x) { assert DuenoOk(s, Nadie, None, i); } else { NoEsSuyo(s, x, i); }
  }

  lemma FinalizarVivos(s: State, x: HiloId)
    requires Inv(s) && Vivo(s, x)
    ensures var r := FinalizarHilo(s, x);
            && r.exit == s.exit + [x] && (forall y :: Vivo(r, y) <==> Vivo(s, y) && y != x)
            && (forall y :: y in r.blocked <==> y in s.blocked && y != x && !EsperaSuFin(s, x, y))
            && x !in r.exec && (s.exec != [] && s.exec != [x] ==> r.exec == s.exec)
            && (s.exec == [x] && s.ready != [] ==> r.exec != [])
            && r.tcbs.Keys == s.tcbs.Keys && r.io == s.io && r.dumps == s.dumps
  {
    var s3 := AntesDeDespachar(s, x);
    PlanificarVivos(s3);
    if s.exec == [x] && s.ready != [] {
      assert Vivo(s, s.ready[0]) && s.ready[0] != x;
      assert Vivo(s3, s.ready[0]) && s.ready[0] !in s.blocked;
      ElegirOcupa(s3);
    }
  }

  lemma ElegirOcupa(m: State)
    requires m.exec != [] || m.ready != []
    ensures Planificar(m).exec != []
  {
  }

  /** finalizar_hilo up to its last dispatch. */
  lemma AntesDeDespachar(s: State, x: HiloId) returns (s3: State)
    requires Inv(s) && Vivo(s, x)
    ensures FinalizarHilo(s, x) == Planificar(s3)
    ensures s3.exit == s.exit + [x] && forall y :: Vivo(s3, y) <==> Vivo(s, y) && y != x
    ensures forall y :: y in s3.blocked <==> y in s.blocked && y != x && !EsperaSuFin(s, x, y)
    ensures s.exec != [] && s.exec != [x] ==> s3.exec == s.exec
    ensures s3.tcbs.Keys == s.tcbs.Keys && s3.io == s.io && s3.dumps == s.dumps
  {
    var ms, js := s.tcbs[x].mutexes, s.tcbs[x].joiners;
    SinHiloVivos(s, x);
    SinHiloMutexes(s, x);
    var s1 := SinHilo(s, x);
    LiberarRecursosExit(s1, ms, x);
    s3 := TrasLasVueltas(s1, ms, js, x);
    forall y ensures y in s3.blocked <==> y in s.blocked && y != x && !EsperaSuFin(s, x, y) {
      EsperaSuFinEs(s, x, y, s1);
    }
  }

  /** The two loops, from the state in which the thread is in no list. */
  lemma TrasLasVueltas(s1: State, ms: seq<nat>, js: seq<HiloId>, x: HiloId) returns (s3: State)
    requires Rangos(s1, ms) && SinRepetidos(ms) && SinRepetidos(s1.blocked)
    ensures var s2 := LiberarRecursos(s1, ms); s3 == LiberarJoin(s2.(exit := s2.exit + [x]), js)
    ensures MismosVivos(s1, s3) && s3.exit == s1.exit + [x]
    ensures forall y :: y in s3.blocked
                        <==> y in s1.blocked && y !in js && forall i :: i in ms ==> !PrimeroDe(s1.mutexes, i, y)
  {
    LiberarRecursosVivos(s1, ms);
    LiberarRecursosExit(s1, ms, x);
    var s2 := LiberarRecursos(s1, ms);
    var m := s2.(exit := s2.exit + [x]);
    LiberarJoinVivos(m, js);
    LiberarJoinExit(m, js);
    s3 := LiberarJoin(m, js);
    forall y ensures Vivo(s3, y) <==> Vivo(s1, y) { assert Vivo(m, y) <==> Vivo(s2, y); }
  }

  lemma {:induction false} LiberarJoinExit(m: State, js: seq<HiloId>)
    ensures LiberarJoin(m, js).exit == m.exit
    decreases |js|
  {
    if js == [] {
      // base case
    } else {
      LiberarJoinExit(Desbloquear(m, js[0]), js[1..]);
    }
  }

  /** The heads that the loop over held mutexes meets are the first of the queues of the mutexes owned. */
  lemma EsperaSuFinEs(s: State, x: HiloId, y: HiloId, m: State)
    requires Inv(s) && Vivo(s, x) && x in s.tcbs && |m.mutexes| == |s.mutexes|
    requires forall j: nat :: j < |s.mutexes| ==>
      m.mutexes[j] == (if j in s.tcbs[x].mutexes then s.mutexes[j].(bloqueados := Quitar(s.mutexes[j].bloqueados, x))
                       else s.mutexes[j])
    ensures EsperaSuFin(s, x, y) <==>
            (&& y in s.blocked && y != x
             && (y in s.tcbs[x].joiners || exists i :: i in s.tcbs[x].mutexes && PrimeroDe(m.mutexes, i, y)))
  {
    forall i: nat | i < |s.mutexes|
      ensures s.mutexes[i].dueno == Some(x) && EsCabeza(s, x, i, y) <==> i in s.tcbs[x].mutexes && PrimeroDe(m.mutexes, i, y)
    {
      Suyo(s, x, i);
    }
  }

  /** Whatever message ends a thread, it has all of that effect. */
  lemma FinEfecto(s: State, op: Op)
    requires Inv(s) && Finado(s, op).Some?
    ensures Terminado(s, Paso(s, op), Finado(s, op).value)
  {
    var y := Finado(s, op).value;
    if op.Pide? {
      var c := ConFlag(s, op.hilo);
      FlagInv(s, op.hilo, Nadie, {});
      FinalizarEfecto(c, y);
      PideFin(s, op);
      TerminadoMismo(s, c, FinalizarHilo(c, y), y);
    } else {
      FinalizarEfecto(s, y);
    }
  }

  lemma PideFin(s: State, op: Op)
    requires Formado(s) && op.Pide? && Finado(s, op).Some?
    ensures Paso(s, op) == FinalizarHilo(ConFlag(s, op.hilo), Finado(s, op).value)
  {
    var x := op.hilo;
    match op.sys {
      case MutexLock(n) => BuscarSuMutex(s, x, n, 0); AtenderLockEs(ConFlag(s, x), x, n);
      case MutexUnlock(n) => BuscarSuMutex(s, x, n, 0); AtenderUnlockEs(ConFlag(s, x), x, n);
      case _ =>
    }
  }

  lemma TerminadoMismo(s: State, c: State, r: State, y: HiloId)
    requires (exists x :: c == ConFlag(s, x)) && Terminado(c, r, y)
    ensures Terminado(s, r, y)
  {
    forall z ensures EsperaSuFin(c, y, z) <==> EsperaSuFin(s, y, z) {
      forall i: nat ensures EsCabeza(c, y, i, z) <==> EsCabeza(s, y, i, z) {}
    }
    forall i: nat | i < |s.mutexes| ensures MutexHeredado(s, r, y, i) { assert MutexHeredado(c, r, y, i); }
  }

  // ---- Nobody else ----

  /** PROCESS_CREATE and PROCESS_EXIT raise the caller's flag; a timer that has gone off is pending no more. */
  lemma RestoEfecto(s: State, x: HiloId, t: Timer)
    requires Inv(s) && x in s.exec
    ensures var r := Paso(s, Pide(x, Proceso));
            Quietos(s, r) && MismosDatos(s, r) && x in r.tcbs && r.tcbs[x].cancelarQuantum
    ensures var r := Paso(s, Vence(t));
            t !in r.timers && (forall u :: u != t && u in s.timers ==> u in r.timers) && r.(timers := s.timers) == s
  {
  }

  /** A join or a cancel of a thread that is not live only raises the caller's flag. */
  lemma AusenteSinEfecto(s: State, x: HiloId, tid: int)
    requires Inv(s) && x in s.exec && !Vivo(s, HiloId(x.pid, tid))
    ensures Paso(s, Pide(x, ThreadJoin(tid))) == ConFlag(s, x)
    ensures Paso(s, Pide(x, ThreadCancel(tid))) == ConFlag(s, x)
  {
  }

  lemma MismoExit(m: State, x: HiloId)
    ensures Planificar(m).exit == m.exit && Desbloquear(m, x).exit == m.exit && BloquearEnEjecucion(m, x).exit == m.exit
  {
  }

  /** EXIT grows exactly when the message ends a thread. */
  lemma FinSiYSoloSi(s: State, op: Op)
    requires Inv(s)
    ensures Paso(s, op).exit != s.exit <==> Finado(s, op).Some?
  {
    if Finado(s, op).Some? {
      FinEfecto(s, op);
      assert |Paso(s, op).exit| == |s.exit| + 1;
    } else {
      SinFin(s, op);
    }
  }

  lemma SinFin(s: State, op: Op)
    requires Inv(s) && Finado(s, op).None?
    ensures Paso(s, op).exit == s.exit
  {
    match op
    case Pide(x, sys) =>
      if x in s.exec {
        FlagInv(s, x, Nadie, {});
        AtenderSinFin(ConFlag(s, x), x, sys);
      }
    case FinIo =>
      if s.io != [] {
        var m := s.(io := s.io[1..]);
        MismoExit(m, s.io[0]);
        MismoExit(Desbloquear(m, s.io[0]), s.io[0]);
      }
    case _ =>
  }

  lemma AtenderSinFin(c: State, x: HiloId, sys: Syscall)
    requires Formado(c) && x in c.exec && Finado(c, Pide(x, sys)).None?
    ensures Atender(c, x, sys).exit == c.exit
  {
    match sys
    case ThreadJoin(tid) => MismoExit(c, x);
    case MutexLock(n) => BuscarSuMutex(c, x, n, 0); MismoExit(c, x);
    case MutexUnlock(n) => BuscarSuMutex(c, x, n, 0); UnlockSinFin(c, x, n);
    case DumpMemory =>
      MismoExit(c, x);
      var m := BloquearEnEjecucion(c, x);
      MismoExit(m.(dumps := m.dumps + [x]), x);
    case IO => MismoExit(c.(io := c.io + [x]), x);
    case _ =>
  }

  lemma UnlockSinFin(c: State, x: HiloId, n: string)
    requires Formado(c) && Buscar(c.mutexes, x.pid, n).Some?
    ensures Unlock(c, x, n).exit == c.exit
  {
    var i := Buscar(c.mutexes, x.pid, n).value;
    if c.mutexes[i].dueno == Some(x) && x in c.tcbs {
      var xs := QuitarPorNombre(c.mutexes, c.tcbs[x].mutexes, c.mutexes[i].nombre);
      var m := c.(tcbs := c.tcbs[x := c.tcbs[x].(mutexes := xs)]);
      var u := m.mutexes[i];
      if u.bloqueados != [] {
        MismoExit(m.(mutexes := m.mutexes[i := u.(bloqueados := u.bloqueados[1..])]), u.bloqueados[0]);
      }
    }
  }
}
