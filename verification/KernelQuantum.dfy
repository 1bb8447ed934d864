/** The quantum timers of the multilevel queue: a timer that is still allowed to interrupt belongs to the dispatch
    that is running now. */
module KernelQuantum {
  import opened Listas
  import opened KernelEstado
  import opened KernelInvariante
  import opened KernelPasos
  import opened KernelTeoremas

  /** The test _programar_interrupcion_por_quantum makes when it wakes up. */
  predicate PasaControl(s: State, t: Timer) {
    t.hilo in s.tcbs && t.referencia == s.varVerificador && !s.tcbs[t.hilo].cancelarQuantum
  }

  /** Whoever carries the current verifier with its flag down is the thread in EXEC. */
  ghost predicate RelojOk(s: State) {
    && 0 <= s.varVerificador
    && (forall x :: x in s.tcbs ==> 0 <= s.tcbs[x].verificador <= s.varVerificador)
    && (forall x :: x in s.tcbs && s.tcbs[x].verificador == s.varVerificador > 0 && !s.tcbs[x].cancelarQuantum
          ==> s.exec == [x])
    && (forall t :: t in s.timers ==>
          && 0 < t.referencia <= s.varVerificador && t.hilo in s.tcbs
          && (t.referencia == s.varVerificador ==> s.tcbs[t.hilo].verificador == s.varVerificador))
  }

  /** Time only goes forward: while no new dispatch takes a verifier, verifiers stay and raised flags stay raised;
      a timer set in between carries the verifier that is now the current one. */
  ghost predicate Avanza(s: State, r: State) {
    && s.varVerificador <= r.varVerificador
    && (forall x :: x in s.tcbs ==> x in r.tcbs)
    && (r.varVerificador == s.varVerificador ==> forall x :: x in s.tcbs ==>
          r.tcbs[x].verificador == s.tcbs[x].verificador
          && (s.tcbs[x].cancelarQuantum ==> r.tcbs[x].cancelarQuantum))
    && (forall t :: t in r.timers && t !in s.timers ==> s.varVerificador < t.referencia <= r.varVerificador)
  }

  ghost predicate Reloj(s: State, r: State) {
    RelojOk(r) && Avanza(s, r)
  }

  lemma RelojCompone(s: State, m: State, r: State)
    requires Reloj(s, m) && Reloj(m, r)
    ensures Reloj(s, r)
  {
  }

  /** The clock looks at EXEC, the records' verifier and flag, and the timers only. */
  predicate MismoReloj(m: State, r: State) {
    && r.exec == m.exec && r.varVerificador == m.varVerificador && r.timers <= m.timers && r.tcbs.Keys == m.tcbs.Keys
    && forall x :: x in m.tcbs ==> r.tcbs[x].verificador == m.tcbs[x].verificador
                                   && r.tcbs[x].cancelarQuantum == m.tcbs[x].cancelarQuantum
  }

  lemma MismoRelojOk(m: State, r: State)
    requires RelojOk(m) && MismoReloj(m, r)
    ensures Reloj(m, r)
  {
  }

  lemma PlanificarReloj(m: State)
    requires RelojOk(m)
    ensures Reloj(m, Planificar(m))
  {
  }

  lemma DesbloquearReloj(m: State, x: HiloId)
    requires RelojOk(m)
    ensures Reloj(m, Desbloquear(m, x))
  {
    if x in m.blocked {
      var a := m.(blocked := Quitar(m.blocked, x), ready := m.ready + [x]);
      MismoRelojOk(m, a);
      PlanificarReloj(a);
      RelojCompone(m, a, Planificar(a));
    }
  }

  /** A thread that is leaving EXEC, or that ends, has its flag raised first. */
  lemma FlagReloj(m: State, x: HiloId, exec': seq<HiloId>)
    requires RelojOk(m) && x in m.tcbs && (exec' == m.exec || (m.exec == [x] && exec' == []))
    ensures Reloj(m, ConFlag(m.(exec := exec'), x))
  {
  }

  lemma ProtocoloReloj(m: State, i: nat)
    requires RelojOk(m) && i < |m.mutexes|
    ensures Reloj(m, Protocolo(m, i))
  {
    var u := m.mutexes[i];
    if u.bloqueados == [] {
      MismoRelojOk(m, Protocolo(m, i));
    } else {
      var a := m.(mutexes := m.mutexes[i := u.(bloqueados := u.bloqueados[1..])]);
      MismoRelojOk(m, a);
      DesbloquearReloj(a, u.bloqueados[0]);
      var b := Desbloquear(a, u.bloqueados[0]);
      MismoRelojOk(b, Protocolo(m, i));
      RelojCompone(m, a, b);
      RelojCompone(m, b, Protocolo(m, i));
    }
  }

  lemma {:induction false} LiberarRecursosReloj(m: State, ms: seq<nat>)
    requires RelojOk(m) && Rangos(m, ms)
    ensures Reloj(m, LiberarRecursos(m, ms))
    decreases |ms|
  {
    if ms == [] {
      // base case
    } else {
      var a := Protocolo(m, ms[0]);
      ProtocoloReloj(m, ms[0]);
      LiberarRecursosReloj(a, ms[1..]);
      RelojCompone(m, a, LiberarRecursos(a, ms[1..]));
    }
  }

  lemma {:induction false} LiberarJoinReloj(m: State, js: seq<HiloId>)
    requires RelojOk(m)
    ensures Reloj(m, LiberarJoin(m, js))
    decreases |js|
  {
    if js == [] {
      // base case
    } else {
      var a := Desbloquear(m, js[0]);
      DesbloquearReloj(m, js[0]);
      LiberarJoinReloj(a, js[1..]);
      RelojCompone(m, a, LiberarJoin(a, js[1..]));
    }
  }

  lemma FinalizarReloj(s: State, x: HiloId)
    requires Inv(s) && RelojOk(s)
    ensures Reloj(s, FinalizarHilo(s, x))
  {
    if Vivo(s, x) {
      var ms, js := s.tcbs[x].mutexes, s.tcbs[x].joiners;
      var s1 := SinHilo(s, x);
      SinHiloReloj(s, x);
      LiberarRecursosReloj(s1, ms);
      var s2 := LiberarRecursos(s1, ms);
      RelojCompone(s, s1, s2);
      SalidaReloj(s2, x, js);
      RelojCompone(s, s2, Planificar(LiberarJoin(s2.(exit := s2.exit + [x]), js)));
    }
  }

  /** The thread out of its list with its flag up and out of the queues of its mutexes. */
  lemma SinHiloReloj(s: State, x: HiloId)
    requires Inv(s) && RelojOk(s) && Vivo(s, x)
    ensures Reloj(s, SinHilo(s, x)) && Rangos(SinHilo(s, x), s.tcbs[x].mutexes)
  {
    var ms := s.tcbs[x].mutexes;
    assert Asignados(s, Nadie, x) == ms;
    var m := ConFlag(Remover(s, x), x);
    if x in s.exec { assert s.exec == [x] && Quitar(s.exec, x) == []; }
    FlagReloj(s, x, m.exec);
    MismoRelojOk(ConFlag(s.(exec := m.exec), x), m);
    DesocuparEfecto(m, x, ms);
    MismoRelojOk(m, SinHilo(s, x));
    RelojCompone(s, m, SinHilo(s, x));
  }

  /** From the list EXIT on: the joiners and the last dispatch. */
  lemma SalidaReloj(m: State, x: HiloId, js: seq<HiloId>)
    requires RelojOk(m)
    ensures Reloj(m, Planificar(LiberarJoin(m.(exit := m.exit + [x]), js)))
  {
    var e := m.(exit := m.exit + [x]);
    MismoRelojOk(m, e);
    LiberarJoinReloj(e, js);
    var r := LiberarJoin(e, js);
    RelojCompone(m, e, r);
    PlanificarReloj(r);
    RelojCompone(m, r, Planificar(r));
  }

  lemma BloquearReloj(s: State, x: HiloId)
    requires Inv(s) && RelojOk(s) && x in s.exec
    ensures Reloj(s, BloquearEnEjecucion(s, x))
  {
    assert s.exec == [x] && Quitar(s.exec, x) == [];
    FlagReloj(s, x, []);
    var m := ConFlag(s.(exec := [], blocked := s.blocked + [x]), x);
    var a := ConFlag(s.(exec := []), x);
    MismoRelojOk(a, m);
    RelojCompone(s, a, m);
    PlanificarReloj(m);
    RelojCompone(s, m, Planificar(m));
  }

  lemma NuevoReloj(s: State, m: State, x: HiloId)
    requires RelojOk(s) && x !in s.tcbs && m.tcbs.Keys == s.tcbs.Keys + {x} && m.tcbs[x].verificador == 0
    requires m.exec == s.exec && m.varVerificador == s.varVerificador && m.timers == s.timers
    requires forall y :: y in s.tcbs ==> m.tcbs[y] == s.tcbs[y]
    ensures Reloj(s, m)
  {
  }

  lemma CrearReloj(s: State, pid: int, p: int, f: bool)
    requires Inv(s) && RelojOk(s) && pid in s.siguienteTid
    ensures Reloj(s, CrearTcb(s, pid, p, f))
  {
    var x := HiloId(pid, s.siguienteTid[pid]);
    TidLibre(s, pid);
    var m := HiloNuevo(s, pid, p, f);
    NuevoReloj(s, m, x);
    PlanificarReloj(m);
    RelojCompone(s, m, Planificar(m));
  }

  lemma AtenderReloj(s: State, x: HiloId, sys: Syscall)
    requires Inv(s) && RelojOk(s) && x in s.exec
    ensures Reloj(s, Atender(s, x, sys))
  {
    match sys
    case ThreadCreate(p, f) => if x.pid in s.siguienteTid { CrearReloj(s, x.pid, p, f); }
    case ThreadJoin(tid) =>
      JoinReloj(s, x, HiloId(x.pid, tid));
      AtenderJoinEs(s, x, tid);
    case ThreadCancel(tid) => FinalizarReloj(s, HiloId(x.pid, tid));
    case ThreadExit => FinalizarReloj(s, x);
    case MutexCreate(n) => MismoRelojOk(s, Atender(s, x, sys));
    case MutexLock(n) =>
      LockReloj(s, x, n);
      AtenderLockEs(s, x, n);
    case MutexUnlock(n) =>
      UnlockReloj(s, x, n);
      AtenderUnlockEs(s, x, n);
    case DumpMemory =>
      BloquearReloj(s, x);
      DumpReloj(s, BloquearEnEjecucion(s, x), x);
      AtenderDumpEs(s, x);
    case IO =>
      BloquearReloj(s, x);
      IoConmuta(s, x);
      IoReloj(s, BloquearEnEjecucion(s, x), x);
      AtenderIoEs(s, x);
    case Proceso => MismoRelojOk(s, s);
  }

  lemma JoinReloj(s: State, x: HiloId, u: HiloId)
    requires Inv(s) && RelojOk(s) && x in s.exec
    ensures Reloj(s, Join(s, x, u))
  {
    if Vivo(s, u) {
      BloquearReloj(s, x);
      var m := BloquearEnEjecucion(s, x);
      MismoRelojOk(m, Join(s, x, u));
      RelojCompone(s, m, Join(s, x, u));
    } else {
      MismoRelojOk(s, s);
    }
  }

  /** m is the state with the caller blocked. */
  lemma DumpReloj(s: State, m: State, x: HiloId)
    requires Reloj(s, m)
    ensures Reloj(s, Planificar(m.(dumps := m.dumps + [x])))
  {
    var d := m.(dumps := m.dumps + [x]);
    MismoRelojOk(m, d);
    RelojCompone(s, m, d);
    PlanificarReloj(d);
    RelojCompone(s, d, Planificar(d));
  }

  lemma IoReloj(s: State, m: State, x: HiloId)
    requires Reloj(s, m)
    ensures Reloj(s, m.(io := m.io + [x]))
  {
    MismoRelojOk(m, m.(io := m.io + [x]));
    RelojCompone(s, m, m.(io := m.io + [x]));
  }

  lemma LockReloj(s: State, x: HiloId, n: string)
    requires Inv(s) && RelojOk(s) && x in s.exec
    ensures Reloj(s, Lock(s, x, n))
  {
    match Buscar(s.mutexes, x.pid, n)
    case None => FinalizarReloj(s, x);
    case Some(i) =>
      if s.mutexes[i].dueno.Some? {
        BloquearReloj(s, x);
        EncolarReloj(s, BloquearEnEjecucion(s, x), i, x);
      } else {
        MismoRelojOk(s, Lock(s, x, n));
      }
  }

  lemma EncolarReloj(s: State, m: State, i: nat, x: HiloId)
    requires Reloj(s, m) && i < |m.mutexes|
    ensures Reloj(s, Encolar(m, i, x))
  {
    MismoRelojOk(m, Encolar(m, i, x));
    RelojCompone(s, m, Encolar(m, i, x));
  }

  lemma UnlockReloj(s: State, x: HiloId, n: string)
    requires Inv(s) && RelojOk(s) && x in s.exec
    ensures Reloj(s, Unlock(s, x, n))
  {
    match Buscar(s.mutexes, x.pid, n)
    case None => FinalizarReloj(s, x);
    case Some(i) => if s.mutexes[i].dueno == Some(x) { LiberacionReloj(s, x, i); } else { MismoRelojOk(s, s); }
  }

  lemma LiberacionReloj(s: State, x: HiloId, i: nat)
    requires Inv(s) && RelojOk(s) && x in s.exec && i < |s.mutexes| && s.mutexes[i].dueno == Some(x)
    ensures x in s.tcbs && Rangos(s, s.tcbs[x].mutexes) && Reloj(s, Liberacion(s, i, x))
  {
    LiberacionInv(s, x, i);
    var m := s.(tcbs := s.tcbs[x := s.tcbs[x].(mutexes := Quitar(s.tcbs[x].mutexes, i))]);
    MismoRelojOk(s, m);
    ProtocoloReloj(m, i);
    RelojCompone(s, m, Protocolo(m, i));
  }

  lemma DesalojaReloj(s: State, x: HiloId)
    requires Inv(s) && RelojOk(s) && x in s.exec
    ensures Reloj(s, Paso(s, Desaloja(x)))
  {
    assert s.exec == [x] && Quitar(s.exec, x) == [];
    FlagReloj(s, x, []);
    var a := ConFlag(s.(exec := []), x);
    var m := ConFlag(s, x).(exec := [], ready := s.ready + [x]);
    MismoRelojOk(a, m);
    RelojCompone(s, a, m);
    PlanificarReloj(m);
    RelojCompone(s, m, Planificar(m));
  }

  lemma FinIoReloj(s: State)
    requires RelojOk(s) && s.io != []
    ensures Reloj(s, AtenderFinIo(s))
  {
    var m := s.(io := s.io[1..]);
    MismoRelojOk(s, m);
    DesbloquearReloj(m, s.io[0]);
    var r := Desbloquear(m, s.io[0]);
    RelojCompone(s, m, r);
    PlanificarReloj(r);
    RelojCompone(s, r, Planificar(r));
  }

  lemma PideReloj(s: State, x: HiloId, sys: Syscall)
    requires Inv(s) && RelojOk(s) && x in s.exec
    ensures Reloj(s, Atender(ConFlag(s, x), x, sys))
  {
    var c := ConFlag(s, x);
    FlagReloj(s, x, s.exec);
    FlagInv(s, x, Nadie, {});
    AtenderReloj(c, x, sys);
    RelojCompone(s, c, Atender(c, x, sys));
  }

  lemma FinDumpReloj(s: State, x: HiloId)
    requires RelojOk(s)
    ensures var m := s.(dumps := Quitar(s.dumps, x)); Reloj(s, Desbloquear(m, x))
  {
    var m := s.(dumps := Quitar(s.dumps, x));
    MismoRelojOk(s, m);
    DesbloquearReloj(m, x);
    RelojCompone(s, m, Desbloquear(m, x));
  }

  lemma NuevoProcesoReloj(s: State, pid: int, p: int, f: bool)
    requires Inv(s) && RelojOk(s) && pid !in s.siguienteTid
    ensures Reloj(s, CrearTcb(s.(siguienteTid := s.siguienteTid[pid := 0]), pid, p, f))
  {
    var m := s.(siguienteTid := s.siguienteTid[pid := 0]);
    NuevoPidInv(s, m);
    MismoRelojOk(s, m);
    CrearReloj(m, pid, p, f);
    RelojCompone(s, m, CrearTcb(m, pid, p, f));
  }

  lemma PasoReloj(s: State, op: Op)
    requires Inv(s) && RelojOk(s)
    ensures Reloj(s, Paso(s, op))
  {
    match op
    case Pide(x, sys) => if x in s.exec { PideReloj(s, x, sys); }
    case Desaloja(x) => if x in s.exec { DesalojaReloj(s, x); }
    case FinIo => if s.io != [] { FinIoReloj(s); }
    case FinDump(x) => if x in s.dumps { FinDumpReloj(s, x); }
    case NuevoProceso(pid, p, f) => if pid !in s.siguienteTid { NuevoProcesoReloj(s, pid, p, f); }
    case Termina(x) => FinalizarReloj(s, x);
    case Vence(t) => MismoRelojOk(s, s.(timers := s.timers - {t}));
  }

  lemma {:induction false} CorrerReloj(s: State, ops: seq<Op>)
    requires Inv(s) && RelojOk(s) && Correr(s, ops).Some?
    ensures Reloj(s, Correr(s, ops).value)
    decreases |ops|
  {
    if ops == [] {
      // base case
    } else {
      var m := Paso(s, ops[0]);
      PasoInv(s, ops[0]);
      PasoReloj(s, ops[0]);
      CorrerReloj(m, ops[1..]);
      RelojCompone(s, m, Correr(m, ops[1..]).value);
    }
  }

  /** x holds the CPU at every point of the run, from beginning to end. */
  predicate SiempreEn(s: State, ops: seq<Op>, x: HiloId)
    decreases |ops|
  {
    s.exec == [x] && (ops == [] || !Formado(s) || SiempreEn(Paso(s, ops[0]), ops[1..], x))
  }

  /** A timer that passes its check at the end of a run was set by a dispatch that has not ended since:
      its thread has been in EXEC at every step from then on, and under one and the same verifier. */
  lemma TimerDelDespachoActual(s: State, ops: seq<Op>, t: Timer)
    requires Inv(s) && RelojOk(s) && Correr(s, ops).Some? && t in s.timers && PasaControl(Correr(s, ops).value, t)
    ensures SiempreEn(s, ops, t.hilo) && s.varVerificador == Correr(s, ops).value.varVerificador
    decreases |ops|
  {
    CorrerReloj(s, ops);
    assert s.varVerificador == t.referencia;
    if ops != [] {
      var m := Paso(s, ops[0]);
      PasoInv(s, ops[0]);
      PasoReloj(s, ops[0]);
      CorrerReloj(m, ops[1..]);
      VigenteDespues(m, ops[1..], t);
    }
  }

  /** The same without asking that the timer be still asleep: its thread carries the reference. */
  lemma {:induction false} VigenteDespues(s: State, ops: seq<Op>, t: Timer)
    requires Inv(s) && RelojOk(s) && Correr(s, ops).Some? && t.hilo in s.tcbs && t.referencia > 0
    requires s.varVerificador == t.referencia == s.tcbs[t.hilo].verificador
    requires PasaControl(Correr(s, ops).value, t)
    ensures SiempreEn(s, ops, t.hilo)
    decreases |ops|
  {
    CorrerReloj(s, ops);
    if ops == [] {
      // base case
    } else {
      var m := Paso(s, ops[0]);
      PasoInv(s, ops[0]);
      PasoReloj(s, ops[0]);
      CorrerReloj(m, ops[1..]);
      VigenteDespues(m, ops[1..], t);
    }
  }

  /** Each dispatch takes a verifier no earlier one had, and a new timer carries it and watches the thread in EXEC. */
  lemma TimerNuevo(s: State, op: Op, t: Timer)
    requires Inv(s) && RelojOk(s) && t in Paso(s, op).timers && t !in s.timers
    ensures s.varVerificador < t.referencia <= Paso(s, op).varVerificador
    ensures forall u :: u in s.timers ==> u.referencia < t.referencia
  {
    PasoReloj(s, op);
  }

  /** In any reachable state a timer that would send the interrupt watches the very thread in EXEC, under the verifier
      that its dispatch took. */
  lemma TimerVigente(s: State, t: Timer)
    requires Alcanzable(s) && t in s.timers && PasaControl(s, t)
    ensures s.exec == [t.hilo] && s.tcbs[t.hilo].verificador == t.referencia
  {
    var a, ops :| Correr(Inicial(a), ops) == Some(s);
    InicialInv(a);
    CorrerReloj(Inicial(a), ops);
  }
}
