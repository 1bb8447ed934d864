/** The kernel as the program has it: global lists updated in place by the handlers, loops over held mutexes and
    joiners that call the dispatcher from inside. Every method is proved to be its function in KernelEstado,
    with one ready list whatever structure the algorithm keeps. */
module KernelMaquina {
  import opened Listas
  import opened KernelEstado
  import opened KernelInvariante
  import opened KernelPasos
  import KernelTeoremas
  import opened Multinivel

  class Kernel {
    const algoritmo: Algoritmo
    var tcbs: map<HiloId, Tcb>
    var siguienteTid: map<int, nat>
    var listaReady: seq<HiloId>
    var colas: seq<Cola>
    var exec: seq<HiloId>
    var blocked: seq<HiloId>
    var exit: seq<HiloId>
    var mutexes: seq<Mutex>
    var io: seq<HiloId>
    var dumps: seq<HiloId>
    var varVerificador: int
    var timers: set<Timer>
    /** The threads in READY in order of arrival; under CMN no list of the program holds them all. */
    ghost var ready: seq<HiloId>

    ghost predicate Valid()
      reads this
    {
      && (if algoritmo.CMN? then listaReady == [] && Refina(colas, ready, tcbs) else listaReady == ready)
      && (forall x :: x in ready ==> x in tcbs)
      && (forall x :: x in exec ==> x in tcbs)
      && (forall x :: x in blocked ==> x in tcbs)
    }

    ghost function Estado(): State
      reads this
    {
      State(algoritmo, tcbs, siguienteTid, ready, exec, blocked, exit, mutexes, io, dumps, varVerificador, timers)
    }

    constructor (a: Algoritmo)
      ensures Valid() && Estado() == Inicial(a)
    {
      algoritmo := a;
      tcbs, siguienteTid := map[], map[];
      listaReady, colas, exec, blocked, exit := [], [], [], [], [];
      mutexes, io, dumps, varVerificador, timers := [], [], [], 0, {};
      ready := [];
    }

    // ---- Ready structure ----

    method TodasLasColasEstanVacias() returns (b: bool)
      ensures b <==> Vacias(colas)
    {
      for i := 0 to |colas|
        invariant forall j :: 0 <= j < i ==> colas[j].lista == []
      {
        if colas[i].lista != [] { return false; }
      }
      return true;
    }

    /** obtener_siguiente_tcb_a_ejecutar_en_CMN: the best non-empty queue, in one pass, and its first thread. */
    method ObtenerSiguienteEnCMN() returns (x: HiloId)
      requires Valid() && algoritmo.CMN? && ready != []
      modifies this`colas, this`ready
      ensures x == old(Elegir(Estado()))
      ensures Refina(colas, ready, tcbs) && ready == Quitar(old(ready), x)
    {
      SacarPrimero(colas, Estado());
      var mejor := ColaConMayorPrioridad();
      var q := colas[mejor.value];
      x := q.lista[0];
      colas := colas[mejor.value := q.(lista := q.lista[1..])];
      ready := Quitar(ready, x);
    }

    /** The filter of the queues with threads and list_get_maximum, in one pass. */
    method ColaConMayorPrioridad() returns (mejor: Option<nat>)
      ensures mejor == Mejor(colas, 0, None)
    {
      mejor := None;
      for i := 0 to |colas|
        invariant mejor.Some? ==> mejor.value < i
        invariant Mejor(colas, i, mejor) == Mejor(colas, 0, None)
      {
        if colas[i].lista != [] && !(mejor.Some? && colas[mejor.value].prioridad <= colas[i].prioridad) {
          mejor := Some(i);
        }
      }
    }

    /** buscar_y_remover_tcb_de_cola_multinivel. */
    method BuscarYRemoverDeColas(x: HiloId) returns (encontrado: bool)
      requires Valid() && algoritmo.CMN?
      modifies this`colas, this`ready
      ensures Refina(colas, ready, tcbs)
      ensures encontrado <==> x in old(ready)
      ensures ready == if encontrado then Quitar(old(ready), x) else old(ready)
    {
      EstaEnSuCola(colas, ready, tcbs, x);
      for i := 0 to |colas|
        invariant colas == old(colas) && ready == old(ready)
        invariant ColaCon(colas, x, i) == ColaCon(colas, x, 0)
      {
        if x in colas[i].lista {
          RefinaRemover(colas, ready, tcbs, x);
          colas := colas[i := colas[i].(lista := Quitar(colas[i].lista, x))];
          ready := Quitar(ready, x);
          return true;
        }
      }
      return false;
    }

    method AgregarHiloAListaReady(x: HiloId)
      requires Valid() && x in tcbs
      modifies this`listaReady, this`colas, this`ready
      ensures Valid() && ready == old(ready) + [x]
    {
      if algoritmo.CMN? {
        RefinaAgregar(colas, ready, tcbs, x);
        colas := AgregarACola(colas, x, tcbs[x].prioridad);
      } else {
        listaReady := listaReady + [x];
      }
      ready := ready + [x];
    }

    method SetFlag(x: HiloId)
      requires Valid()
      modifies this`tcbs
      ensures Valid() && Estado() == ConFlag(old(Estado()), x)
    {
      if x in tcbs {
        PonerTcb(x, tcbs[x].(cancelarQuantum := true));
      }
    }

    // ---- Short-term scheduler ----

    method PcpPlanificadorCortoPlazo()
      requires Valid()
      modifies this
      ensures Valid() && Estado() == Planificar(old(Estado()))
    {
      if algoritmo.CMN? {
        RefinaVacia(colas, ready, tcbs);
        var vacias := TodasLasColasEstanVacias();
        if !vacias { AtenderCMN(); }
      } else if listaReady != [] {
        if algoritmo.FIFO? { AtenderFIFO(); } else { AtenderPRIORIDADES(); }
      }
    }

    method AtenderFIFO()
      requires Valid() && algoritmo.FIFO? && listaReady != []
      modifies this
      ensures Valid() && Estado() == Planificar(old(Estado()))
    {
      if exec == [] {
        var x := listaReady[0];
        QuitarIncluye(ready, x);
        listaReady := listaReady[1..];
        ready := Quitar(ready, x);
        exec := exec + [x];
      }
    }

    method AtenderPRIORIDADES()
      requires Valid() && algoritmo.PRIORIDADES? && listaReady != []
      modifies this
      ensures Valid() && Estado() == Planificar(old(Estado()))
    {
      var x := listaReady[0];
      for i := 1 to |listaReady|
        invariant MaximaPrioridad(Estado(), x, listaReady[i..]) == Elegir(Estado())
        invariant x in listaReady
      {
        assert listaReady[i..][1..] == listaReady[i + 1..];
        assert listaReady[i] in ready;
        if tcbs[x].prioridad > tcbs[listaReady[i]].prioridad { x := listaReady[i]; }
      }
      if exec == [] {
        QuitarIncluye(ready, x);
        listaReady := Quitar(listaReady, x);
        ready := Quitar(ready, x);
        exec := exec + [x];
      }
    }

    method AtenderCMN()
      requires Valid() && algoritmo.CMN? && ready != []
      modifies this
      ensures Valid() && Estado() == Planificar(old(Estado()))
    {
      if exec == [] {
        ghost var s := Estado();
        PlanificarDespacha(s);
        var x := ObtenerSiguienteEnCMN();
        DespacharEnCMN(x, s);
      }
    }

    /** The second half of atender_CMN: the thread is out of its queue and goes to the CPU under a new verifier. */
    method DespacharEnCMN(x: HiloId, ghost s: State)
      requires Valid() && algoritmo.CMN? && x in tcbs && s.algoritmo.CMN?
      requires Estado() == s.(ready := Quitar(s.ready, x))
      modifies this`exec, this`tcbs, this`varVerificador, this`timers
      ensures Valid() && Estado() == Despachar(s, x)
    {
      exec := exec + [x];
      IniciarQuantum(x);
      EsDespacho(s, Estado(), x);
    }

    /** A new verifier, the flag down and a timer for both. */
    method IniciarQuantum(x: HiloId)
      requires Valid() && algoritmo.CMN? && x in tcbs
      modifies this`tcbs, this`varVerificador, this`timers
      ensures Valid() && varVerificador == old(varVerificador) + 1
      ensures tcbs == old(tcbs)[x := old(tcbs)[x].(verificador := varVerificador, cancelarQuantum := false)]
      ensures timers == old(timers) + {Timer(x, varVerificador)}
    {
      varVerificador := varVerificador + 1;
      PonerTcb(x, tcbs[x].(verificador := varVerificador, cancelarQuantum := false));
      timers := timers + {Timer(x, varVerificador)};
    }

    method BloquearHiloEnEjecucion(x: HiloId)
      requires Valid()
      modifies this
      ensures Valid() && Estado() == BloquearEnEjecucion(old(Estado()), x)
    {
      if x in exec {
        QuitarIncluye(exec, x);
        exec := Quitar(exec, x);
        blocked := blocked + [x];
        SetFlag(x);
        PcpPlanificadorCortoPlazo();
      }
    }

    method DesbloquearHilo(x: HiloId)
      requires Valid()
      modifies this
      ensures Valid() && Estado() == Desbloquear(old(Estado()), x)
    {
      if x in blocked {
        QuitarIncluye(blocked, x);
        blocked := Quitar(blocked, x);
        AgregarHiloAListaReady(x);
        PcpPlanificadorCortoPlazo();
      }
    }

    // ---- Searches over the state lists ----

    method BuscarYRemoverTcb(x: HiloId)
      requires Valid()
      modifies this
      ensures Valid() && Estado() == KernelEstado.Remover(old(Estado()), x)
    {
      QuitarIncluye(ready, x);
      QuitarIncluye(exec, x);
      QuitarIncluye(blocked, x);
      var enReady := false;
      if algoritmo.CMN? {
        enReady := BuscarYRemoverDeColas(x);
      } else if x in listaReady {
        listaReady := Quitar(listaReady, x);
        ready := Quitar(ready, x);
        enReady := true;
      }
      if !enReady {
        if x in exec {
          exec := Quitar(exec, x);
        } else {
          blocked := Quitar(blocked, x);
        }
      }
    }

    method ExisteHilo(x: HiloId) returns (b: bool)
      requires Valid()
      ensures b <==> Vivo(Estado(), x)
    {
      b := x in listaReady;
      if algoritmo.CMN? {
        EstaEnSuCola(colas, ready, tcbs, x);
        b := false;
        for i := 0 to |colas|
          invariant b <==> exists j :: 0 <= j < i && x in colas[j].lista
        {
          if x in colas[i].lista { b := true; }
        }
      }
      b := b || x in exec || x in blocked;
    }

    // ---- Mutexes ----

    method ProtocoloLiberacionRecurso(i: nat)
      requires Valid() && i < |mutexes|
      modifies this
      ensures Valid() && Estado() == Protocolo(old(Estado()), i)
    {
      if mutexes[i].bloqueados == [] {
        mutexes := mutexes[i := mutexes[i].(dueno := None)];
      } else {
        var h := mutexes[i].bloqueados[0];
        mutexes := mutexes[i := mutexes[i].(bloqueados := mutexes[i].bloqueados[1..])];
        DesbloquearHilo(h);
        if h in tcbs {
          PonerTcb(h, tcbs[h].(mutexes := tcbs[h].mutexes + [i]));
        }
        mutexes := mutexes[i := mutexes[i].(dueno := Some(h))];
      }
    }

    method AtenderLiberacionDeRecurso(i: nat, x: HiloId)
      requires Valid() && i < |mutexes| && x in tcbs && Rangos(Estado(), tcbs[x].mutexes)
      modifies this
      ensures Valid() && Estado() == Liberacion(old(Estado()), i, x)
    {
      var xs := QuitarPorNombre(mutexes, tcbs[x].mutexes, mutexes[i].nombre);
      PonerTcb(x, tcbs[x].(mutexes := xs));
      ProtocoloLiberacionRecurso(i);
    }

    method DesocuparMutex(x: HiloId)
      requires Valid() && x in tcbs && Rangos(Estado(), tcbs[x].mutexes)
      modifies this`mutexes
      ensures Valid() && Estado() == Desocupar(old(Estado()), x, tcbs[x].mutexes)
    {
      var ms := tcbs[x].mutexes;
      assert ms[0..] == ms;
      for k := 0 to |ms|
        invariant |mutexes| == |old(mutexes)|
        invariant Rangos(Estado(), ms) && Rangos(Estado(), ms[k..])
        invariant Desocupar(Estado(), x, ms[k..]) == Desocupar(old(Estado()), x, ms)
      {
        assert ms[k..][0] == ms[k] && ms[k..][1..] == ms[k + 1..];
        mutexes := mutexes[ms[k] := mutexes[ms[k]].(bloqueados := Quitar(mutexes[ms[k]].bloqueados, x))];
      }
    }

    method LiberarRecursosTcb(ms: seq<nat>)
      requires Valid() && Rangos(Estado(), ms)
      modifies this
      ensures Valid() && Estado() == LiberarRecursos(old(Estado()), ms)
    {
      assert ms[0..] == ms;
      for k := 0 to |ms|
        invariant Valid() && Rangos(Estado(), ms) && Rangos(Estado(), ms[k..])
        invariant LiberarRecursos(Estado(), ms[k..]) == LiberarRecursos(old(Estado()), ms)
      {
        assert ms[k..][0] == ms[k] && ms[k..][1..] == ms[k + 1..];
        ProtocoloLiberacionRecurso(ms[k]);
      }
    }

    method LiberarTcbsEnEsperaPorJoin(js: seq<HiloId>)
      requires Valid()
      modifies this
      ensures Valid() && Estado() == LiberarJoin(old(Estado()), js)
    {
      assert js[0..] == js;
      for k := 0 to |js|
        invariant Valid()
        invariant LiberarJoin(Estado(), js[k..]) == LiberarJoin(old(Estado()), js)
      {
        assert js[k..][0] == js[k] && js[k..][1..] == js[k + 1..];
        DesbloquearHilo(js[k]);
      }
    }

    // ---- Ends and creations ----

    method FinalizarHilo(x: HiloId)
      requires Valid() && Formado(Estado())
      modifies this
      ensures Valid() && Estado() == KernelEstado.FinalizarHilo(old(Estado()), x)
    {
      var existe := ExisteHilo(x);
      if !existe { return; }
      var ms, js := tcbs[x].mutexes, tcbs[x].joiners;
      SacarHilo(x);
      LiberarRecursosTcb(ms);
      exit := exit + [x];
      LiberarTcbsEnEsperaPorJoin(js);
      PcpPlanificadorCortoPlazo();
    }

    /** Out of its state list, with its flag up, and out of the queues of its mutexes. */
    method SacarHilo(x: HiloId)
      requires Valid() && x in tcbs && Rangos(Estado(), tcbs[x].mutexes)
      modifies this
      ensures Valid() && |mutexes| == |old(mutexes)|
      ensures Estado() == Desocupar(ConFlag(KernelEstado.Remover(old(Estado()), x), x), x, old(tcbs)[x].mutexes)
    {
      BuscarYRemoverTcb(x);
      SetFlag(x);
      DesocuparMutex(x);
    }

    method CrearHilo(pid: int, prioridad: int, flag0: bool)
      requires Valid() && pid in siguienteTid && HiloId(pid, siguienteTid[pid]) !in tcbs
      modifies this
      ensures Valid() && Estado() == CrearTcb(old(Estado()), pid, prioridad, flag0)
    {
      AgregarHiloNuevo(pid, prioridad, flag0);
      PcpPlanificadorCortoPlazo();
    }

    /** The record with the next tid, its queue under CMN, and its place in READY. */
    method AgregarHiloNuevo(pid: int, prioridad: int, flag0: bool)
      requires Valid() && pid in siguienteTid && HiloId(pid, siguienteTid[pid]) !in tcbs
      modifies this
      ensures Valid() && Estado() == HiloNuevo(old(Estado()), pid, prioridad, flag0)
    {
      var x := HiloId(pid, siguienteTid[pid]);
      siguienteTid := siguienteTid[pid := siguienteTid[pid] + 1];
      Registrar(x, Tcb(prioridad, 0, flag0, [], []));
      AgregarHiloAListaReady(x);
    }

    method Registrar(x: HiloId, t: Tcb)
      requires Valid() && x !in tcbs
      modifies this`tcbs, this`colas
      ensures Valid() && tcbs == old(tcbs)[x := t]
    {
      if algoritmo.CMN? {
        RefinaCrear(colas, ready, tcbs, t.prioridad);
        colas := CrearCola(colas, t.prioridad);
        RefinaNuevo(colas, ready, tcbs, x, t);
      }
      tcbs := tcbs[x := t];
    }

    /** Writes a thread's record; the queues hold only its priority, which no message changes. */
    method PonerTcb(x: HiloId, t: Tcb)
      requires Valid() && x in tcbs && t.prioridad == tcbs[x].prioridad
      modifies this`tcbs
      ensures Valid() && tcbs == old(tcbs)[x := t]
    {
      if algoritmo.CMN? { RefinaOtros(colas, ready, tcbs, tcbs[x := t]); }
      tcbs := tcbs[x := t];
    }

    // ---- Handlers ----

    method AtenderJoin(x: HiloId, u: HiloId)
      requires Valid()
      modifies this
      ensures Valid() && Estado() == Join(old(Estado()), x, u)
    {
      var existe := ExisteHilo(u);
      if existe {
        BloquearMantiene(Estado(), x);
        BloquearHiloEnEjecucion(x);
        PonerTcb(u, tcbs[u].(joiners := tcbs[u].joiners + [x]));
      }
    }

    method AtenderLock(x: HiloId, nombre: string)
      requires Valid() && Formado(Estado()) && x in exec
      modifies this
      ensures Valid() && Estado() == Lock(old(Estado()), x, nombre)
    {
      var m := Buscar(mutexes, x.pid, nombre);
      if m.None? {
        FinalizarHilo(x);
      } else if mutexes[m.value].dueno.Some? {
        BloquearMantiene(Estado(), x);
        BloquearHiloEnEjecucion(x);
        var i := m.value;
        mutexes := mutexes[i := mutexes[i].(bloqueados := mutexes[i].bloqueados + [x])];
      } else {
        PonerTcb(x, tcbs[x].(mutexes := tcbs[x].mutexes + [m.value]));
        mutexes := mutexes[m.value := mutexes[m.value].(dueno := Some(x))];
      }
    }

    method AtenderUnlock(x: HiloId, nombre: string)
      requires Valid() && Formado(Estado()) && x in exec
      modifies this
      ensures Valid() && Estado() == Unlock(old(Estado()), x, nombre)
    {
      var m := Buscar(mutexes, x.pid, nombre);
      if m.None? {
        FinalizarHilo(x);
      } else if mutexes[m.value].dueno == Some(x) {
        AtenderLiberacionDeRecurso(m.value, x);
      }
    }

    /** The switch of the dispatch handler. */
    method AtenderSyscall(x: HiloId, sys: Syscall)
      requires Valid() && Formado(Estado()) && TidsLibres(Estado()) && x in exec
      modifies this
      ensures Valid() && Estado() == KernelEstado.Atender(old(Estado()), x, sys)
    {
      ghost var s := Estado();
      match sys
      case ThreadCreate(p, f) => if x.pid in siguienteTid { CrearHilo(x.pid, p, f); }
      case ThreadJoin(tid) =>
        AtenderJoin(x, HiloId(x.pid, tid));
        AtenderJoinEs(s, x, tid);
      case ThreadCancel(tid) => FinalizarHilo(HiloId(x.pid, tid));
      case ThreadExit => FinalizarHilo(x);
      case MutexCreate(n) => mutexes := mutexes + [Mutex(x.pid, n, None, [])];
      case MutexLock(n) =>
        AtenderLock(x, n);
        AtenderLockEs(s, x, n);
      case MutexUnlock(n) =>
        AtenderUnlock(x, n);
        AtenderUnlockEs(s, x, n);
      case DumpMemory =>
        BloquearHiloEnEjecucion(x);
        dumps := dumps + [x];
        PcpPlanificadorCortoPlazo();
        AtenderDumpEs(s, x);
      case IO =>
        io := io + [x];
        BloquearHiloEnEjecucion(x);
        AtenderIoEs(s, x);
      case Proceso =>
    }

    method AtenderDesalojo(x: HiloId)
      requires Valid() && Formado(Estado()) && x in exec
      modifies this
      ensures Valid() && Estado() == Paso(old(Estado()), Desaloja(x))
    {
      SetFlag(x);
      QuitarIncluye(exec, x);
      exec := Quitar(exec, x);
      AgregarHiloAListaReady(x);
      PcpPlanificadorCortoPlazo();
    }

    /** The end of one manejar_sleep. */
    method ManejarSleep()
      requires Valid()
      modifies this
      ensures Valid() && Estado() == AtenderFinIo(old(Estado()))
    {
      if io != [] {
        var h := io[0];
        io := io[1..];
        DesbloquearHilo(h);
        if io != [] { PcpPlanificadorCortoPlazo(); }
      }
    }

    /** One message, from arrival to the end of its handler. */
    method Atender(op: Op)
      requires Valid() && Inv(Estado())
      modifies this
      ensures Valid() && Estado() == Paso(old(Estado()), op)
      ensures Inv(Estado()) <==> Guarda(old(Estado()), op)
    {
      KernelTeoremas.PasoSiYSoloSi(Estado(), op);
      InvTids(Estado());
      AtenderMensaje(op);
    }

    method AtenderMensaje(op: Op)
      requires Valid() && Formado(Estado()) && TidsLibres(Estado())
      modifies this
      ensures Valid() && Estado() == Paso(old(Estado()), op)
    {
      match op
      case Pide(x, sys) =>
        if x in exec {
          ConFlagMantiene(Estado(), x);
          SetFlag(x);
          AtenderSyscall(x, sys);
        }
      case Desaloja(x) => if x in exec { AtenderDesalojo(x); }
      case FinIo => ManejarSleep();
      case FinDump(x) =>
        if x in dumps {
          dumps := Quitar(dumps, x);
          DesbloquearHilo(x);
        }
      case NuevoProceso(pid, p, f) =>
        if pid !in siguienteTid {
          siguienteTid := siguienteTid[pid := 0];
          CrearHilo(pid, p, f);
        }
      case Termina(x) => FinalizarHilo(x);
      case Vence(t) => timers := timers - {t};
    }
  }

  /** The next tid of every process is above those its threads have had. */
  predicate TidsLibres(s: State) {
    forall x :: x in s.tcbs ==> x.pid in s.siguienteTid && x.tid < s.siguienteTid[x.pid]
  }

  lemma InvTids(s: State)
    requires Inv(s)
    ensures TidsLibres(s)
  {
  }

  lemma ConFlagMantiene(s: State, x: HiloId)
    requires Formado(s) && TidsLibres(s)
    ensures Formado(ConFlag(s, x)) && TidsLibres(ConFlag(s, x))
  {
  }

  lemma BloquearMantiene(s: State, x: HiloId)
    ensures var r := BloquearEnEjecucion(s, x); r.mutexes == s.mutexes && r.tcbs.Keys == s.tcbs.Keys
  {}

  /** The first thread of the best queue, out of it, is the choice of the single list out of that list. */
  lemma SacarPrimero(colas: seq<Cola>, s: State)
    requires Refina(colas, s.ready, s.tcbs) && s.ready != [] && !s.algoritmo.FIFO?
    ensures var m := Mejor(colas, 0, None);
            && m.Some? && colas[m.value].lista != [] && colas[m.value].lista[0] == Elegir(s)
            && var q := colas[m.value];
            Refina(colas[m.value := q.(lista := q.lista[1..])], Quitar(s.ready, Elegir(s)), s.tcbs)
  {
    MismaEleccion(colas, s);
    RefinaRemover(colas, s.ready, s.tcbs, Elegir(s));
  }

  lemma PlanificarDespacha(s: State)
    requires s.exec == [] && s.ready != []
    ensures Planificar(s) == Despachar(s, Elegir(s)) && Elegir(s) in s.ready
    ensures forall y :: y in Quitar(s.ready, Elegir(s)) ==> y in s.ready
  {
    ElegirMiembro(s);
    QuitarIncluye(s.ready, Elegir(s));
  }

  lemma EsDespacho(s: State, m: State, x: HiloId)
    requires s.algoritmo.CMN? && x in s.tcbs
    requires m == s.(ready := Quitar(s.ready, x), exec := s.exec + [x], varVerificador := s.varVerificador + 1,
                     tcbs := m.tcbs, timers := s.timers + {Timer(x, s.varVerificador + 1)})
    requires m.tcbs == s.tcbs[x := s.tcbs[x].(verificador := s.varVerificador + 1, cancelarQuantum := false)]
    ensures m == Despachar(s, x)
  {}
}
