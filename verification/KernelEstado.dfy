/** The kernel's thread machine as values: its global lists, its handlers as total functions on them.
    Every function is one C function of kernel/src, with the same branches in the same order. */
module KernelEstado {
  import opened Listas

  datatype HiloId = HiloId(pid: int, tid: int)

  datatype Algoritmo = FIFO | PRIORIDADES | CMN

  /** t_tcb: `joiners` is tids_en_espera_por_join, `mutexes` is lista_mutex_asignados (indices of State.mutexes). */
  datatype Tcb = Tcb(prioridad: int, verificador: int, cancelarQuantum: bool,
                     joiners: seq<HiloId>, mutexes: seq<nat>)

  /** t_mutex_pcb, with the pid of the process whose lista_mutex holds it; dueno None is the pair (-1, -1). */
  datatype Mutex = Mutex(pid: int, nombre: string, dueno: Option<HiloId>, bloqueados: seq<HiloId>)

  /** A sleeping _programar_interrupcion_por_quantum: the thread it watches and verificador_referencia. */
  datatype Timer = Timer(hilo: HiloId, referencia: int)

  datatype State = State(
    algoritmo: Algoritmo,
    tcbs: map<HiloId, Tcb>,
    siguienteTid: map<int, nat>,
    ready: seq<HiloId>, exec: seq<HiloId>, blocked: seq<HiloId>, exit: seq<HiloId>,
    mutexes: seq<Mutex>,
    io: seq<HiloId>,
    dumps: seq<HiloId>,
    varVerificador: int,
    timers: set<Timer>)

  function Inicial(a: Algoritmo): State {
    State(a, map[], map[], [], [], [], [], [], [], [], 0, {})
  }

  predicate Vivo(s: State, x: HiloId) {
    x in s.ready || x in s.exec || x in s.blocked
  }

  /** A thread without a record never reaches the comparisons below; the value only makes the function total. */
  function Prioridad(s: State, x: HiloId): int {
    if x in s.tcbs then s.tcbs[x].prioridad else 0
  }

  function ConFlag(s: State, x: HiloId): State {
    if x in s.tcbs then s.(tcbs := s.tcbs[x := s.tcbs[x].(cancelarQuantum := true)]) else s
  }

  // ---- Short-term scheduler ----

  /** list_get_maximum with __maxima_prioridad: a fold from the left that keeps the earlier of two equals. */
  function MaximaPrioridad(s: State, mejor: HiloId, resto: seq<HiloId>): HiloId
    decreases |resto|
  {
    if resto == [] then mejor
    else MaximaPrioridad(s, if Prioridad(s, mejor) <= Prioridad(s, resto[0]) then mejor else resto[0], resto[1..])
  }

  function Elegir(s: State): HiloId
    requires s.ready != []
  {
    if s.algoritmo.FIFO? then s.ready[0] else MaximaPrioridad(s, s.ready[0], s.ready[1..])
  }

  /** READY to EXEC. Under CMN the dispatch takes a new verifier and arms a quantum timer with it. */
  function Despachar(s: State, x: HiloId): State {
    var s1 := s.(ready := Quitar(s.ready, x), exec := s.exec + [x]);
    if s.algoritmo.CMN? && x in s.tcbs then
      var v := s.varVerificador + 1;
      s1.(varVerificador := v,
          tcbs := s.tcbs[x := s.tcbs[x].(verificador := v, cancelarQuantum := false)],
          timers := s.timers + {Timer(x, v)})
    else s1
  }

  function Planificar(s: State): State {
    if s.exec == [] && s.ready != [] then Despachar(s, Elegir(s)) else s
  }

  function BloquearEnEjecucion(s: State, x: HiloId): State {
    if x in s.exec then
      Planificar(ConFlag(s.(exec := Quitar(s.exec, x), blocked := s.blocked + [x]), x))
    else s
  }

  function Desbloquear(s: State, x: HiloId): State {
    if x in s.blocked then
      Planificar(s.(blocked := Quitar(s.blocked, x), ready := s.ready + [x]))
    else s
  }

  // ---- Mutexes ----

  function Buscar(ms: seq<Mutex>, pid: int, nombre: string): Option<nat> {
    BuscarDesde(ms, pid, nombre, 0)
  }

  function BuscarDesde(ms: seq<Mutex>, pid: int, nombre: string, i: nat): (r: Option<nat>)
    requires i <= |ms|
    ensures r.Some? ==> i <= r.value < |ms| && ms[r.value].pid == pid && ms[r.value].nombre == nombre
    ensures r.Some? ==> forall j :: i <= j < r.value ==> !(ms[j].pid == pid && ms[j].nombre == nombre)
    ensures r.None? ==> forall j :: i <= j < |ms| ==> !(ms[j].pid == pid && ms[j].nombre == nombre)
    decreases |ms| - i
  {
    if i == |ms| then None
    else if ms[i].pid == pid && ms[i].nombre == nombre then Some(i)
    else BuscarDesde(ms, pid, nombre, i + 1)
  }

  function Encolar(s: State, i: nat, x: HiloId): State
    requires i < |s.mutexes|
  {
    s.(mutexes := s.mutexes[i := s.mutexes[i].(bloqueados := s.mutexes[i].bloqueados + [x])])
  }

  function ConDueno(s: State, i: nat, d: Option<HiloId>): State
    requires i < |s.mutexes|
  {
    s.(mutexes := s.mutexes[i := s.mutexes[i].(dueno := d)])
  }

  function Asignar(s: State, i: nat, x: HiloId): State {
    if x in s.tcbs then s.(tcbs := s.tcbs[x := s.tcbs[x].(mutexes := s.tcbs[x].mutexes + [i])]) else s
  }

  /** protocolo_liberacion_recurso: free the mutex, or wake its first waiter and make it the owner. */
  function Protocolo(s: State, i: nat): (r: State)
    requires i < |s.mutexes|
    ensures |r.mutexes| == |s.mutexes|
  {
    var m := s.mutexes[i];
    if m.bloqueados == [] then ConDueno(s, i, None)
    else
      var h := m.bloqueados[0];
      var s1 := Desbloquear(s.(mutexes := s.mutexes[i := m.(bloqueados := m.bloqueados[1..])]), h);
      ConDueno(Asignar(s1, i, h), i, Some(h))
  }

  /** remover_recurso_asignado removes by name, not by identity. */
  function QuitarPorNombre(ms: seq<Mutex>, xs: seq<nat>, nombre: string): seq<nat>
    requires forall k :: 0 <= k < |xs| ==> xs[k] < |ms|
  {
    if xs == [] then []
    else if ms[xs[0]].nombre == nombre then xs[1..]
    else [xs[0]] + QuitarPorNombre(ms, xs[1..], nombre)
  }

  predicate Rangos(s: State, xs: seq<nat>) {
    forall k :: 0 <= k < |xs| ==> xs[k] < |s.mutexes|
  }

  function Liberacion(s: State, i: nat, x: HiloId): State
    requires i < |s.mutexes| && x in s.tcbs && Rangos(s, s.tcbs[x].mutexes)
  {
    var xs := QuitarPorNombre(s.mutexes, s.tcbs[x].mutexes, s.mutexes[i].nombre);
    Protocolo(s.(tcbs := s.tcbs[x := s.tcbs[x].(mutexes := xs)]), i)
  }

  // ---- End of a thread ----

  /** buscar_y_remover_tcb_por_tid: READY first, then EXEC, then BLOCKED. */
  function Remover(s: State, x: HiloId): State {
    if x in s.ready then s.(ready := Quitar(s.ready, x))
    else if x in s.exec then s.(exec := Quitar(s.exec, x))
    else s.(blocked := Quitar(s.blocked, x))
  }

  /** desocupar_mutex: takes x out of the queues of the mutexes that x itself holds. */
  function Desocupar(s: State, x: HiloId, ms: seq<nat>): (r: State)
    requires Rangos(s, ms)
    ensures |r.mutexes| == |s.mutexes|
    decreases |ms|
  {
    if ms == [] then s
    else
      var m := s.mutexes[ms[0]];
      Desocupar(s.(mutexes := s.mutexes[ms[0] := m.(bloqueados := Quitar(m.bloqueados, x))]), x, ms[1..])
  }

  /** liberar_recursos_tcb: the release protocol on each held mutex, dispatching inside the loop. */
  function LiberarRecursos(s: State, ms: seq<nat>): (r: State)
    requires Rangos(s, ms)
    ensures |r.mutexes| == |s.mutexes|
    decreases |ms|
  {
    if ms == [] then s else LiberarRecursos(Protocolo(s, ms[0]), ms[1..])
  }

  /** liberar_tcbs_en_espera_por_join. */
  function LiberarJoin(s: State, js: seq<HiloId>): State
    decreases |js|
  {
    if js == [] then s else LiberarJoin(Desbloquear(s, js[0]), js[1..])
  }

  function FinalizarHilo(s: State, x: HiloId): State
    requires Vivo(s, x) && x in s.tcbs ==> Rangos(s, s.tcbs[x].mutexes)
  {
    if !Vivo(s, x) || x !in s.tcbs then s
    else
      var ms, js := s.tcbs[x].mutexes, s.tcbs[x].joiners;
      var s1 := Desocupar(ConFlag(Remover(s, x), x), x, ms);
      var s2 := LiberarRecursos(s1, ms);
      var s3 := LiberarJoin(s2.(exit := s2.exit + [x]), js);
      Planificar(s3)
  }

  // ---- Handlers ----

  /** The state with one thread more, READY; flag0 is whatever the uninitialised flag_cancelar_quantum held. */
  function HiloNuevo(s: State, pid: int, prioridad: int, flag0: bool): State
    requires pid in s.siguienteTid
  {
    var x := HiloId(pid, s.siguienteTid[pid]);
    s.(tcbs := s.tcbs[x := Tcb(prioridad, 0, flag0, [], [])],
       siguienteTid := s.siguienteTid[pid := s.siguienteTid[pid] + 1],
       ready := s.ready + [x])
  }

  /** crear_tcb. */
  function CrearTcb(s: State, pid: int, prioridad: int, flag0: bool): State
    requires pid in s.siguienteTid
  {
    Planificar(HiloNuevo(s, pid, prioridad, flag0))
  }

  /** Proceso is PROCESS_CREATE or PROCESS_EXIT: the handler raises the caller's flag and leaves the rest to the
      long-term scheduler, whose effects here are the messages NuevoProceso and Termina. */
  datatype Syscall =
    | ThreadCreate(prioridad: int, flag0: bool)
    | ThreadJoin(tid: int)
    | ThreadCancel(tid: int)
    | ThreadExit
    | MutexCreate(nombre: string)
    | MutexLock(nombre: string)
    | MutexUnlock(nombre: string)
    | DumpMemory
    | IO
    | Proceso

  /** Termina is one turn of the loop with which finalizar_proceso ends the threads of a process. */
  datatype Op =
    | Pide(hilo: HiloId, sys: Syscall)
    | Desaloja(hilo: HiloId)
    | FinIo
    | FinDump(hilo: HiloId)
    | NuevoProceso(pid: int, prioridad: int, flag0: bool)
    | Termina(hilo: HiloId)
    | Vence(timer: Timer)

  predicate Formado(s: State) {
    forall x :: x in s.tcbs ==> Rangos(s, s.tcbs[x].mutexes)
  }

  function Join(s: State, x: HiloId, u: HiloId): State {
    if Vivo(s, u) && u in s.tcbs then
      var s1 := BloquearEnEjecucion(s, x);
      if u in s1.tcbs then s1.(tcbs := s1.tcbs[u := s1.tcbs[u].(joiners := s1.tcbs[u].joiners + [x])]) else s1
    else s
  }

  function Lock(s: State, x: HiloId, nombre: string): State
    requires Formado(s)
  {
    match Buscar(s.mutexes, x.pid, nombre)
    case None => FinalizarHilo(s, x)
    case Some(i) =>
      if s.mutexes[i].dueno.Some? then
        var s1 := BloquearEnEjecucion(s, x);
        if i < |s1.mutexes| then Encolar(s1, i, x) else s1
      else ConDueno(Asignar(s, i, x), i, Some(x))
  }

  function Unlock(s: State, x: HiloId, nombre: string): State
    requires Formado(s)
  {
    match Buscar(s.mutexes, x.pid, nombre)
    case None => FinalizarHilo(s, x)
    case Some(i) =>
      if s.mutexes[i].dueno == Some(x) && x in s.tcbs then Liberacion(s, i, x) else s
  }

  function PideDump(s: State, x: HiloId): State {
    var s1 := BloquearEnEjecucion(s, x);
    Planificar(s1.(dumps := s1.dumps + [x]))
  }

  /** atender_io. */
  function PideIo(s: State, x: HiloId): State {
    BloquearEnEjecucion(s.(io := s.io + [x]), x)
  }

  function Atender(s: State, x: HiloId, sys: Syscall): State
    requires Formado(s)
  {
    match sys
    case ThreadCreate(p, f) => if x.pid in s.siguienteTid then CrearTcb(s, x.pid, p, f) else s
    case ThreadJoin(tid) => Join(s, x, HiloId(x.pid, tid))
    case ThreadCancel(tid) => FinalizarHilo(s, HiloId(x.pid, tid))
    case ThreadExit => FinalizarHilo(s, x)
    case MutexCreate(n) => s.(mutexes := s.mutexes + [Mutex(x.pid, n, None, [])])
    case MutexLock(n) => Lock(s, x, n)
    case MutexUnlock(n) => Unlock(s, x, n)
    case DumpMemory => PideDump(s, x)
    case IO => PideIo(s, x)
    case Proceso => s
  }

  /** manejar_sleep: the device finishes with the head of its queue and starts on the next. */
  function AtenderFinIo(s: State): State {
    if s.io == [] then s
    else
      var s1 := Desbloquear(s.(io := s.io[1..]), s.io[0]);
      if s1.io != [] then Planificar(s1) else s1
  }

  /** One message handled to its end. A message about a thread that is not in EXEC is dropped. */
  function Paso(s: State, op: Op): State
    requires Formado(s)
  {
    match op
    case Pide(x, sys) => if x in s.exec then Atender(ConFlag(s, x), x, sys) else s
    case Desaloja(x) =>
      if x in s.exec then
        Planificar(ConFlag(s, x).(exec := Quitar(s.exec, x), ready := s.ready + [x]))
      else s
    case FinIo => AtenderFinIo(s)
    case FinDump(x) =>
      if x in s.dumps then Desbloquear(s.(dumps := Quitar(s.dumps, x)), x) else s
    case NuevoProceso(pid, p, f) =>
      if pid in s.siguienteTid then s else CrearTcb(s.(siguienteTid := s.siguienteTid[pid := 0]), pid, p, f)
    case Termina(x) => FinalizarHilo(s, x)
    case Vence(t) => s.(timers := s.timers - {t})
  }
}
