/** Runs of the kernel on which a property fails: a waiter that is cancelled, a thread that joins itself, and two
    threads that join each other. */
module KernelTestigos {
  import opened Listas
  import opened KernelEstado
  import opened KernelInvariante
  import opened KernelPasos
  import opened KernelTeoremas
  import opened Grafos
  import opened KernelCiclos

  const HILO_0: HiloId := HiloId(0, 0)
  const HILO_1: HiloId := HiloId(0, 1)

  /** One process with its first thread running, its flag as given. */
  function UnHilo(flag: bool): State {
    Inicial(FIFO).(tcbs := map[HILO_0 := Tcb(0, 0, flag, [], [])], siguienteTid := map[0 := 1], exec := [HILO_0])
  }

  /** A second thread, never run. */
  function DosHilos(ready: seq<HiloId>, exec: seq<HiloId>, ms: seq<nat>, mutexes: seq<Mutex>): State {
    UnHilo(true).(tcbs := map[HILO_0 := Tcb(0, 0, true, [], ms), HILO_1 := Tcb(0, 0, false, [], [])],
                  siguienteTid := map[0 := 2], ready := ready, exec := exec, mutexes := mutexes)
  }

  /** The second thread waits for the mutex of the first, which runs. */
  function Esperando(): State {
    UnHilo(true).(tcbs := map[HILO_0 := Tcb(0, 0, true, [], [0]), HILO_1 := Tcb(0, 0, true, [], [])],
                  siguienteTid := map[0 := 2], exec := [HILO_0], blocked := [HILO_1],
                  mutexes := [Mutex(0, "m", Some(HILO_0), [HILO_1])])
  }

  /** The first thread creates the second and a mutex, takes the mutex and leaves the CPU. */
  function Prepara(): seq<Op> {
    [NuevoProceso(0, 0, false), Pide(HILO_0, ThreadCreate(0, false)), Pide(HILO_0, MutexCreate("m"))]
  }

  function Toma(): seq<Op> {
    [Pide(HILO_0, MutexLock("m")), Desaloja(HILO_0), Pide(HILO_1, MutexLock("m"))]
  }

  function Mensajes(): seq<Op> {
    Prepara() + Toma()
  }

  lemma PasoNuevo()
    ensures Paso(Inicial(FIFO), NuevoProceso(0, 0, false)) == UnHilo(false)
  {
    var s := Inicial(FIFO).(siguienteTid := map[0 := 1], tcbs := map[HILO_0 := Tcb(0, 0, false, [], [])], ready := [HILO_0]);
    assert HiloNuevo(Inicial(FIFO).(siguienteTid := map[0 := 0]), 0, 0, false) == s;
    assert Planificar(s) == Despachar(s, HILO_0);
  }

  lemma PasoCrea()
    ensures Paso(UnHilo(false), Pide(HILO_0, ThreadCreate(0, false))) == DosHilos([HILO_1], [HILO_0], [], [])
  {
    assert ConFlag(UnHilo(false), HILO_0) == UnHilo(true);
    var s := DosHilos([HILO_1], [HILO_0], [], []);
    assert UnHilo(true).ready + [HILO_1] == [HILO_1];
    assert HiloNuevo(UnHilo(true), 0, 0, false) == s;
  }

  lemma PasoMutex()
    ensures Paso(DosHilos([HILO_1], [HILO_0], [], []), Pide(HILO_0, MutexCreate("m")))
            == DosHilos([HILO_1], [HILO_0], [], [Mutex(0, "m", None, [])])
  {
    var s := DosHilos([HILO_1], [HILO_0], [], []);
    assert ConFlag(s, HILO_0) == s;
  }

  lemma PasoToma()
    ensures Paso(DosHilos([HILO_1], [HILO_0], [], [Mutex(0, "m", None, [])]), Pide(HILO_0, MutexLock("m")))
            == DosHilos([HILO_1], [HILO_0], [0], [Mutex(0, "m", Some(HILO_0), [])])
  {
    var s := DosHilos([HILO_1], [HILO_0], [], [Mutex(0, "m", None, [])]);
    assert ConFlag(s, HILO_0) == s;
    assert Buscar(s.mutexes, 0, "m") == Some(0);
    assert Lock(s, HILO_0, "m") == ConDueno(Asignar(s, 0, HILO_0), 0, Some(HILO_0));
    assert [] + [0] == [0];
  }

  lemma PasoDesaloja()
    ensures Paso(DosHilos([HILO_1], [HILO_0], [0], [Mutex(0, "m", Some(HILO_0), [])]), Desaloja(HILO_0))
            == DosHilos([HILO_0], [HILO_1], [0], [Mutex(0, "m", Some(HILO_0), [])])
  {
    var s := DosHilos([HILO_1], [HILO_0], [0], [Mutex(0, "m", Some(HILO_0), [])]);
    assert ConFlag(s, HILO_0) == s;
    var m := s.(exec := [], ready := [HILO_1, HILO_0]);
    assert Paso(s, Desaloja(HILO_0)) == Planificar(m);
    assert Planificar(m) == Despachar(m, HILO_1);
  }

  lemma PasoEspera()
    ensures Paso(DosHilos([HILO_0], [HILO_1], [0], [Mutex(0, "m", Some(HILO_0), [])]), Pide(HILO_1, MutexLock("m")))
            == Esperando()
  {
    var s := DosHilos([HILO_0], [HILO_1], [0], [Mutex(0, "m", Some(HILO_0), [])]);
    var c := ConFlag(s, HILO_1);
    var m := c.(exec := [], blocked := [HILO_1]);
    assert Buscar(c.mutexes, 0, "m") == Some(0);
    assert ConFlag(m, HILO_1) == m;
    assert BloquearEnEjecucion(c, HILO_1) == Planificar(m);
    assert Planificar(m) == Despachar(m, HILO_0);
    assert Lock(c, HILO_1, "m") == Encolar(Planificar(m), 0, HILO_1);
  }

  lemma Sigue(s: State, ops: seq<Op>, resto: seq<Op>)
    requires ops != [] && resto == ops[1..] && Formado(s) && Guarda(s, ops[0])
    ensures Correr(s, ops) == Correr(Paso(s, ops[0]), resto)
  {
  }

  lemma TrasPreparar()
    ensures Correr(Inicial(FIFO), Mensajes())
            == Correr(DosHilos([HILO_1], [HILO_0], [], [Mutex(0, "m", None, [])]), Toma())
  {
    var p := Mensajes();
    Sigue(Inicial(FIFO), p, p[1..]);
    PasoNuevo();
    Sigue(UnHilo(false), p[1..], p[2..]);
    PasoCrea();
    Sigue(DosHilos([HILO_1], [HILO_0], [], []), p[2..], p[3..]);
    PasoMutex();
    assert p[3..] == Toma();
  }

  lemma TrasTomar()
    ensures Correr(DosHilos([HILO_1], [HILO_0], [], [Mutex(0, "m", None, [])]), Toma()) == Some(Esperando())
  {
    var p := Toma();
    Sigue(DosHilos([HILO_1], [HILO_0], [], [Mutex(0, "m", None, [])]), p, [p[1], p[2]]);
    PasoToma();
    Sigue(DosHilos([HILO_1], [HILO_0], [0], [Mutex(0, "m", Some(HILO_0), [])]), [p[1], p[2]], [p[2]]);
    PasoDesaloja();
    Sigue(DosHilos([HILO_0], [HILO_1], [0], [Mutex(0, "m", Some(HILO_0), [])]), [p[2]], []);
    PasoEspera();
  }

  /** Six messages after the start, the running thread can cancel a waiter of its mutex and break the invariant. */
  lemma CancelarUnaEspera()
    ensures Correr(Inicial(FIFO), Mensajes()) == Some(Esperando())
    ensures HILO_0 in Esperando().exec && Vivo(Esperando(), HILO_1) && !Cancelable(Esperando(), HILO_1)
    ensures !Inv(Paso(Esperando(), Pide(HILO_0, ThreadCancel(1))))
  {
    TrasPreparar();
    TrasTomar();
    var s := Esperando();
    InicialInv(FIFO);
    CorrerInv(Inicial(FIFO), Mensajes());
    assert HILO_1 in s.mutexes[0].bloqueados && s.mutexes[0].dueno != Some(HILO_1);
    CancelSiYSoloSi(s, HILO_0, 1);
  }

  lemma PasoPropio()
    ensures var r := Paso(UnHilo(false), Pide(HILO_0, ThreadJoin(0)));
            HILO_0 in r.blocked && EsperaA(r, HILO_0, HILO_0)
  {
    var c := UnHilo(true);
    assert ConFlag(UnHilo(false), HILO_0) == c;
    var m := c.(exec := [], blocked := [HILO_0]);
    assert ConFlag(m, HILO_0) == m;
    assert BloquearEnEjecucion(c, HILO_0) == Planificar(m) == m;
    assert Paso(UnHilo(false), Pide(HILO_0, ThreadJoin(0))) == Join(c, HILO_0, HILO_0);
  }

  /** Two messages after the start, a thread waits for its own end. */
  lemma EsperarseASiMismo()
    ensures var r := Correr(Inicial(FIFO), [NuevoProceso(0, 0, false), Pide(HILO_0, ThreadJoin(0))]);
            r.Some? && HILO_0 in r.value.blocked && EsperaA(r.value, HILO_0, HILO_0)
  {
    var op := Pide(HILO_0, ThreadJoin(0));
    PasoNuevo();
    Sigue(Inicial(FIFO), [NuevoProceso(0, 0, false), op], [op]);
    Sigue(UnHilo(false), [op], []);
    PasoPropio();
  }

  /** The first thread has joined the second, which runs. */
  function MedioCruce(): State {
    UnHilo(true).(tcbs := map[HILO_0 := Tcb(0, 0, true, [], []), HILO_1 := Tcb(0, 0, false, [HILO_0], [])],
                  siguienteTid := map[0 := 2], exec := [HILO_1], blocked := [HILO_0])
  }

  /** Each has joined the other. */
  function Cruzados(): State {
    UnHilo(true).(tcbs := map[HILO_0 := Tcb(0, 0, true, [HILO_1], []), HILO_1 := Tcb(0, 0, true, [HILO_0], [])],
                  siguienteTid := map[0 := 2], exec := [], blocked := [HILO_0, HILO_1])
  }

  function Cruce(): seq<Op> {
    [NuevoProceso(0, 0, false), Pide(HILO_0, ThreadCreate(0, false)), Pide(HILO_0, ThreadJoin(1)),
     Pide(HILO_1, ThreadJoin(0))]
  }

  lemma PasoMedioCruce()
    ensures Paso(DosHilos([HILO_1], [HILO_0], [], []), Pide(HILO_0, ThreadJoin(1))) == MedioCruce()
  {
    var c := DosHilos([HILO_1], [HILO_0], [], []);
    assert ConFlag(c, HILO_0) == c;
    PrimeroBloqueado();
    assert [] + [HILO_0] == [HILO_0];
    assert Join(c, HILO_0, HILO_1) == MedioCruce();
  }

  lemma PrimeroBloqueado()
    ensures BloquearEnEjecucion(DosHilos([HILO_1], [HILO_0], [], []), HILO_0)
            == DosHilos([], [HILO_1], [], []).(blocked := [HILO_0])
  {
    var c := DosHilos([HILO_1], [HILO_0], [], []);
    var m := c.(exec := [], blocked := [HILO_0]);
    assert ConFlag(m, HILO_0) == m;
    assert BloquearEnEjecucion(c, HILO_0) == Planificar(m) == Despachar(m, HILO_1);
  }

  lemma PasoCruzados()
    ensures Paso(MedioCruce(), Pide(HILO_1, ThreadJoin(0))) == Cruzados()
  {
    var c := ConFlag(MedioCruce(), HILO_1);
    var m := c.(exec := [], blocked := [HILO_0, HILO_1]);
    assert [HILO_0] + [HILO_1] == [HILO_0, HILO_1];
    assert ConFlag(m, HILO_1) == m;
    assert BloquearEnEjecucion(c, HILO_1) == Planificar(m) == m;
    assert [] + [HILO_1] == [HILO_1];
    assert Join(c, HILO_1, HILO_0) == Cruzados();
  }

  lemma TrasCruzar()
    ensures Correr(Inicial(FIFO), Cruce()) == Some(Cruzados())
  {
    var p := Cruce();
    Sigue(Inicial(FIFO), p, p[1..]);
    PasoNuevo();
    Sigue(UnHilo(false), p[1..], p[2..]);
    PasoCrea();
    CruceDesdeDos();
    assert p[2..] == [p[2], p[3]];
  }

  lemma CruceDesdeDos()
    ensures Correr(DosHilos([HILO_1], [HILO_0], [], []), [Pide(HILO_0, ThreadJoin(1)), Pide(HILO_1, ThreadJoin(0))])
            == Some(Cruzados())
  {
    var p := [Pide(HILO_0, ThreadJoin(1)), Pide(HILO_1, ThreadJoin(0))];
    Sigue(DosHilos([HILO_1], [HILO_0], [], []), p, [p[1]]);
    PasoMedioCruce();
    CruceDesdeElMedio();
  }

  lemma CruceDesdeElMedio()
    ensures Correr(MedioCruce(), [Pide(HILO_1, ThreadJoin(0))]) == Some(Cruzados())
  {
    Sigue(MedioCruce(), [Pide(HILO_1, ThreadJoin(0))], []);
    PasoCruzados();
  }

  lemma CruzadosEsperas()
    ensures var r := Cruzados();
            && EsperaA(r, HILO_0, HILO_1) && EsperaA(r, HILO_1, HILO_0)
            && !EsperaA(r, HILO_0, HILO_0) && !EsperaA(r, HILO_1, HILO_1)
  {
  }

  lemma CruzadosEnCiclo()
    ensures EnCiclo(Esperas(Cruzados()), HILO_0)
  {
    CruzadosEsperas();
    var g := Esperas(Cruzados());
    assert Une(g, [HILO_1, HILO_0], HILO_1, HILO_0);
    assert g(HILO_0, HILO_1) && Llega(g, HILO_1, HILO_0);
  }

  lemma CierraElCruce()
    ensures CierraCiclo(MedioCruce(), Pide(HILO_1, ThreadJoin(0)))
  {
    assert Une(Esperas(MedioCruce()), [HILO_0, HILO_1], HILO_0, HILO_1);
  }

  /** Four messages after the start, two threads have joined each other: neither waits for itself, each waits for a
      live thread, and nothing is left under way. The last message is the one that closes the cycle. */
  lemma EsperarseMutuamente()
    ensures Correr(Inicial(FIFO), Cruce()) == Some(Cruzados())
    ensures var r := Cruzados();
            && r.blocked == [HILO_0, HILO_1] && r.ready == [] && r.exec == [] && r.io == [] && r.dumps == []
            && EsperaA(r, HILO_0, HILO_1) && EsperaA(r, HILO_1, HILO_0)
            && !EsperaA(r, HILO_0, HILO_0) && !EsperaA(r, HILO_1, HILO_1) && EnCiclo(Esperas(r), HILO_0)
    ensures CierraCiclo(MedioCruce(), Pide(HILO_1, ThreadJoin(0)))
  {
    TrasCruzar();
    CruzadosEsperas();
    CruzadosEnCiclo();
    CierraElCruce();
  }
}
