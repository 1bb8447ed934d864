/** Dispatching over runs: whom the scheduler picks and how long a ready thread can wait for its turn. */
module KernelTurnos {
  import opened Listas
  import opened KernelEstado
  import opened KernelInvariante
  import opened KernelPasos

  // ---- The choice ----

  /** Position k holds the lowest priority number, and the first of those. */
  predicate EsTurnoDe(s: State, xs: seq<HiloId>, k: nat)
    requires k < |xs|
  {
    && (forall j :: 0 <= j < |xs| ==> Prioridad(s, xs[k]) <= Prioridad(s, xs[j]))
    && (forall j :: 0 <= j < k ==> Prioridad(s, xs[k]) < Prioridad(s, xs[j]))
  }

  lemma {:induction false} MaximaPrioridadTurno(s: State, pre: seq<HiloId>, k: nat, resto: seq<HiloId>) returns (r: nat)
    requires k < |pre| && EsTurnoDe(s, pre, k)
    ensures r < |pre + resto| && EsTurnoDe(s, pre + resto, r)
    ensures (pre + resto)[r] == MaximaPrioridad(s, pre[k], resto)
    decreases |resto|
  {
    if resto == [] {
      r := k;
      assert pre + resto == pre;
    } else {
      var k' := if Prioridad(s, pre[k]) <= Prioridad(s, resto[0]) then k else |pre|;
      r := MaximaPrioridadTurno(s, pre + [resto[0]], k', resto[1..]);
      assert pre + [resto[0]] + resto[1..] == pre + resto;
    }
  }

  lemma ElegirTurno(s: State) returns (k: nat)
    requires s.ready != [] && !s.algoritmo.FIFO?
    ensures k < |s.ready| && s.ready[k] == Elegir(s) && EsTurnoDe(s, s.ready, k)
  {
    k := MaximaPrioridadTurno(s, [s.ready[0]], 0, s.ready[1..]);
    assert [s.ready[0]] + s.ready[1..] == s.ready;
  }

  // ---- The wait of a ready thread ----

  /** How many threads of t's priority stand before t. */
  function Delante(s: State, xs: seq<HiloId>, t: HiloId): nat {
    if xs == [] || xs[0] == t then 0
    else (if Prioridad(s, xs[0]) == Prioridad(s, t) then 1 else 0) + Delante(s, xs[1..], t)
  }

  lemma {:induction false} DelanteAgregar(s: State, xs: seq<HiloId>, ys: seq<HiloId>, t: HiloId)
    requires t in xs
    ensures Delante(s, xs + ys, t) == Delante(s, xs, t)
  {
    assert (xs + ys)[0] == xs[0] && (xs + ys)[1..] == xs[1..] + ys;
    if xs[0] == t {
      // base case
    } else {
      DelanteAgregar(s, xs[1..], ys, t);
    }
  }

  lemma {:induction false} DelanteQuitar(s: State, xs: seq<HiloId>, y: HiloId, t: HiloId)
    requires t in xs && y != t
    ensures Delante(s, Quitar(xs, y), t) <= Delante(s, xs, t)
  {
    if xs[0] == t {
      assert Quitar(xs, y)[0] == t;
    } else if xs[0] == y {
      // base case
    } else {
      DelanteQuitar(s, xs[1..], y, t);
      assert ([xs[0]] + Quitar(xs[1..], y))[1..] == Quitar(xs[1..], y);
    }
  }

  /** Taking out a thread of the same priority that stands before t brings t one place forward. */
  lemma {:induction false} DelanteAvanza(s: State, xs: seq<HiloId>, k: nat, t: HiloId)
    requires SinRepetidos(xs) && t in xs && k < |xs| && xs[k] != t && t !in xs[..k]
    requires Prioridad(s, xs[k]) == Prioridad(s, t)
    ensures Delante(s, Quitar(xs, xs[k]), t) + 1 == Delante(s, xs, t)
  {
    if k == 0 {
      // base case
    } else {
      assert xs[0] in xs[..k];
      assert xs[1..][..k - 1] == xs[..k][1..];
      DelanteAvanza(s, xs[1..], k - 1, t);
      assert xs[0] != xs[k];
      assert ([xs[0]] + Quitar(xs[1..], xs[k]))[1..] == Quitar(xs[1..], xs[k]);
    }
  }

  lemma {:induction false} DelanteIgual(s: State, r: State, xs: seq<HiloId>, t: HiloId)
    requires Prioridad(s, t) == Prioridad(r, t) && forall x :: x in xs ==> Prioridad(s, x) == Prioridad(r, x)
    ensures Delante(s, xs, t) == Delante(r, xs, t)
  {
    if xs == [] {
      // base case
    } else {
      DelanteIgual(s, r, xs[1..], t);
    }
  }

  predicate MismasPrioridades(s: State, m: State) {
    m.algoritmo == s.algoritmo && m.tcbs.Keys == s.tcbs.Keys
    && forall x :: x in s.tcbs ==> m.tcbs[x].prioridad == s.tcbs[x].prioridad
  }

  predicate Activo(s: State, x: HiloId) {
    x in s.ready || x in s.exec
  }

  /** No thread that could run has a smaller priority number than t. */
  ghost predicate NadieMejor(s: State, t: HiloId) {
    forall x :: Activo(s, x) ==> Prioridad(s, t) <= Prioridad(s, x)
  }

  /** t is still waiting, `d` dispatches after s, and each of them brought it one place forward. */
  ghost predicate Avance(s: State, m: State, t: HiloId, d: nat) {
    && t in m.ready && SinRepetidos(m.ready) && SinRepetidos(m.blocked) && MismasPrioridades(s, m)
    && (forall y :: y in m.ready ==> y !in m.blocked)
    && Delante(m, m.ready, t) + d <= Delante(s, s.ready, t)
    && (if d == 0 then m.exec == s.exec || m.exec == [] else d == 1 && m.exec != [])
  }

  /** Everything that can run after some part of a handler could run, or was put there, before its end. */
  ghost predicate Crece(m: State, r: State) {
    MismasPrioridades(m, r) && forall x :: Activo(m, x) ==> Activo(r, x)
  }

  lemma CreceNadieMejor(m: State, r: State, t: HiloId)
    requires Crece(m, r) && NadieMejor(r, t)
    ensures NadieMejor(m, t)
  {
    forall x | Activo(m, x) ensures Prioridad(m, t) <= Prioridad(m, x) { assert Activo(r, x); }
  }

  lemma PlanificarCrece(m: State)
    ensures Crece(m, Planificar(m))
  {
    if m.exec == [] && m.ready != [] {
      var y := Elegir(m);
      QuitarDeja(m.ready, y);
    }
  }

  lemma PlanificarAvance(s: State, m: State, t: HiloId, d: nat) returns (d': nat)
    requires !s.algoritmo.FIFO? && Avance(s, m, t, d) && NadieMejor(Planificar(m), t) && t in Planificar(m).ready
    requires m.exec == [] ==> d == 0
    ensures Avance(s, Planificar(m), t, d') && (Planificar(m).exec == [] ==> d' == 0)
  {
    d' := d;
    if m.exec == [] {
      PlanificarCrece(m);
      CreceNadieMejor(m, Planificar(m), t);
      QuitarMiembros(m.ready, Elegir(m));
      DespachoAvanza(m, t);
      DelanteIgual(m, Planificar(m), Planificar(m).ready, t);
      d' := 1;
    }
  }

  lemma DespachoAvanza(m: State, t: HiloId)
    requires !m.algoritmo.FIFO? && SinRepetidos(m.ready) && NadieMejor(m, t) && t in m.ready && t != Elegir(m)
    ensures Elegir(m) in m.ready && Delante(m, Quitar(m.ready, Elegir(m)), t) + 1 <= Delante(m, m.ready, t)
  {
    var k := ElegirTurno(m);
    var j :| 0 <= j < |m.ready| && m.ready[j] == t;
    assert Activo(m, m.ready[k]);
    assert t !in m.ready[..k];
    DelanteAvanza(m, m.ready, k, t);
  }

  lemma DesbloquearCrece(m: State, x: HiloId)
    ensures Crece(m, Desbloquear(m, x))
  {
    if x in m.blocked {
      var a := m.(blocked := Quitar(m.blocked, x), ready := m.ready + [x]);
      PlanificarCrece(a);
    }
  }

  lemma DesbloquearAvance(s: State, m: State, t: HiloId, d: nat, x: HiloId) returns (d': nat)
    requires !s.algoritmo.FIFO? && Avance(s, m, t, d) && (m.exec == [] ==> d == 0)
    requires NadieMejor(Desbloquear(m, x), t) && t in Desbloquear(m, x).ready
    ensures Avance(s, Desbloquear(m, x), t, d') && (Desbloquear(m, x).exec == [] ==> d' == 0)
  {
    d' := d;
    if x in m.blocked {
      QuitarMiembros(m.blocked, x);
      var a := m.(blocked := Quitar(m.blocked, x), ready := m.ready + [x]);
      DelanteAgregar(m, m.ready, [x], t);
      DelanteIgual(m, a, a.ready, t);
      d' := PlanificarAvance(s, a, t, d);
    }
  }

  lemma ProtocoloCrece(m: State, i: nat)
    requires i < |m.mutexes|
    ensures Crece(m, Protocolo(m, i))
  {
    var u := m.mutexes[i];
    if u.bloqueados != [] {
      var a := m.(mutexes := m.mutexes[i := u.(bloqueados := u.bloqueados[1..])]);
      var b := Desbloquear(a, u.bloqueados[0]);
      DesbloquearCrece(a, u.bloqueados[0]);
      forall x | Activo(m, x) ensures Activo(Protocolo(m, i), x) {
        assert Activo(a, x);
        assert Activo(b, x);
      }
    }
  }

  /** Only lists, priorities and the algorithm matter to the wait. */
  lemma AvanceMismo(s: State, m: State, r: State, t: HiloId, d: nat)
    requires Avance(s, m, t, d) && MismasPrioridades(m, r)
    requires r.ready == m.ready && r.blocked == m.blocked && r.exec == m.exec
    ensures Avance(s, r, t, d)
  {
    forall x ensures Prioridad(m, x) == Prioridad(r, x) {}
    DelanteIgual(m, r, m.ready, t);
  }

  lemma ProtocoloAvance(s: State, m: State, t: HiloId, d: nat, i: nat) returns (d': nat)
    requires !s.algoritmo.FIFO? && Avance(s, m, t, d) && (m.exec == [] ==> d == 0) && i < |m.mutexes|
    requires NadieMejor(Protocolo(m, i), t) && t in Protocolo(m, i).ready
    ensures Avance(s, Protocolo(m, i), t, d') && (Protocolo(m, i).exec == [] ==> d' == 0)
  {
    var u := m.mutexes[i];
    d' := d;
    if u.bloqueados == [] {
      AvanceMismo(s, m, Protocolo(m, i), t, d);
    } else {
      var h := u.bloqueados[0];
      var a := m.(mutexes := m.mutexes[i := u.(bloqueados := u.bloqueados[1..])]);
      AvanceMismo(s, m, a, t, d);
      var b := Desbloquear(a, h);
      DesbloquearCrece(a, h);
      assert forall x :: Activo(b, x) <==> Activo(Protocolo(m, i), x);
      assert MismasPrioridades(b, Protocolo(m, i));
      CreceNadieMejor(b, Protocolo(m, i), t);
      d' := DesbloquearAvance(s, a, t, d, h);
      AvanceMismo(s, b, Protocolo(m, i), t, d');
    }
  }

  lemma {:induction false} LiberarRecursosCrece(m: State, ms: seq<nat>)
    requires Rangos(m, ms)
    ensures Crece(m, LiberarRecursos(m, ms))
    decreases |ms|
  {
    if ms == [] {
      // base case
    } else {
      ProtocoloCrece(m, ms[0]);
      LiberarRecursosCrece(Protocolo(m, ms[0]), ms[1..]);
    }
  }

  /** A thread leaves READY only by being dispatched, so one that is ready later was ready all along. */
  predicate NoVuelve(m: State, r: State, t: HiloId) {
    (t in r.ready ==> t in m.ready || t in m.blocked) && (forall y :: y in r.blocked ==> y in m.blocked)
  }

  lemma PlanificarNoVuelve(m: State, t: HiloId)
    ensures NoVuelve(m, Planificar(m), t)
  {
    if m.exec == [] && m.ready != [] { QuitarIncluye(m.ready, Elegir(m)); }
  }

  lemma DesbloquearNoVuelve(m: State, x: HiloId, t: HiloId)
    ensures NoVuelve(m, Desbloquear(m, x), t)
  {
    if x in m.blocked {
      QuitarIncluye(m.blocked, x);
      PlanificarNoVuelve(m.(blocked := Quitar(m.blocked, x), ready := m.ready + [x]), t);
    }
  }

  lemma ProtocoloNoVuelve(m: State, i: nat, t: HiloId)
    requires i < |m.mutexes|
    ensures NoVuelve(m, Protocolo(m, i), t)
  {
    var u := m.mutexes[i];
    if u.bloqueados != [] {
      DesbloquearNoVuelve(m.(mutexes := m.mutexes[i := u.(bloqueados := u.bloqueados[1..])]), u.bloqueados[0], t);
    }
  }

  lemma {:induction false} LiberarRecursosNoVuelve(m: State, ms: seq<nat>, t: HiloId)
    requires Rangos(m, ms)
    ensures NoVuelve(m, LiberarRecursos(m, ms), t)
    decreases |ms|
  {
    if ms == [] {
      // base case
    } else {
      ProtocoloNoVuelve(m, ms[0], t);
      LiberarRecursosNoVuelve(Protocolo(m, ms[0]), ms[1..], t);
    }
  }

  lemma {:induction false} LiberarJoinNoVuelve(m: State, js: seq<HiloId>, t: HiloId)
    ensures NoVuelve(m, LiberarJoin(m, js), t)
    decreases |js|
  {
    if js == [] {
      // base case
    } else {
      DesbloquearNoVuelve(m, js[0], t);
      LiberarJoinNoVuelve(Desbloquear(m, js[0]), js[1..], t);
    }
  }

  lemma {:induction false} LiberarJoinCrece(m: State, js: seq<HiloId>)
    ensures Crece(m, LiberarJoin(m, js))
    decreases |js|
  {
    if js == [] {
      // base case
    } else {
      DesbloquearCrece(m, js[0]);
      LiberarJoinCrece(Desbloquear(m, js[0]), js[1..]);
    }
  }

  /** Two cases only: t is in neither READY nor BLOCKED after a part, hence in neither at the end; or it waits on. */
  lemma {:induction false} LiberarRecursosAvance(s: State, m: State, t: HiloId, d: nat, ms: seq<nat>) returns (d': nat)
    requires !s.algoritmo.FIFO? && Avance(s, m, t, d) && (m.exec == [] ==> d == 0) && Rangos(m, ms)
    requires NadieMejor(LiberarRecursos(m, ms), t) && t in LiberarRecursos(m, ms).ready
    ensures Avance(s, LiberarRecursos(m, ms), t, d') && (LiberarRecursos(m, ms).exec == [] ==> d' == 0)
    decreases |ms|
  {
    if ms == [] {
      d' := d;
    } else {
      var a := Protocolo(m, ms[0]);
      LiberarRecursosCrece(a, ms[1..]);
      CreceNadieMejor(a, LiberarRecursos(a, ms[1..]), t);
      LiberarRecursosNoVuelve(a, ms[1..], t);
      ProtocoloNoVuelve(m, ms[0], t);
      d' := ProtocoloAvance(s, m, t, d, ms[0]);
      d' := LiberarRecursosAvance(s, a, t, d', ms[1..]);
    }
  }

  lemma {:induction false} LiberarJoinAvance(s: State, m: State, t: HiloId, d: nat, js: seq<HiloId>) returns (d': nat)
    requires !s.algoritmo.FIFO? && Avance(s, m, t, d) && (m.exec == [] ==> d == 0)
    requires NadieMejor(LiberarJoin(m, js), t) && t in LiberarJoin(m, js).ready
    ensures Avance(s, LiberarJoin(m, js), t, d') && (LiberarJoin(m, js).exec == [] ==> d' == 0)
    decreases |js|
  {
    if js == [] {
      d' := d;
    } else {
      var a := Desbloquear(m, js[0]);
      LiberarJoinCrece(a, js[1..]);
      CreceNadieMejor(a, LiberarJoin(a, js[1..]), t);
      LiberarJoinNoVuelve(a, js[1..], t);
      DesbloquearNoVuelve(m, js[0], t);
      d' := DesbloquearAvance(s, m, t, d, js[0]);
      d' := LiberarJoinAvance(s, a, t, d', js[1..]);
    }
  }

  lemma SinHiloAvance(s: State, x: HiloId, t: HiloId)
    requires Inv(s) && Vivo(s, x) && x != t && t in s.ready
    ensures Avance(s, SinHilo(s, x), t, 0) && NoVuelve(s, SinHilo(s, x), t)
  {
    var m := ConFlag(Remover(s, x), x);
    DesocuparEfecto(m, x, s.tcbs[x].mutexes) by { assert Asignados(s, Nadie, x) == s.tcbs[x].mutexes; }
    QuitarMiembros(s.ready, x);
    QuitarMiembros(s.blocked, x);
    if x in s.exec { assert s.exec == [x] && Quitar(s.exec, x) == []; }
    if x in s.ready { DelanteQuitar(s, s.ready, x, t); }
    AvanceMismo(s, s.(ready := m.ready, exec := m.exec, blocked := m.blocked), m, t, 0) by {
      DelanteIgual(s, s.(ready := m.ready, exec := m.exec, blocked := m.blocked), m.ready, t);
    }
    AvanceMismo(s, m, SinHilo(s, x), t, 0);
  }

  /** What a handler leaves for t: its place, one better for each release of the CPU. */
  ghost predicate Turno(s: State, r: State, t: HiloId) {
    && t in r.ready && r.algoritmo == s.algoritmo
    && Delante(r, r.ready, t) + (if r.exec != s.exec then 1 else 0) <= Delante(s, s.ready, t)
  }

  lemma FinalizarTurno(s: State, x: HiloId, t: HiloId)
    requires Inv(s) && !s.algoritmo.FIFO? && t in s.ready
    requires var r := FinalizarHilo(s, x); t in r.ready && NadieMejor(r, t) && r.exec != []
    ensures Turno(s, FinalizarHilo(s, x), t)
  {
    if Vivo(s, x) {
      var r := FinalizarHilo(s, x);
      var ms, js := s.tcbs[x].mutexes, s.tcbs[x].joiners;
      assert Asignados(s, Nadie, x) == ms;
      var s1 := SinHilo(s, x);
      var s2 := LiberarRecursos(s1, ms);
      var s2e := s2.(exit := s2.exit + [x]);
      var s3 := LiberarJoin(s2e, js);
      assert r == Planificar(s3);
      PlanificarCrece(s3);
      CreceNadieMejor(s3, r, t);
      LiberarJoinCrece(s2e, js);
      CreceNadieMejor(s2e, s3, t);
      assert forall y :: Activo(s2e, y) <==> Activo(s2, y);
      assert MismasPrioridades(s2, s2e);
      CreceNadieMejor(s2, s2e, t);
      FinalizarEspera(s, x, t);
      SinHiloAvance(s, x, t);
      var d := LiberarRecursosAvance(s, s1, t, 0, ms);
      AvanceMismo(s, s2, s2e, t, d);
      d := LiberarJoinAvance(s, s2e, t, d, js);
      d := PlanificarAvance(s, s3, t, d);
    }
  }

  /** A thread ready before and after finalizar_hilo was ready at each point in between. */
  lemma FinalizarEspera(s: State, x: HiloId, t: HiloId)
    requires Inv(s) && Vivo(s, x) && t in s.ready && t in FinalizarHilo(s, x).ready
    ensures var s1 := SinHilo(s, x);
            var s2 := LiberarRecursos(s1, s.tcbs[x].mutexes);
            var s3 := LiberarJoin(s2.(exit := s2.exit + [x]), s.tcbs[x].joiners);
            x != t && t in s2.ready && t in s3.ready
  {
    var ms, js := s.tcbs[x].mutexes, s.tcbs[x].joiners;
    assert Asignados(s, Nadie, x) == ms;
    var m := ConFlag(Remover(s, x), x);
    var s1 := SinHilo(s, x);
    DesocuparEfecto(m, x, ms);
    var s2 := LiberarRecursos(s1, ms);
    var s2e := s2.(exit := s2.exit + [x]);
    var s3 := LiberarJoin(s2e, js);
    PlanificarNoVuelve(s3, t);
    LiberarJoinNoVuelve(s2e, js, t);
    LiberarRecursosNoVuelve(s1, ms, t);
    QuitarIncluye(s.blocked, x);
    QuitarMiembros(s.ready, x);
  }

  lemma DespachaTurno(s: State, m: State, t: HiloId)
    requires !s.algoritmo.FIFO? && Avance(s, m, t, 0)
    requires t in Planificar(m).ready && NadieMejor(Planificar(m), t)
    ensures Turno(s, Planificar(m), t)
  {
    var d := PlanificarAvance(s, m, t, 0);
  }

  lemma BloquearTurno(s: State, x: HiloId, t: HiloId)
    requires Inv(s) && x in s.exec && !s.algoritmo.FIFO? && t in s.ready
    requires var r := BloquearEnEjecucion(s, x); t in r.ready && NadieMejor(r, t)
    ensures Turno(s, BloquearEnEjecucion(s, x), t) && BloquearEnEjecucion(s, x).exec != []
  {
    assert s.exec == [x] && Quitar(s.exec, x) == [];
    var a := s.(exec := [], blocked := s.blocked + [x]);
    DelanteIgual(s, a, a.ready, t);
    assert Avance(s, a, t, 0);
    AvanceMismo(s, a, ConFlag(a, x), t, 0);
    DespachaTurno(s, ConFlag(a, x), t);
  }

  lemma DesbloquearTurno(s: State, m: State, x: HiloId, t: HiloId)
    requires Inv(s) && !s.algoritmo.FIFO? && t in s.ready
    requires m.ready == s.ready && m.exec == s.exec && m.blocked == s.blocked && MismasPrioridades(s, m)
    requires var r := Desbloquear(m, x); t in r.ready && NadieMejor(r, t)
    ensures Turno(s, Desbloquear(m, x), t) && Desbloquear(m, x).exec == s.exec
  {
    assert Avance(s, s, t, 0);
    AvanceMismo(s, s, m, t, 0);
    var d := DesbloquearAvance(s, m, t, 0, x);
  }

  lemma DesalojaTurno(s: State, x: HiloId, t: HiloId)
    requires Inv(s) && x in s.exec && !s.algoritmo.FIFO? && t in s.ready
    requires var r := Paso(s, Desaloja(x)); t in r.ready && NadieMejor(r, t)
    ensures Turno(s, Paso(s, Desaloja(x)), t)
  {
    assert s.exec == [x] && Quitar(s.exec, x) == [];
    var a := s.(exec := [], ready := s.ready + [x]);
    DelanteAgregar(s, s.ready, [x], t);
    DelanteIgual(s, a, a.ready, t);
    assert Avance(s, a, t, 0);
    var c := ConFlag(s, x).(exec := [], ready := s.ready + [x]);
    AvanceMismo(s, a, c, t, 0);
    DespachaTurno(s, c, t);
  }

  lemma CrearTurno(s: State, pid: int, p: int, f: bool, t: HiloId)
    requires Inv(s) && pid in s.siguienteTid && !s.algoritmo.FIFO? && t in s.ready
    ensures Turno(s, CrearTcb(s, pid, p, f), t) && CrearTcb(s, pid, p, f).exec == s.exec
  {
    var x := HiloId(pid, s.siguienteTid[pid]);
    TidLibre(s, pid);
    var r := CrearTcb(s, pid, p, f);
    DelanteAgregar(s, s.ready, [x], t);
    DelanteIgual(s, r, s.ready, t);
    DelanteAgregar(r, s.ready, [x], t);
  }

  /** Later stages of a handler that touch neither lists nor priorities. */
  lemma TurnoMismo(s: State, m: State, r: State, t: HiloId)
    requires Turno(s, m, t) && MismasPrioridades(m, r) && r.ready == m.ready && r.exec == m.exec
    ensures Turno(s, r, t)
  {
    DelanteIgual(m, r, m.ready, t);
  }

  lemma NadieMejorMismo(m: State, r: State, t: HiloId)
    requires NadieMejor(r, t) && MismasPrioridades(m, r) && r.ready == m.ready && r.exec == m.exec
    ensures NadieMejor(m, t)
  {
    forall x | Activo(m, x) ensures Prioridad(m, t) <= Prioridad(m, x) { assert Activo(r, x); }
  }

  /** One message, under PRIORIDADES or CMN: every release of the CPU brings t one place forward, nothing else
      sends it back. */
  lemma PasoTurno(s: State, op: Op, t: HiloId)
    requires Inv(s) && Guarda(s, op) && !s.algoritmo.FIFO? && t in s.ready
    requires t in Paso(s, op).ready && NadieMejor(Paso(s, op), t)
    ensures Turno(s, Paso(s, op), t)
  {
    PasoInv(s, op);
    match op
    case Pide(x, sys) =>
      if x in s.exec {
        var c := ConFlag(s, x);
        FlagInv(s, x, Nadie, {});
        DelanteIgual(s, c, s.ready, t);
        AtenderTurno(c, x, sys, t);
      }
    case Desaloja(x) => if x in s.exec { DesalojaTurno(s, x, t); }
    case FinIo => FinIoTurno(s, t);
    case FinDump(x) => if x in s.dumps { DesbloquearTurno(s, s.(dumps := Quitar(s.dumps, x)), x, t); }
    case NuevoProceso(pid, p, f) => NuevoTurno(s, pid, p, f, t);
    case Termina(x) => FinalizarTurno(s, x, t);
    case Vence(v) => DelanteIgual(s, s.(timers := s.timers - {v}), s.ready, t);
  }

  lemma FinIoTurno(s: State, t: HiloId)
    requires Inv(s) && !s.algoritmo.FIFO? && t in s.ready
    requires t in AtenderFinIo(s).ready && NadieMejor(AtenderFinIo(s), t)
    ensures Turno(s, AtenderFinIo(s), t)
  {
    if s.io != [] {
      var m := s.(io := s.io[1..]);
      assert Avance(s, s, t, 0);
      AvanceMismo(s, s, m, t, 0);
      DesbloquearOcupado(m, s.io[0]);
      DesbloquearTurno(s, m, s.io[0], t);
    }
  }

  lemma DesbloquearOcupado(m: State, x: HiloId)
    requires m.exec != []
    ensures Desbloquear(m, x).exec == m.exec && Planificar(Desbloquear(m, x)) == Desbloquear(m, x)
  {
  }

  lemma NuevoTurno(s: State, pid: int, p: int, f: bool, t: HiloId)
    requires Inv(s) && !s.algoritmo.FIFO? && t in s.ready
    ensures Turno(s, Paso(s, NuevoProceso(pid, p, f)), t)
  {
    if pid !in s.siguienteTid {
      var m := s.(siguienteTid := s.siguienteTid[pid := 0]);
      NuevoPidInv(s, m);
      CrearTurno(m, pid, p, f, t);
      DelanteIgual(s, m, s.ready, t);
    }
  }

  lemma AtenderTurno(s: State, x: HiloId, sys: Syscall, t: HiloId)
    requires Inv(s) && x in s.exec && !s.algoritmo.FIFO? && t in s.ready
    requires var r := Atender(s, x, sys); t in r.ready && NadieMejor(r, t) && r.exec != []
    ensures Turno(s, Atender(s, x, sys), t)
  {
    var r := Atender(s, x, sys);
    match sys
    case ThreadCreate(p, f) => if x.pid in s.siguienteTid { CrearTurno(s, x.pid, p, f, t); }
    case ThreadJoin(tid) => JoinTurno(s, x, HiloId(x.pid, tid), t);
    case ThreadCancel(tid) => FinalizarTurno(s, HiloId(x.pid, tid), t);
    case ThreadExit => FinalizarTurno(s, x, t);
    case MutexCreate(n) => DelanteIgual(s, r, s.ready, t);
    case MutexLock(n) => LockTurno(s, x, n, t);
    case MutexUnlock(n) => UnlockTurno(s, x, n, t);
    case DumpMemory => DumpTurno(s, x, t);
    case IO => IoTurno(s, x, t);
    case Proceso =>
  }

  lemma JoinTurno(s: State, x: HiloId, u: HiloId, t: HiloId)
    requires Inv(s) && x in s.exec && !s.algoritmo.FIFO? && t in s.ready
    requires var r := Join(s, x, u); t in r.ready && NadieMejor(r, t)
    ensures Turno(s, Join(s, x, u), t)
  {
    if Vivo(s, u) && u in s.tcbs {
      var m := BloquearEnEjecucion(s, x);
      NadieMejorMismo(m, Join(s, x, u), t);
      BloquearTurno(s, x, t);
      TurnoMismo(s, m, Join(s, x, u), t);
    }
  }

  lemma DumpTurno(s: State, x: HiloId, t: HiloId)
    requires Inv(s) && x in s.exec && !s.algoritmo.FIFO? && t in s.ready
    requires var m := BloquearEnEjecucion(s, x); var r := Planificar(m.(dumps := m.dumps + [x]));
             t in r.ready && NadieMejor(r, t)
    ensures var m := BloquearEnEjecucion(s, x); Turno(s, Planificar(m.(dumps := m.dumps + [x])), t)
  {
    var m := BloquearEnEjecucion(s, x);
    BloquearInv(s, x);
    var a := m.(dumps := m.dumps + [x]);
    assert Planificar(a) == a;
    NadieMejorMismo(m, a, t);
    BloquearTurno(s, x, t);
    TurnoMismo(s, m, a, t);
  }

  lemma IoTurno(s: State, x: HiloId, t: HiloId)
    requires Inv(s) && x in s.exec && !s.algoritmo.FIFO? && t in s.ready
    requires var r := BloquearEnEjecucion(s.(io := s.io + [x]), x); t in r.ready && NadieMejor(r, t)
    ensures Turno(s, BloquearEnEjecucion(s.(io := s.io + [x]), x), t)
  {
    var m := BloquearEnEjecucion(s, x);
    IoConmuta(s, x);
    NadieMejorMismo(m, BloquearEnEjecucion(s.(io := s.io + [x]), x), t);
    BloquearTurno(s, x, t);
    TurnoMismo(s, m, BloquearEnEjecucion(s.(io := s.io + [x]), x), t);
  }

  lemma LockTurno(s: State, x: HiloId, n: string, t: HiloId)
    requires Inv(s) && x in s.exec && !s.algoritmo.FIFO? && t in s.ready
    requires var r := Lock(s, x, n); t in r.ready && NadieMejor(r, t) && r.exec != []
    ensures Turno(s, Lock(s, x, n), t)
  {
    var r := Lock(s, x, n);
    match Buscar(s.mutexes, x.pid, n)
    case None => FinalizarTurno(s, x, t);
    case Some(i) =>
      if s.mutexes[i].dueno.Some? {
        var m := BloquearEnEjecucion(s, x);
        NadieMejorMismo(m, r, t);
        BloquearTurno(s, x, t);
        TurnoMismo(s, m, r, t);
      } else {
        DelanteIgual(s, r, s.ready, t);
      }
  }

  lemma UnlockTurno(s: State, x: HiloId, n: string, t: HiloId)
    requires Inv(s) && x in s.exec && !s.algoritmo.FIFO? && t in s.ready
    requires var r := Unlock(s, x, n); t in r.ready && NadieMejor(r, t) && r.exec != []
    ensures Turno(s, Unlock(s, x, n), t)
  {
    match Buscar(s.mutexes, x.pid, n)
    case None => FinalizarTurno(s, x, t);
    case Some(i) =>
      if s.mutexes[i].dueno == Some(x) {
        LiberacionInv(s, x, i);
        var m := s.(tcbs := s.tcbs[x := s.tcbs[x].(mutexes := Quitar(s.tcbs[x].mutexes, i))]);
        assert Avance(s, s, t, 0);
        AvanceMismo(s, s, m, t, 0);
        var d := ProtocoloAvance(s, m, t, 0, i);
        ProtocoloOcupado(m, i);
      }
  }

  lemma ProtocoloOcupado(m: State, i: nat)
    requires i < |m.mutexes| && m.exec != []
    ensures Protocolo(m, i).exec == m.exec
  {
    var u := m.mutexes[i];
    if u.bloqueados != [] {
      DesbloquearOcupado(m.(mutexes := m.mutexes[i := u.(bloqueados := u.bloqueados[1..])]), u.bloqueados[0]);
    }
  }

  /** How often the CPU changes hands in a run. */
  function Relevos(s: State, ops: seq<Op>): nat
    decreases |ops|
  {
    if ops == [] || !Formado(s) then 0
    else (if Paso(s, ops[0]).exec != s.exec then 1 else 0) + Relevos(Paso(s, ops[0]), ops[1..])
  }

  /** No thread with a smaller priority number than t runs or becomes ready at any point of the run. */
  ghost predicate SinMejores(s: State, ops: seq<Op>, t: HiloId)
    decreases |ops|
  {
    ops == [] || !Formado(s) || (NadieMejor(Paso(s, ops[0]), t) && SinMejores(Paso(s, ops[0]), ops[1..], t))
  }

  /** At some point of the run t is in EXEC, or has been ended. */
  predicate Llega(s: State, ops: seq<Op>, t: HiloId)
    decreases |ops|
  {
    t in s.exec || t in s.exit || (ops != [] && Formado(s) && Llega(Paso(s, ops[0]), ops[1..], t))
  }

  /** A thread with i threads of its own priority before it gets the CPU by the time it has changed hands i + 1 times. */
  lemma {:induction false} TurnoLlega(s: State, ops: seq<Op>, t: HiloId)
    requires Inv(s) && Correr(s, ops).Some? && !s.algoritmo.FIFO? && t in s.ready && SinMejores(s, ops, t)
    requires Relevos(s, ops) > Delante(s, s.ready, t)
    ensures Llega(s, ops, t)
    decreases |ops|
  {
    var r := Paso(s, ops[0]);
    PasoInv(s, ops[0]);
    if t !in r.ready {
      // base case
      SalioDeReady(s, ops[0], t);
    } else {
      PasoTurno(s, ops[0], t);
      TurnoLlega(r, ops[1..], t);
    }
  }

  lemma SalioDeReady(s: State, op: Op, t: HiloId)
    requires Inv(s) && Inv(Paso(s, op)) && t in s.ready && t !in Paso(s, op).ready
    ensures t in Paso(s, op).exec || t in Paso(s, op).exit
  {
    PasoBlocked(s, op, t);
  }

  /** Only the running thread can become blocked, and no record is ever dropped. */
  lemma PasoBlocked(s: State, op: Op, t: HiloId)
    requires Inv(s) && t in s.ready
    ensures t !in Paso(s, op).blocked && t in Paso(s, op).tcbs
  {
    if op.Pide? && op.hilo in s.exec {
      FlagInv(s, op.hilo, Nadie, {});
      AtenderBlocked(ConFlag(s, op.hilo), op.hilo, op.sys, t);
    } else {
      match op
      case FinIo =>
        if s.io != [] {
          var m := s.(io := s.io[1..]);
          DesbloquearBlocked(m, s.io[0], t);
          PlanificarBlocked(Desbloquear(m, s.io[0]), t);
        }
      case FinDump(x) => DesbloquearBlocked(s.(dumps := Quitar(s.dumps, x)), x, t);
      case Termina(x) => FinalizarBlocked(s, x, t);
      case _ =>
    }
  }

  lemma FinalizarBlocked(s: State, x: HiloId, t: HiloId)
    requires Inv(s) && t !in s.blocked && t in s.tcbs
    ensures t !in FinalizarHilo(s, x).blocked && t in FinalizarHilo(s, x).tcbs
  {
    if Vivo(s, x) {
      var ms, js := s.tcbs[x].mutexes, s.tcbs[x].joiners;
      assert Asignados(s, Nadie, x) == ms;
      QuitarIncluye(s.blocked, x);
      DesocuparEfecto(ConFlag(Remover(s, x), x), x, ms);
      var s1 := SinHilo(s, x);
      assert t !in s1.blocked && t in s1.tcbs;
      LiberarRecursosBlocked(s1, ms, t);
      var s2 := LiberarRecursos(s1, ms);
      LiberarJoinBlocked(s2.(exit := s2.exit + [x]), js, t);
    }
  }

  lemma AtenderBlocked(s: State, x: HiloId, sys: Syscall, t: HiloId)
    requires Inv(s) && x in s.exec && t in s.ready
    ensures t !in Atender(s, x, sys).blocked && t in Atender(s, x, sys).tcbs
  {
    match sys
    case ThreadCancel(tid) => FinalizarBlocked(s, HiloId(x.pid, tid), t);
    case ThreadExit => FinalizarBlocked(s, x, t);
    case MutexLock(n) => LockBlocked(s, x, n, t);
    case MutexUnlock(n) => UnlockBlocked(s, x, n, t);
    case ThreadCreate(p, f) => if x.pid in s.siguienteTid { CrearBlocked(s, x.pid, p, f, t); }
    case ThreadJoin(tid) => JoinBlocked(s, x, HiloId(x.pid, tid), t);
    case DumpMemory =>
      BloquearBlocked(s, x, t);
      var s1 := BloquearEnEjecucion(s, x);
      PlanificarBlocked(s1.(dumps := s1.dumps + [x]), t);
    case IO =>
      IoConmuta(s, x);
      BloquearBlocked(s, x, t);
    case MutexCreate(_) =>
    case Proceso =>
  }

  lemma BloquearBlocked(s: State, x: HiloId, t: HiloId)
    requires Inv(s) && x in s.exec && t in s.ready
    ensures t !in BloquearEnEjecucion(s, x).blocked && t in BloquearEnEjecucion(s, x).tcbs
  {
    PlanificarBlocked(ConFlag(s.(exec := Quitar(s.exec, x), blocked := s.blocked + [x]), x), t);
  }

  lemma CrearBlocked(s: State, pid: int, p: int, f: bool, t: HiloId)
    requires Inv(s) && t in s.ready && pid in s.siguienteTid
    ensures t !in CrearTcb(s, pid, p, f).blocked && t in CrearTcb(s, pid, p, f).tcbs
  {
    PlanificarBlocked(HiloNuevo(s, pid, p, f), t);
  }

  lemma JoinBlocked(s: State, x: HiloId, u: HiloId, t: HiloId)
    requires Inv(s) && x in s.exec && t in s.ready
    ensures t !in Join(s, x, u).blocked && t in Join(s, x, u).tcbs
  {
    BloquearBlocked(s, x, t);
  }

  lemma LockBlocked(s: State, x: HiloId, n: string, t: HiloId)
    requires Inv(s) && x in s.exec && t in s.ready
    ensures t !in Lock(s, x, n).blocked && t in Lock(s, x, n).tcbs
  {
    if Buscar(s.mutexes, x.pid, n).None? { FinalizarBlocked(s, x, t); } else { BloquearBlocked(s, x, t); }
  }

  lemma UnlockBlocked(s: State, x: HiloId, n: string, t: HiloId)
    requires Inv(s) && x in s.exec && t in s.ready
    ensures t !in Unlock(s, x, n).blocked && t in Unlock(s, x, n).tcbs
  {
    var b := Buscar(s.mutexes, x.pid, n);
    if b.None? {
      FinalizarBlocked(s, x, t);
    } else if s.mutexes[b.value].dueno == Some(x) {
      LiberacionInv(s, x, b.value);
      ProtocoloBlocked(s.(tcbs := s.tcbs[x := s.tcbs[x].(mutexes := Quitar(s.tcbs[x].mutexes, b.value))]), b.value, t);
    }
  }
}
