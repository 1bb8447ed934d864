/** What every message of the kernel keeps: each thread in one state list, each blocked thread in one wait list,
    and the two directions of mutex ownership. The invariant is stated so that it also describes the middle of
    finalizar_hilo, where the ending thread is in no list and its mutexes and joiners are released one by one. */
module KernelInvariante {
  import opened Listas
  import opened KernelEstado
  import opened Reparto

  /** The thread being ended, with the mutexes it has still to release and the joiners it has still to wake. */
  datatype Limbo = Nadie | Final(hilo: HiloId, faltanMutexes: seq<nat>, faltanJoiners: seq<HiloId>)

  predicate EnLimbo(l: Limbo, x: HiloId) {
    l.Final? && l.hilo == x
  }

  function Asignados(s: State, l: Limbo, x: HiloId): seq<nat> {
    if EnLimbo(l, x) then l.faltanMutexes
    else if x in s.tcbs && Vivo(s, x) then s.tcbs[x].mutexes
    else []
  }

  /** The queue at a place. The join list of a finished thread is no longer one. */
  function Espera(s: State, l: Limbo, w: Sitio): seq<HiloId> {
    match w
    case EnMutex(i) => if i < |s.mutexes| then s.mutexes[i].bloqueados else []
    case EnJoin(u) =>
      if EnLimbo(l, u) then l.faltanJoiners
      else if u in s.tcbs && Vivo(s, u) then s.tcbs[u].joiners
      else []
    case EnIo => s.io
    case EnDump => s.dumps
  }

  ghost predicate ListasOk(s: State, l: Limbo) {
    && SinRepetidos(s.ready) && SinRepetidos(s.blocked) && SinRepetidos(s.exit)
    && |s.exec| <= 1
    && (forall x :: x in s.ready ==> x !in s.exec && x !in s.blocked && x !in s.exit)
    && (forall x :: x in s.exec ==> x !in s.blocked && x !in s.exit)
    && (forall x :: x in s.blocked ==> x !in s.exit)
    && (forall x :: x in s.tcbs <==> Vivo(s, x) || x in s.exit || EnLimbo(l, x))
    && (l.Final? ==> !Vivo(s, l.hilo))
    && (forall x :: x in s.tcbs ==> x.pid in s.siguienteTid && x.tid < s.siguienteTid[x.pid])
  }

  predicate Primero(ms: seq<Mutex>, i: nat)
    requires i < |ms|
  {
    forall j :: 0 <= j < i ==> !(ms[j].pid == ms[i].pid && ms[j].nombre == ms[i].nombre)
  }

  predicate Posee(s: State, x: HiloId, i: nat) {
    i < |s.mutexes| && s.mutexes[i].dueno == Some(x)
  }

  /** `suelto` is a mutex that a handler has already taken from its owner's list but not yet released. */
  ghost predicate MutexOk(s: State, l: Limbo, suelto: Option<nat>) {
    && (forall x :: SinRepetidos(Asignados(s, l, x)))
    && (forall x, k :: 0 <= k < |Asignados(s, l, x)| ==>
          Posee(s, x, Asignados(s, l, x)[k]) && suelto != Some(Asignados(s, l, x)[k]))
    && (forall i: nat :: i < |s.mutexes| ==> DuenoOk(s, l, suelto, i) && ColaOk(s.mutexes[i]))
  }

  ghost predicate DuenoOk(s: State, l: Limbo, suelto: Option<nat>, i: nat)
    requires i < |s.mutexes|
  {
    match s.mutexes[i].dueno
    case None => suelto != Some(i)
    case Some(x) =>
      && (suelto == Some(i) || i in Asignados(s, l, x))
      && s.mutexes[i].pid == x.pid && Primero(s.mutexes, i)
  }

  predicate ColaOk(m: Mutex) {
    && (m.dueno.None? ==> m.bloqueados == [])
    && (forall k :: 0 <= k < |m.bloqueados| ==> m.bloqueados[k].pid == m.pid)
  }

  function ColasDe(s: State, l: Limbo): Colas {
    w => Espera(s, l, w)
  }

  ghost predicate EsperasOk(s: State, l: Limbo, libres: set<HiloId>) {
    UnaCola(ColasDe(s, l), s.tcbs.Keys, s.ready + s.exec, s.blocked, libres)
  }

  ghost predicate Inv0(s: State, l: Limbo, libres: set<HiloId>) {
    && Formado(s) && ListasOk(s, l) && MutexOk(s, l, None) && EsperasOk(s, l, libres)
  }

  /** Work conservation. */
  predicate Ocupado(s: State) {
    s.exec == [] ==> s.ready == []
  }

  ghost predicate Inv(s: State) {
    && Inv0(s, Nadie, {}) && Ocupado(s)
  }

  // ---- The dispatcher ----

  lemma {:induction false} MaximaPrioridadMiembro(s: State, mejor: HiloId, resto: seq<HiloId>)
    ensures MaximaPrioridad(s, mejor, resto) in [mejor] + resto
    decreases |resto|
  {
    if resto == [] {
      // base case
    } else {
      var m := if Prioridad(s, mejor) <= Prioridad(s, resto[0]) then mejor else resto[0];
      MaximaPrioridadMiembro(s, m, resto[1..]);
    }
  }

  lemma ElegirMiembro(s: State)
    requires s.ready != []
    ensures Elegir(s) in s.ready
  {
    if !s.algoritmo.FIFO? {
      MaximaPrioridadMiembro(s, s.ready[0], s.ready[1..]);
      assert s.ready == [s.ready[0]] + s.ready[1..];
    }
  }

  /** What the dispatcher and the flag leave alone. */
  ghost predicate MismosDatos(s: State, r: State) {
    && r.tcbs.Keys == s.tcbs.Keys
    && (forall x :: x in s.tcbs ==> r.tcbs[x].joiners == s.tcbs[x].joiners && r.tcbs[x].mutexes == s.tcbs[x].mutexes)
    && r.mutexes == s.mutexes && r.io == s.io && r.dumps == s.dumps && r.siguienteTid == s.siguienteTid
  }

  lemma PlanificarMueve(s: State, l: Limbo)
    requires ListasOk(s, l)
    ensures var r := Planificar(s);
            && MismosDatos(s, r) && r.blocked == s.blocked && r.exit == s.exit
            && (r == s || (s.exec == [] && s.ready != [] && r.exec == [Elegir(s)]
                           && r.ready == Quitar(s.ready, Elegir(s)) && Elegir(s) in s.ready))
            && ListasOk(r, l) && Ocupado(r)
            && (forall x :: Vivo(r, x) <==> Vivo(s, x))
            && (forall x :: x in r.ready || x in r.exec <==> x in s.ready || x in s.exec)
  {
    if s.exec == [] && s.ready != [] {
      ElegirMiembro(s);
      QuitarMiembros(s.ready, Elegir(s));
      DespacharListas(s, l, Elegir(s));
    }
  }

  lemma DespacharListas(s: State, l: Limbo, x: HiloId)
    requires ListasOk(s, l) && s.exec == [] && x in s.ready
    requires SinRepetidos(Quitar(s.ready, x)) && forall y :: y in Quitar(s.ready, x) <==> y in s.ready && y != x
    ensures var r := Despachar(s, x);
            && ListasOk(r, l) && r.exec == [x] && r.ready == Quitar(s.ready, x) && MismosDatos(s, r)
            && (forall y :: Vivo(r, y) <==> Vivo(s, y))
  {
    MudanzaListas(s, Despachar(s, x), l, x);
  }

  lemma MudanzaListas(s: State, r: State, l: Limbo, x: HiloId)
    requires ListasOk(s, l) && s.exec == [] && x in s.ready
    requires SinRepetidos(r.ready) && forall y :: y in r.ready <==> y in s.ready && y != x
    requires r.exec == [x] && r.blocked == s.blocked && r.exit == s.exit
    requires r.tcbs.Keys == s.tcbs.Keys && r.siguienteTid == s.siguienteTid
    ensures ListasOk(r, l) && forall y :: Vivo(r, y) <==> Vivo(s, y)
  {
  }

  /** MutexOk reads only the mutexes and the assigned lists. */
  lemma MutexIguales(s: State, r: State, l: Limbo, k: Limbo, suelto: Option<nat>)
    requires MutexOk(s, l, suelto) && r.mutexes == s.mutexes
    requires forall x :: Asignados(r, k, x) == Asignados(s, l, x)
    ensures MutexOk(r, k, suelto)
  {
  }

  /** A change that keeps the data, the blocked list, the live set and READY+EXEC together keeps the waits. */
  lemma DatosIguales(s: State, r: State, l: Limbo, libres: set<HiloId>)
    requires Inv0(s, l, libres) && MismosDatos(s, r) && r.blocked == s.blocked
    requires forall x :: Vivo(r, x) <==> Vivo(s, x)
    requires forall x :: x in r.ready || x in r.exec <==> x in s.ready || x in s.exec
    ensures Formado(r) && MutexOk(r, l, None) && EsperasOk(r, l, libres)
  {
    MutexIguales(s, r, l, l, None);
    EsperasIguales(s, r, l, libres);
  }

  lemma EsperasIguales(s: State, r: State, l: Limbo, libres: set<HiloId>)
    requires EsperasOk(s, l, libres) && MismosDatos(s, r) && r.blocked == s.blocked
    requires forall x :: Vivo(r, x) <==> Vivo(s, x)
    requires forall x :: x in r.ready || x in r.exec <==> x in s.ready || x in s.exec
    ensures EsperasOk(r, l, libres)
  {
    ColasIguales(s, r, l);
    Igual(ColasDe(s, l), ColasDe(r, l), s.tcbs.Keys, r.tcbs.Keys, s.ready + s.exec, r.ready + r.exec, s.blocked, libres);
  }

  lemma ColasIguales(s: State, r: State, l: Limbo)
    requires MismosDatos(s, r) && forall x :: Vivo(r, x) <==> Vivo(s, x)
    ensures forall w :: ColasDe(r, l)(w) == ColasDe(s, l)(w)
  {
    forall w ensures ColasDe(r, l)(w) == ColasDe(s, l)(w) {}
  }

  lemma PlanificarInv(s: State, l: Limbo, libres: set<HiloId>)
    requires Inv0(s, l, libres)
    ensures Inv0(Planificar(s), l, libres) && Ocupado(Planificar(s))
  {
    PlanificarMueve(s, l);
    DatosIguales(s, Planificar(s), l, libres);
  }

  lemma FlagInv(s: State, x: HiloId, l: Limbo, libres: set<HiloId>)
    requires Inv0(s, l, libres)
    ensures Inv0(ConFlag(s, x), l, libres)
  {
    DatosIguales(s, ConFlag(s, x), l, libres);
  }

  // ---- Waking and blocking ----

  /** desbloquear_hilo of a thread that is in no queue: BLOCKED to READY if it is there, nothing if it has ended. */
  lemma DesbloquearInv(s: State, l: Limbo, h: HiloId)
    requires Formado(s) && ListasOk(s, l) && EsperasOk(s, l, {h})
    ensures var r := Desbloquear(s, h);
            && Formado(r) && ListasOk(r, l) && EsperasOk(r, l, {})
            && MismosDatos(s, r) && r.exit == s.exit && (forall x :: Vivo(r, x) <==> Vivo(s, x))
            && (Ocupado(s) || h in s.blocked ==> Ocupado(r))
  {
    QuitarMiembros(s.blocked, h);
    var m := s.(blocked := Quitar(s.blocked, h), ready := s.ready + [h]);
    if h in s.blocked {
      assert ListasOk(m, l);
      ColasIguales(s, m, l);
      Soltar(ColasDe(s, l), ColasDe(m, l), s.tcbs.Keys, s.ready + s.exec, s.blocked, m.ready + m.exec, m.blocked, h);
      PlanificarMueve(m, l);
      EsperasIguales(m, Planificar(m), l, {});
    } else {
      Soltar(ColasDe(s, l), ColasDe(s, l), s.tcbs.Keys, s.ready + s.exec, s.blocked, s.ready + s.exec, s.blocked, h);
    }
  }

  lemma DetenerInv(s: State, m: State, x: HiloId)
    requires Inv0(s, Nadie, {}) && s.exec == [x] && m == s.(exec := [], blocked := s.blocked + [x])
    ensures Inv0(m, Nadie, {x}) && MismosDatos(s, m) && forall y :: Vivo(m, y) <==> Vivo(s, y)
  {
    assert ListasOk(m, Nadie);
    ColasIguales(s, m, Nadie);
    Detener(ColasDe(s, Nadie), ColasDe(m, Nadie), s.tcbs.Keys, s.ready + s.exec, s.blocked, m.ready + m.exec, m.blocked, x);
    MutexIguales(s, m, Nadie, Nadie, None);
  }

  lemma BloquearInv(s: State, x: HiloId)
    requires Inv0(s, Nadie, {}) && x in s.exec
    ensures var r := BloquearEnEjecucion(s, x);
            && Inv0(r, Nadie, {x}) && x in r.blocked && x !in r.ready && x !in r.exec && Ocupado(r)
            && MismosDatos(s, r) && (forall y :: Vivo(r, y) <==> Vivo(s, y))
  {
    assert s.exec == [x];
    assert Quitar(s.exec, x) == [];
    var m := s.(exec := [], blocked := s.blocked + [x]);
    DetenerInv(s, m, x);
    FlagInv(m, x, Nadie, {x});
    var c := ConFlag(m, x);
    PlanificarMueve(c, Nadie);
    PlanificarInv(c, Nadie, {x});
    assert BloquearEnEjecucion(s, x) == Planificar(c);
  }

  // ---- The release protocol ----

  lemma ProtocoloInv(s: State, l: Limbo, i: nat)
    requires Formado(s) && ListasOk(s, l) && MutexOk(s, l, Some(i)) && EsperasOk(s, l, {})
    requires i < |s.mutexes|
    ensures Inv0(Protocolo(s, i), l, {}) && (Ocupado(s) ==> Ocupado(Protocolo(s, i)))
  {
    var r := Protocolo(s, i);
    var m := s.mutexes[i];
    if m.bloqueados == [] {
      forall w ensures ColasDe(r, l)(w) == ColasDe(s, l)(w) {}
      Igual(ColasDe(s, l), ColasDe(r, l), s.tcbs.Keys, r.tcbs.Keys, s.ready + s.exec, r.ready + r.exec, s.blocked, {});
      ProtocoloMutex(s, l, i, r);
    } else {
      ProtocoloCede(s, l, i);
    }
  }

  lemma ProtocoloCede(s: State, l: Limbo, i: nat)
    requires Formado(s) && ListasOk(s, l) && MutexOk(s, l, Some(i)) && EsperasOk(s, l, {})
    requires i < |s.mutexes| && s.mutexes[i].bloqueados != []
    ensures Inv0(Protocolo(s, i), l, {}) && (Ocupado(s) ==> Ocupado(Protocolo(s, i)))
  {
    var r := Protocolo(s, i);
    var h := s.mutexes[i].bloqueados[0];
    var s1 := ProtocoloDespierta(s, l, i);
    AsignarInv(s1, l, i, h);
    forall x ensures Asignados(r, l, x) == if x == h then Asignados(s, l, h) + [i] else Asignados(s, l, x) {}
    ProtocoloMutex(s, l, i, r);
  }

  /** Giving a mutex to a live thread disturbs no queue. */
  lemma AsignarInv(s: State, l: Limbo, i: nat, h: HiloId)
    requires Formado(s) && ListasOk(s, l) && EsperasOk(s, l, {}) && i < |s.mutexes| && h in s.tcbs
    ensures var r := ConDueno(Asignar(s, i, h), i, Some(h));
            && Formado(r) && ListasOk(r, l) && EsperasOk(r, l, {}) && MismasListas(s, r)
            && |r.mutexes| == |s.mutexes|
            && (forall j :: 0 <= j < |s.mutexes| && j != i ==> r.mutexes[j] == s.mutexes[j])
            && r.mutexes[i] == s.mutexes[i].(dueno := Some(h))
            && (forall x :: Asignados(r, l, x) ==
                  if x == h && Vivo(s, h) && !EnLimbo(l, h) then Asignados(s, l, h) + [i] else Asignados(s, l, x))
  {
    var r := ConDueno(Asignar(s, i, h), i, Some(h));
    AsignarColas(s, l, i, h);
    AsignarListas(s, l, i, h);
    Igual(ColasDe(s, l), ColasDe(r, l), s.tcbs.Keys, r.tcbs.Keys, s.ready + s.exec, r.ready + r.exec, s.blocked, {});
  }

  lemma AsignarListas(s: State, l: Limbo, i: nat, h: HiloId)
    requires Formado(s) && ListasOk(s, l) && i < |s.mutexes| && h in s.tcbs
    ensures var r := ConDueno(Asignar(s, i, h), i, Some(h));
            Formado(r) && ListasOk(r, l) && MismasListas(s, r) && |r.mutexes| == |s.mutexes|
  {
  }

  lemma AsignarColas(s: State, l: Limbo, i: nat, h: HiloId)
    requires i < |s.mutexes| && h in s.tcbs
    ensures forall w :: ColasDe(ConDueno(Asignar(s, i, h), i, Some(h)), l)(w) == ColasDe(s, l)(w)
  {
    forall w ensures ColasDe(ConDueno(Asignar(s, i, h), i, Some(h)), l)(w) == ColasDe(s, l)(w) {}
  }

  ghost predicate MismasListas(s: State, r: State) {
    && r.ready == s.ready && r.exec == s.exec && r.blocked == s.blocked && r.exit == s.exit
    && r.tcbs.Keys == s.tcbs.Keys && r.siguienteTid == s.siguienteTid
  }

  /** The head of the queue leaves it and wakes; the mutex itself is not yet reassigned. */
  lemma ProtocoloDespierta(s: State, l: Limbo, i: nat) returns (s1: State)
    requires Formado(s) && ListasOk(s, l) && MutexOk(s, l, Some(i)) && EsperasOk(s, l, {})
    requires i < |s.mutexes| && s.mutexes[i].bloqueados != []
    ensures var m := s.mutexes[i];
            var s0 := s.(mutexes := s.mutexes[i := m.(bloqueados := m.bloqueados[1..])]);
            && s1 == Desbloquear(s0, m.bloqueados[0])
            && Formado(s1) && ListasOk(s1, l) && EsperasOk(s1, l, {}) && MismosDatos(s0, s1)
            && (forall x :: Vivo(s1, x) <==> Vivo(s, x))
            && Vivo(s, m.bloqueados[0]) && m.bloqueados[0] in s.tcbs && !EnLimbo(l, m.bloqueados[0])
            && (Ocupado(s) ==> Ocupado(s1))
  {
    var m := s.mutexes[i];
    var h := m.bloqueados[0];
    var s0 := s.(mutexes := s.mutexes[i := m.(bloqueados := m.bloqueados[1..])]);
    var e, d := ColasDe(s, l), ColasDe(s0, l);
    assert Esta(e, h, EnMutex(i));
    forall w | w != EnMutex(i) ensures d(w) == e(w) {}
    Sacar(e, d, EnMutex(i), s.tcbs.Keys, s.ready + s.exec, s.blocked);
    DesbloquearInv(s0, l, h);
    s1 := Desbloquear(s0, h);
  }

  /** The ownership half: mutex `i` goes to nobody, or to the head of its queue. */
  lemma ProtocoloMutex(s: State, l: Limbo, i: nat, r: State)
    requires MutexOk(s, l, Some(i)) && i < |s.mutexes| == |r.mutexes|
    requires forall j :: 0 <= j < |s.mutexes| && j != i ==> r.mutexes[j] == s.mutexes[j]
    requires r.mutexes[i].pid == s.mutexes[i].pid && r.mutexes[i].nombre == s.mutexes[i].nombre
    requires
      var q := s.mutexes[i].bloqueados;
      if q == [] then
        r.mutexes[i].dueno == None && r.mutexes[i].bloqueados == []
        && forall x :: Asignados(r, l, x) == Asignados(s, l, x)
      else
        r.mutexes[i].dueno == Some(q[0]) && r.mutexes[i].bloqueados == q[1..]
        && forall x :: Asignados(r, l, x) == if x == q[0] then Asignados(s, l, x) + [i] else Asignados(s, l, x)
    ensures MutexOk(r, l, None)
  {
    assert DuenoOk(s, l, Some(i), i) && ColaOk(s.mutexes[i]);
    ProtocoloAsignados(s, l, i, r);
    forall j: nat | j < |r.mutexes| ensures DuenoOk(r, l, None, j) && ColaOk(r.mutexes[j]) {
      assert DuenoOk(s, l, Some(i), j) && ColaOk(s.mutexes[j]);
    }
  }

  lemma ProtocoloAsignados(s: State, l: Limbo, i: nat, r: State)
    requires MutexOk(s, l, Some(i)) && i < |s.mutexes| == |r.mutexes|
    requires forall j :: 0 <= j < |s.mutexes| && j != i ==> r.mutexes[j] == s.mutexes[j]
    requires forall x :: Asignados(r, l, x) == Asignados(s, l, x)
                         || (r.mutexes[i].dueno == Some(x) && Asignados(r, l, x) == Asignados(s, l, x) + [i])
    ensures forall x :: SinRepetidos(Asignados(r, l, x))
    ensures forall x, k :: 0 <= k < |Asignados(r, l, x)| ==> Posee(r, x, Asignados(r, l, x)[k])
  {
    forall x, k | 0 <= k < |Asignados(r, l, x)| ensures Posee(r, x, Asignados(r, l, x)[k]) {
      if k < |Asignados(s, l, x)| { assert Posee(s, x, Asignados(s, l, x)[k]); }
    }
    forall x ensures SinRepetidos(Asignados(r, l, x)) {
      forall k | 0 <= k < |Asignados(s, l, x)| ensures Asignados(s, l, x)[k] != i {}
      assert i !in Asignados(s, l, x);
    }
  }
}
