/** Every message keeps the invariant, and so does every run; what that gives for blocked threads and mutexes. */
module KernelPasos {
  import opened Listas
  import opened KernelEstado
  import opened Reparto
  import opened KernelInvariante

  // ---- finalizar_hilo ----

  lemma {:induction false} DesocuparEfecto(s: State, x: HiloId, ms: seq<nat>)
    requires Rangos(s, ms) && SinRepetidos(ms)
    ensures var r := Desocupar(s, x, ms);
            && r == s.(mutexes := r.mutexes) && |r.mutexes| == |s.mutexes|
            && (forall i: nat :: i < |s.mutexes| ==>
                  r.mutexes[i] == if i in ms then s.mutexes[i].(bloqueados := Quitar(s.mutexes[i].bloqueados, x))
                                  else s.mutexes[i])
    decreases |ms|
  {
    if ms == [] {
      // base case
    } else {
      var m := s.mutexes[ms[0]];
      var s1 := s.(mutexes := s.mutexes[ms[0] := m.(bloqueados := Quitar(m.bloqueados, x))]);
      assert ms == [ms[0]] + ms[1..];
      DesocuparEfecto(s1, x, ms[1..]);
      assert ms[0] !in ms[1..];
    }
  }

  /** x waits on no mutex that another thread holds: the condition under which it may be ended from outside. */
  predicate Cancelable(s: State, x: HiloId) {
    forall i :: 0 <= i < |s.mutexes| && x in s.mutexes[i].bloqueados ==> s.mutexes[i].dueno == Some(x)
  }

  lemma RemoverEfecto(s: State, x: HiloId)
    requires ListasOk(s, Nadie) && Vivo(s, x) && x in s.tcbs
    ensures var r := Remover(s, x);
            && r == s.(ready := r.ready, exec := r.exec, blocked := r.blocked)
            && ListasOk(r, Final(x, [], []))
            && (forall y :: y in r.ready + r.exec <==> y in s.ready + s.exec && y != x)
            && (forall y :: y in r.blocked <==> y in s.blocked && y != x)
  {
    QuitarMiembros(s.ready, x);
    QuitarMiembros(s.exec, x);
    QuitarMiembros(s.blocked, x);
  }

  /** The state with the thread out of its list and out of the queues of its own mutexes. */
  function SinHilo(s: State, x: HiloId): State
    requires x in s.tcbs && Rangos(s, s.tcbs[x].mutexes)
  {
    Desocupar(ConFlag(Remover(s, x), x), x, s.tcbs[x].mutexes)
  }

  lemma SinHiloEfecto(s: State, x: HiloId)
    requires Inv0(s, Nadie, {}) && Vivo(s, x) && x in s.tcbs && Cancelable(s, x)
    ensures var r := SinHilo(s, x);
            && |r.mutexes| == |s.mutexes|
            && (forall i: nat :: i < |s.mutexes| ==>
                  r.mutexes[i] == s.mutexes[i].(bloqueados := Quitar(s.mutexes[i].bloqueados, x)))
            && var s1 := ConFlag(Remover(s, x), x); r == s1.(mutexes := r.mutexes)
  {
    var ms := s.tcbs[x].mutexes;
    var s1 := ConFlag(Remover(s, x), x);
    var r := SinHilo(s, x);
    assert Asignados(s, Nadie, x) == ms;
    DesocuparEfecto(s1, x, ms);
    forall i: nat | i < |s.mutexes|
      ensures r.mutexes[i] == s.mutexes[i].(bloqueados := Quitar(s.mutexes[i].bloqueados, x))
    {
      assert DuenoOk(s, Nadie, None, i);
      if i !in ms { QuitarAusente(s.mutexes[i].bloqueados, x); }
    }
  }

  lemma SinHiloListas(s: State, x: HiloId)
    requires Inv0(s, Nadie, {}) && Vivo(s, x) && x in s.tcbs && Cancelable(s, x)
    ensures var r, l := SinHilo(s, x), Final(x, s.tcbs[x].mutexes, s.tcbs[x].joiners);
            && ListasOk(r, l) && r.exit == s.exit && r.io == s.io && r.dumps == s.dumps && r.tcbs.Keys == s.tcbs.Keys
            && (forall y :: y in s.tcbs ==>
                  r.tcbs[y].joiners == s.tcbs[y].joiners && r.tcbs[y].mutexes == s.tcbs[y].mutexes)
            && (forall y :: Vivo(r, y) <==> Vivo(s, y) && y != x)
            && (forall y :: y in r.ready + r.exec <==> y in s.ready + s.exec && y != x)
            && (forall y :: y in r.blocked <==> y in s.blocked && y != x)
  {
    SinHiloEfecto(s, x);
    RemoverEfecto(s, x);
    var m, r := Remover(s, x), SinHilo(s, x);
    assert r.ready == m.ready && r.exec == m.exec && r.blocked == m.blocked;
    forall y ensures Vivo(r, y) <==> Vivo(s, y) && y != x {
      assert y in r.ready + r.exec <==> y in s.ready + s.exec && y != x;
    }
  }

  /** Now in limbo, with all its releases pending. */
  lemma EntraEnLimbo(s: State, x: HiloId)
    requires Inv0(s, Nadie, {}) && Vivo(s, x) && x in s.tcbs && Cancelable(s, x)
    ensures Inv0(SinHilo(s, x), Final(x, s.tcbs[x].mutexes, s.tcbs[x].joiners), {})
    ensures SinHilo(s, x).exit == s.exit
  {
    SinHiloEfecto(s, x);
    SinHiloListas(s, x);
    EntraEnLimboColas(s, x, SinHilo(s, x));
    EntraEnLimboAsignados(s, x, SinHilo(s, x));
    EntraEnLimboMutex(s, x, SinHilo(s, x));
  }

  lemma EntraEnLimboAsignados(s: State, x: HiloId, r: State)
    requires x in s.tcbs && Vivo(s, x) && r.tcbs.Keys == s.tcbs.Keys && |r.mutexes| == |s.mutexes| && Formado(s)
    requires forall y :: y in s.tcbs ==> r.tcbs[y].mutexes == s.tcbs[y].mutexes
    requires forall y :: Vivo(r, y) <==> Vivo(s, y) && y != x
    ensures Formado(r)
    ensures forall y :: Asignados(r, Final(x, s.tcbs[x].mutexes, s.tcbs[x].joiners), y) == Asignados(s, Nadie, y)
  {
  }

  lemma EntraEnLimboColas(s: State, x: HiloId, r: State)
    requires Inv0(s, Nadie, {}) && Vivo(s, x) && x in s.tcbs
    requires r.tcbs.Keys == s.tcbs.Keys && |r.mutexes| == |s.mutexes| && r.io == s.io && r.dumps == s.dumps
    requires forall y :: y in s.tcbs ==> r.tcbs[y].joiners == s.tcbs[y].joiners
    requires forall i: nat :: i < |s.mutexes| ==> r.mutexes[i].bloqueados == Quitar(s.mutexes[i].bloqueados, x)
    requires forall y :: Vivo(r, y) <==> Vivo(s, y) && y != x
    requires forall y :: y in r.ready + r.exec <==> y in s.ready + s.exec && y != x
    requires forall y :: y in r.blocked <==> y in s.blocked && y != x
    ensures EsperasOk(r, Final(x, s.tcbs[x].mutexes, s.tcbs[x].joiners), {})
  {
    var l := Final(x, s.tcbs[x].mutexes, s.tcbs[x].joiners);
    var e, d := ColasDe(s, Nadie), ColasDe(r, l);
    EntraEnLimboEsperas(s, x, r);
    Borrar(e, d, s.tcbs.Keys, s.ready + s.exec, s.blocked, r.ready + r.exec, r.blocked, x);
  }

  lemma EntraEnLimboEsperas(s: State, x: HiloId, r: State)
    requires Vivo(s, x) && x in s.tcbs
    requires r.tcbs.Keys == s.tcbs.Keys && |r.mutexes| == |s.mutexes| && r.io == s.io && r.dumps == s.dumps
    requires forall y :: y in s.tcbs ==> r.tcbs[y].joiners == s.tcbs[y].joiners
    requires forall i: nat :: i < |s.mutexes| ==> r.mutexes[i].bloqueados == Quitar(s.mutexes[i].bloqueados, x)
    requires forall y :: Vivo(r, y) <==> Vivo(s, y) && y != x
    ensures var e, d := ColasDe(s, Nadie), ColasDe(r, Final(x, s.tcbs[x].mutexes, s.tcbs[x].joiners));
            && (forall w: Sitio :: !w.EnMutex? ==> d(w) == e(w))
            && (forall i :: d(EnMutex(i)) == Quitar(e(EnMutex(i)), x))
  {
    var e, d := ColasDe(s, Nadie), ColasDe(r, Final(x, s.tcbs[x].mutexes, s.tcbs[x].joiners));
    forall w: Sitio | !w.EnMutex? ensures d(w) == e(w) {}
    forall i ensures d(EnMutex(i)) == Quitar(e(EnMutex(i)), x) {}
  }

  lemma EntraEnLimboMutex(s: State, x: HiloId, r: State)
    requires MutexOk(s, Nadie, None) && |r.mutexes| == |s.mutexes|
    requires x in s.tcbs
    requires forall i: nat :: i < |s.mutexes| ==>
      r.mutexes[i] == s.mutexes[i].(bloqueados := Quitar(s.mutexes[i].bloqueados, x))
    requires forall y :: Asignados(r, Final(x, s.tcbs[x].mutexes, s.tcbs[x].joiners), y) == Asignados(s, Nadie, y)
    ensures MutexOk(r, Final(x, s.tcbs[x].mutexes, s.tcbs[x].joiners), None)
  {
    var l := Final(x, s.tcbs[x].mutexes, s.tcbs[x].joiners);
    forall i: nat | i < |r.mutexes| ensures DuenoOk(r, l, None, i) && ColaOk(r.mutexes[i]) {
      assert DuenoOk(s, Nadie, None, i) && ColaOk(s.mutexes[i]);
      QuitarIncluye(s.mutexes[i].bloqueados, x);
      forall k | 0 <= k < |r.mutexes[i].bloqueados| ensures r.mutexes[i].bloqueados[k].pid == r.mutexes[i].pid {
        assert r.mutexes[i].bloqueados[k] in s.mutexes[i].bloqueados;
      }
    }
  }

  /** The loop over held mutexes: each turn takes one mutex off the pending list and may dispatch. */
  lemma {:induction false} LiberarRecursosInv(s: State, x: HiloId, ms: seq<nat>, js: seq<HiloId>)
    requires Rangos(s, ms) && Inv0(s, Final(x, ms, js), {})
    ensures Inv0(LiberarRecursos(s, ms), Final(x, [], js), {})
    decreases |ms|
  {
    if ms == [] {
      // base case
    } else {
      UnaRonda(s, x, ms, js);
      LiberarRecursosInv(Protocolo(s, ms[0]), x, ms[1..], js);
    }
  }

  lemma UnaRonda(s: State, x: HiloId, ms: seq<nat>, js: seq<HiloId>)
    requires ms != [] && Rangos(s, ms) && Inv0(s, Final(x, ms, js), {})
    ensures Inv0(Protocolo(s, ms[0]), Final(x, ms[1..], js), {})
  {
    var l, k := Final(x, ms, js), Final(x, ms[1..], js);
    var i := ms[0];
    assert Asignados(s, l, x) == ms;
    assert ms == [i] + ms[1..];
    forall y ensures Asignados(s, k, y) == if y == x then ms[1..] else Asignados(s, l, y) {}
    SueltaMutex(s, l, k, x, i);
    MismasEsperas(s, l, k);
    ProtocoloInv(s, k, i);
  }

  lemma MismasEsperas(s: State, l: Limbo, k: Limbo)
    requires EsperasOk(s, l, {}) && l.Final? && k.Final? && k.hilo == l.hilo && k.faltanJoiners == l.faltanJoiners
    ensures EsperasOk(s, k, {})
  {
    forall w ensures ColasDe(s, k)(w) == ColasDe(s, l)(w) {}
    Igual(ColasDe(s, l), ColasDe(s, k), s.tcbs.Keys, s.tcbs.Keys, s.ready + s.exec, s.ready + s.exec, s.blocked, {});
  }

  lemma SueltaMutex(s: State, l: Limbo, k: Limbo, x: HiloId, i: nat)
    requires MutexOk(s, l, None) && i < |s.mutexes|
    requires Asignados(s, l, x) != [] && Asignados(s, l, x)[0] == i
    requires forall y :: Asignados(s, k, y) == if y == x then Asignados(s, l, x)[1..] else Asignados(s, l, y)
    ensures MutexOk(s, k, Some(i))
  {
    var ms := Asignados(s, l, x);
    assert ms == [i] + ms[1..];
    assert Posee(s, x, ms[0]);
    forall y, j | 0 <= j < |Asignados(s, k, y)|
      ensures Posee(s, y, Asignados(s, k, y)[j]) && Asignados(s, k, y)[j] != i
    {
      if y == x {
        assert Asignados(s, k, y)[j] == ms[j + 1];
      } else {
        assert Posee(s, y, Asignados(s, l, y)[j]);
      }
    }
    forall y ensures SinRepetidos(Asignados(s, k, y)) { assert SinRepetidos(Asignados(s, l, y)); }
    forall j: nat | j < |s.mutexes| ensures DuenoOk(s, k, Some(i), j) && ColaOk(s.mutexes[j]) {
      assert DuenoOk(s, l, None, j) && ColaOk(s.mutexes[j]);
    }
  }

  /** The loop over joiners. An entry may be of a thread that was ended meanwhile: then the turn does nothing. */
  lemma {:induction false} LiberarJoinInv(s: State, x: HiloId, js: seq<HiloId>)
    requires Inv0(s, Final(x, [], js), {})
    ensures Inv0(LiberarJoin(s, js), Final(x, [], []), {}) && LiberarJoin(s, js).exit == s.exit
    decreases |js|
  {
    if js == [] {
      // base case
    } else {
      var l, k := Final(x, [], js), Final(x, [], js[1..]);
      var e, d := ColasDe(s, l), ColasDe(s, k);
      forall w | w != EnJoin(x) ensures d(w) == e(w) {}
      Sacar(e, d, EnJoin(x), s.tcbs.Keys, s.ready + s.exec, s.blocked);
      forall y ensures Asignados(s, k, y) == Asignados(s, l, y) {}
      MutexIguales(s, s, l, k, None);
      DesbloquearInv(s, k, js[0]);
      var s1 := Desbloquear(s, js[0]);
      forall y ensures Asignados(s1, k, y) == Asignados(s, k, y) {}
      MutexIguales(s, s1, k, k, None);
      LiberarJoinInv(s1, x, js[1..]);
    }
  }

  lemma FinalizarInv(s: State, x: HiloId)
    requires Inv0(s, Nadie, {}) && Cancelable(s, x)
    ensures Inv0(FinalizarHilo(s, x), Nadie, {})
    ensures Ocupado(s) || Vivo(s, x) ==> Ocupado(FinalizarHilo(s, x))
    ensures Vivo(s, x) ==> x in FinalizarHilo(s, x).exit
  {
    if Vivo(s, x) {
      var ms, js := s.tcbs[x].mutexes, s.tcbs[x].joiners;
      EntraEnLimbo(s, x);
      var s1 := SinHilo(s, x);
      LiberarRecursosInv(s1, x, ms, js);
      var s2 := LiberarRecursos(s1, ms);
      LiberarRecursosExit(s1, ms, x);
      SaleDelLimbo(s2, x, js);
      var s3 := LiberarJoin(s2.(exit := s2.exit + [x]), js);
      PlanificarInv(s3, Nadie, {});
      PlanificarMueve(s3, Nadie);
      assert FinalizarHilo(s, x) == Planificar(s3);
    }
  }

  lemma {:induction false} LiberarRecursosExit(s: State, ms: seq<nat>, x: HiloId)
    requires Rangos(s, ms)
    ensures LiberarRecursos(s, ms).exit == s.exit
    decreases |ms|
  {
    if ms == [] {
      // base case
    } else {
      LiberarRecursosExit(Protocolo(s, ms[0]), ms[1..], x);
    }
  }

  lemma SaleDelLimbo(s: State, x: HiloId, js: seq<HiloId>)
    requires Inv0(s, Final(x, [], js), {}) && x !in s.exit
    ensures Inv0(LiberarJoin(s.(exit := s.exit + [x]), js), Nadie, {})
    ensures x in LiberarJoin(s.(exit := s.exit + [x]), js).exit
  {
    var l := Final(x, [], js);
    var m := s.(exit := s.exit + [x]);
    assert MismosDatos(s, m);
    assert ListasOk(m, l);
    DatosIguales(s, m, l, {});
    LiberarJoinInv(m, x, js);
    assert x in LiberarJoin(m, js).exit;
    LimboVacio(LiberarJoin(m, js), x);
  }

  /** With nothing left to release the ended thread is like any other in EXIT. */
  lemma LimboVacio(r: State, x: HiloId)
    requires Inv0(r, Final(x, [], []), {}) && x in r.exit
    ensures Inv0(r, Nadie, {})
  {
    var k := Final(x, [], []);
    forall y ensures Asignados(r, Nadie, y) == Asignados(r, k, y) {}
    MutexIguales(r, r, k, Nadie, None);
    forall w ensures ColasDe(r, Nadie)(w) == ColasDe(r, k)(w) {}
    Igual(ColasDe(r, k), ColasDe(r, Nadie), r.tcbs.Keys, r.tcbs.Keys, r.ready + r.exec, r.ready + r.exec, r.blocked, {});
  }

  // ---- The handlers ----

  lemma CrearInv(s: State, pid: int, p: int, f: bool)
    requires Inv0(s, Nadie, {}) && Ocupado(s) && pid in s.siguienteTid
    ensures Inv(CrearTcb(s, pid, p, f))
  {
    var x := HiloId(pid, s.siguienteTid[pid]);
    TidLibre(s, pid);
    var m := HiloNuevo(s, pid, p, f);
    HiloNuevoInv(s, m, x);
    PlanificarInv(m, Nadie, {});
  }

  lemma TidLibre(s: State, pid: int)
    requires ListasOk(s, Nadie) && pid in s.siguienteTid
    ensures HiloId(pid, s.siguienteTid[pid]) !in s.tcbs
  {
  }

  /** A thread nobody knew, READY with empty lists. */
  lemma HiloNuevoInv(s: State, m: State, x: HiloId)
    requires Inv0(s, Nadie, {}) && x !in s.tcbs && m.tcbs.Keys == s.tcbs.Keys + {x}
    requires m == s.(tcbs := m.tcbs, siguienteTid := m.siguienteTid, ready := s.ready + [x])
    requires m.tcbs[x].joiners == [] && m.tcbs[x].mutexes == [] && forall y :: y in s.tcbs ==> m.tcbs[y] == s.tcbs[y]
    requires forall y :: y in m.tcbs ==> y.pid in m.siguienteTid && y.tid < m.siguienteTid[y.pid]
    ensures Inv0(m, Nadie, {})
  {
    HiloNuevoListas(s, m, x);
    forall w ensures ColasDe(m, Nadie)(w) == ColasDe(s, Nadie)(w) {}
    Igual(ColasDe(s, Nadie), ColasDe(m, Nadie), s.tcbs.Keys, m.tcbs.Keys, s.ready + s.exec, m.ready + m.exec, s.blocked, {});
    forall y ensures Asignados(m, Nadie, y) == Asignados(s, Nadie, y) {}
    MutexIguales(s, m, Nadie, Nadie, None);
  }

  lemma HiloNuevoListas(s: State, m: State, x: HiloId)
    requires ListasOk(s, Nadie) && x !in s.tcbs && m.tcbs.Keys == s.tcbs.Keys + {x}
    requires m == s.(tcbs := m.tcbs, siguienteTid := m.siguienteTid, ready := s.ready + [x])
    requires forall y :: y in m.tcbs ==> y.pid in m.siguienteTid && y.tid < m.siguienteTid[y.pid]
    ensures ListasOk(m, Nadie)
  {
    assert !Vivo(s, x) && x !in s.exit;
    AgregarSinRepetidos(s.ready, x);
  }

  lemma JoinInv(s: State, x: HiloId, u: HiloId)
    requires Inv(s) && x in s.exec
    ensures Inv(Join(s, x, u))
  {
    if Vivo(s, u) && u in s.tcbs {
      BloquearInv(s, x);
      var s1 := BloquearEnEjecucion(s, x);
      JoinPone(s1, x, u);
    }
  }

  lemma JoinPone(s: State, x: HiloId, u: HiloId)
    requires Inv0(s, Nadie, {x}) && Ocupado(s) && x in s.blocked && x !in s.ready && x !in s.exec
    requires u in s.tcbs && Vivo(s, u)
    ensures Inv(s.(tcbs := s.tcbs[u := s.tcbs[u].(joiners := s.tcbs[u].joiners + [x])]))
  {
    var r := s.(tcbs := s.tcbs[u := s.tcbs[u].(joiners := s.tcbs[u].joiners + [x])]);
    forall w | w != EnJoin(u) ensures ColasDe(r, Nadie)(w) == ColasDe(s, Nadie)(w) {}
    PonerInv(s, r, EnJoin(u), x);
  }

  lemma LockPone(s: State, x: HiloId, i: nat)
    requires Inv0(s, Nadie, {x}) && Ocupado(s) && x in s.blocked && x !in s.ready && x !in s.exec
    requires i < |s.mutexes| && s.mutexes[i].dueno.Some? && s.mutexes[i].pid == x.pid
    ensures Inv(Encolar(s, i, x))
  {
    var r := Encolar(s, i, x);
    forall w | w != EnMutex(i) ensures ColasDe(r, Nadie)(w) == ColasDe(s, Nadie)(w) {}
    PonerInv(s, r, EnMutex(i), x);
  }

  lemma ColaPone(s: State, x: HiloId)
    requires Inv0(s, Nadie, {x}) && Ocupado(s) && x in s.blocked && x !in s.ready && x !in s.exec
    ensures Inv(s.(dumps := s.dumps + [x])) && Inv(s.(io := s.io + [x]))
  {
    var r, q := s.(dumps := s.dumps + [x]), s.(io := s.io + [x]);
    forall w | w != EnDump ensures ColasDe(r, Nadie)(w) == ColasDe(s, Nadie)(w) {}
    PonerInv(s, r, EnDump, x);
    forall w | w != EnIo ensures ColasDe(q, Nadie)(w) == ColasDe(s, Nadie)(w) {}
    PonerInv(s, q, EnIo, x);
  }

  /** The blocked thread is put at the end of one queue; nothing else changes. */
  lemma PonerInv(s: State, r: State, w: Sitio, x: HiloId)
    requires Inv0(s, Nadie, {x}) && Ocupado(s) && x in s.blocked && x !in s.ready && x !in s.exec
    requires MismasListas(s, r) && |r.mutexes| == |s.mutexes|
    requires forall y :: y in s.tcbs ==> r.tcbs[y].mutexes == s.tcbs[y].mutexes
    requires forall i: nat :: i < |s.mutexes| ==>
      r.mutexes[i] == s.mutexes[i]
      || (r.mutexes[i] == s.mutexes[i].(bloqueados := s.mutexes[i].bloqueados + [x])
          && s.mutexes[i].dueno.Some? && s.mutexes[i].pid == x.pid)
    requires ColasDe(r, Nadie)(w) == ColasDe(s, Nadie)(w) + [x]
    requires forall v :: v != w ==> ColasDe(r, Nadie)(v) == ColasDe(s, Nadie)(v)
    ensures Inv(r)
  {
    Poner(ColasDe(s, Nadie), ColasDe(r, Nadie), w, s.tcbs.Keys, s.ready + s.exec, s.blocked, x);
    PonerAsignados(s, r);
    PonerMutex(s, r, x);
  }

  lemma PonerAsignados(s: State, r: State)
    requires Formado(s) && ListasOk(s, Nadie) && MismasListas(s, r) && |r.mutexes| == |s.mutexes|
    requires forall y :: y in s.tcbs ==> r.tcbs[y].mutexes == s.tcbs[y].mutexes
    ensures Formado(r) && ListasOk(r, Nadie) && forall y :: Asignados(r, Nadie, y) == Asignados(s, Nadie, y)
  {
    forall y ensures Asignados(r, Nadie, y) == Asignados(s, Nadie, y) {}
  }

  lemma PonerMutex(s: State, r: State, x: HiloId)
    requires MutexOk(s, Nadie, None) && |r.mutexes| == |s.mutexes|
    requires forall y :: Asignados(r, Nadie, y) == Asignados(s, Nadie, y)
    requires forall i: nat :: i < |s.mutexes| ==>
      r.mutexes[i] == s.mutexes[i]
      || (r.mutexes[i] == s.mutexes[i].(bloqueados := s.mutexes[i].bloqueados + [x])
          && s.mutexes[i].dueno.Some? && s.mutexes[i].pid == x.pid)
    ensures MutexOk(r, Nadie, None)
  {
    forall i: nat | i < |r.mutexes| ensures DuenoOk(r, Nadie, None, i) && ColaOk(r.mutexes[i]) {
      assert DuenoOk(s, Nadie, None, i) && ColaOk(s.mutexes[i]);
    }
    forall y, k | 0 <= k < |Asignados(r, Nadie, y)| ensures Posee(r, y, Asignados(r, Nadie, y)[k]) {
      assert Posee(s, y, Asignados(s, Nadie, y)[k]);
    }
  }

  lemma LockInv(s: State, x: HiloId, n: string)
    requires Inv(s) && x in s.exec
    ensures Inv(Lock(s, x, n))
  {
    match Buscar(s.mutexes, x.pid, n)
    case None =>
      EnEjecucionCancelable(s, x);
      FinalizarInv(s, x);
    case Some(i) =>
      if s.mutexes[i].dueno.Some? {
        BloquearInv(s, x);
        LockPone(BloquearEnEjecucion(s, x), x, i);
      } else {
        LockToma(s, x, i);
      }
  }

  lemma LockToma(s: State, x: HiloId, i: nat)
    requires Inv(s) && x in s.exec && i < |s.mutexes| && s.mutexes[i].dueno.None?
    requires s.mutexes[i].pid == x.pid && Primero(s.mutexes, i)
    ensures Inv(ConDueno(Asignar(s, i, x), i, Some(x)))
  {
    AsignarInv(s, Nadie, i, x);
    TomarMutex(s, ConDueno(Asignar(s, i, x), i, Some(x)), i, x);
  }

  lemma TomarMutex(s: State, r: State, i: nat, x: HiloId)
    requires MutexOk(s, Nadie, None) && i < |s.mutexes| == |r.mutexes| && s.mutexes[i].dueno.None?
    requires s.mutexes[i].pid == x.pid && Primero(s.mutexes, i)
    requires forall j :: 0 <= j < |s.mutexes| && j != i ==> r.mutexes[j] == s.mutexes[j]
    requires r.mutexes[i] == s.mutexes[i].(dueno := Some(x))
    requires forall y :: Asignados(r, Nadie, y) == (if y == x then Asignados(s, Nadie, x) + [i] else Asignados(s, Nadie, y))
    ensures MutexOk(r, Nadie, None)
  {
    assert DuenoOk(s, Nadie, None, i) && ColaOk(s.mutexes[i]);
    forall y ensures SinRepetidos(Asignados(r, Nadie, y)) {
      assert SinRepetidos(Asignados(s, Nadie, y));
      forall k | 0 <= k < |Asignados(s, Nadie, y)| ensures Asignados(s, Nadie, y)[k] != i {
        assert Posee(s, y, Asignados(s, Nadie, y)[k]);
      }
      assert i !in Asignados(s, Nadie, y);
    }
    forall y, k | 0 <= k < |Asignados(r, Nadie, y)| ensures Posee(r, y, Asignados(r, Nadie, y)[k]) {
      if k < |Asignados(s, Nadie, y)| { assert Posee(s, y, Asignados(s, Nadie, y)[k]); }
    }
    forall j: nat | j < |r.mutexes| ensures DuenoOk(r, Nadie, None, j) && ColaOk(r.mutexes[j]) {
      assert DuenoOk(s, Nadie, None, j) && ColaOk(s.mutexes[j]);
    }
  }

  lemma EnEjecucionCancelable(s: State, x: HiloId)
    requires EsperasOk(s, Nadie, {}) && x in s.exec
    ensures Cancelable(s, x)
  {
    forall i: nat | i < |s.mutexes| ensures x !in s.mutexes[i].bloqueados {
      assert !Esta(ColasDe(s, Nadie), x, EnMutex(i));
    }
  }

  /** Removal by name takes out exactly the mutex meant: of each name only the first mutex is ever held. */
  lemma {:induction false} QuitarPorNombreEsQuitar(ms: seq<Mutex>, xs: seq<nat>, pid: int, i: nat)
    requires forall k :: 0 <= k < |xs| ==> xs[k] < |ms| && ms[xs[k]].pid == pid && Primero(ms, xs[k])
    requires i < |ms| && ms[i].pid == pid && Primero(ms, i)
    ensures QuitarPorNombre(ms, xs, ms[i].nombre) == Quitar(xs, i)
  {
    if xs == [] {
      // base case
    } else {
      QuitarPorNombreEsQuitar(ms, xs[1..], pid, i);
    }
  }

  lemma UnlockInv(s: State, x: HiloId, n: string)
    requires Inv(s) && x in s.exec
    ensures Inv(Unlock(s, x, n))
  {
    EnEjecucionCancelable(s, x);
    match Buscar(s.mutexes, x.pid, n)
    case None => FinalizarInv(s, x);
    case Some(i) =>
      if s.mutexes[i].dueno == Some(x) { LiberacionInv(s, x, i); }
  }

  lemma LiberacionInv(s: State, x: HiloId, i: nat)
    requires Inv(s) && x in s.exec && i < |s.mutexes| && s.mutexes[i].dueno == Some(x)
    ensures Inv(Liberacion(s, i, x))
    ensures QuitarPorNombre(s.mutexes, s.tcbs[x].mutexes, s.mutexes[i].nombre) == Quitar(s.tcbs[x].mutexes, i)
  {
    LiberacionPorNombre(s, x, i);
    LiberacionSuelta(s, x, i);
    ProtocoloInv(s.(tcbs := s.tcbs[x := s.tcbs[x].(mutexes := Quitar(s.tcbs[x].mutexes, i))]), Nadie, i);
  }

  lemma LiberacionPorNombre(s: State, x: HiloId, i: nat)
    requires Inv(s) && x in s.exec && i < |s.mutexes| && s.mutexes[i].dueno == Some(x)
    ensures QuitarPorNombre(s.mutexes, s.tcbs[x].mutexes, s.mutexes[i].nombre) == Quitar(s.tcbs[x].mutexes, i)
  {
    var ms := s.tcbs[x].mutexes;
    assert Asignados(s, Nadie, x) == ms;
    assert DuenoOk(s, Nadie, None, i);
    forall k | 0 <= k < |ms| ensures ms[k] < |s.mutexes| && s.mutexes[ms[k]].pid == x.pid && Primero(s.mutexes, ms[k]) {
      assert Posee(s, x, Asignados(s, Nadie, x)[k]);
      assert DuenoOk(s, Nadie, None, ms[k]);
    }
    QuitarPorNombreEsQuitar(s.mutexes, ms, x.pid, i);
  }

  lemma LiberacionSuelta(s: State, x: HiloId, i: nat)
    requires Inv(s) && x in s.exec && i < |s.mutexes| && s.mutexes[i].dueno == Some(x)
    ensures var m := s.(tcbs := s.tcbs[x := s.tcbs[x].(mutexes := Quitar(s.tcbs[x].mutexes, i))]);
            Formado(m) && ListasOk(m, Nadie) && MutexOk(m, Nadie, Some(i)) && EsperasOk(m, Nadie, {}) && Ocupado(m)
  {
    var ms := s.tcbs[x].mutexes;
    var m := s.(tcbs := s.tcbs[x := s.tcbs[x].(mutexes := Quitar(ms, i))]);
    LiberacionMutex(s, m, x, i);
    LiberacionColas(s, m, x);
    QuitarRangos(s, ms, i);
  }

  lemma LiberacionColas(s: State, m: State, x: HiloId)
    requires ListasOk(s, Nadie) && EsperasOk(s, Nadie, {}) && x in s.tcbs && x in m.tcbs
    requires m == s.(tcbs := s.tcbs[x := s.tcbs[x].(mutexes := m.tcbs[x].mutexes)])
    ensures ListasOk(m, Nadie) && EsperasOk(m, Nadie, {})
  {
    forall w ensures ColasDe(m, Nadie)(w) == ColasDe(s, Nadie)(w) {}
    Igual(ColasDe(s, Nadie), ColasDe(m, Nadie), s.tcbs.Keys, m.tcbs.Keys, s.ready + s.exec, m.ready + m.exec, s.blocked, {});
  }

  lemma LiberacionMutex(s: State, m: State, x: HiloId, i: nat)
    requires MutexOk(s, Nadie, None) && x in s.exec && x in s.tcbs
    requires i < |s.mutexes| && s.mutexes[i].dueno == Some(x)
    requires m == s.(tcbs := s.tcbs[x := s.tcbs[x].(mutexes := Quitar(s.tcbs[x].mutexes, i))])
    ensures MutexOk(m, Nadie, Some(i))
  {
    assert Asignados(s, Nadie, x) == s.tcbs[x].mutexes;
    forall y ensures Asignados(m, Nadie, y) ==
      (if y == x then Quitar(Asignados(s, Nadie, x), i) else Asignados(s, Nadie, y)) {}
    SueltaPropio(s, m, x, i);
  }

  lemma QuitarRangos(s: State, ms: seq<nat>, i: nat)
    requires Rangos(s, ms)
    ensures Rangos(s, Quitar(ms, i))
  {
    QuitarIncluye(ms, i);
    var q := Quitar(ms, i);
    forall k | 0 <= k < |q| ensures q[k] < |s.mutexes| {
      assert q[k] in ms;
    }
  }

  lemma SueltaPropio(s: State, m: State, x: HiloId, i: nat)
    requires MutexOk(s, Nadie, None) && m.mutexes == s.mutexes && i < |s.mutexes| && s.mutexes[i].dueno == Some(x)
    requires forall y :: Asignados(m, Nadie, y) == (if y == x then Quitar(Asignados(s, Nadie, x), i) else Asignados(s, Nadie, y))
    ensures MutexOk(m, Nadie, Some(i))
  {
    var ms := Asignados(s, Nadie, x);
    assert SinRepetidos(ms);
    QuitarMiembros(ms, i);
    forall y ensures SinRepetidos(Asignados(m, Nadie, y)) { assert SinRepetidos(Asignados(s, Nadie, y)); }
    forall y, k | 0 <= k < |Asignados(m, Nadie, y)|
      ensures Posee(m, y, Asignados(m, Nadie, y)[k]) && Asignados(m, Nadie, y)[k] != i
    {
      var j := Asignados(m, Nadie, y)[k];
      assert j in Asignados(m, Nadie, y);
      assert j in Asignados(s, Nadie, y);
      var q :| 0 <= q < |Asignados(s, Nadie, y)| && Asignados(s, Nadie, y)[q] == j;
      assert Posee(s, y, Asignados(s, Nadie, y)[q]);
    }
    forall j: nat | j < |m.mutexes| ensures DuenoOk(m, Nadie, Some(i), j) && ColaOk(m.mutexes[j]) {
      assert DuenoOk(s, Nadie, None, j) && ColaOk(s.mutexes[j]);
    }
  }

  lemma CrearMutexInv(s: State, pid: int, n: string)
    requires Inv(s)
    ensures Inv(s.(mutexes := s.mutexes + [Mutex(pid, n, None, [])]))
  {
    var r := s.(mutexes := s.mutexes + [Mutex(pid, n, None, [])]);
    forall w ensures ColasDe(r, Nadie)(w) == ColasDe(s, Nadie)(w) {}
    Igual(ColasDe(s, Nadie), ColasDe(r, Nadie), s.tcbs.Keys, r.tcbs.Keys, s.ready + s.exec, r.ready + r.exec, s.blocked, {});
    forall y ensures Asignados(r, Nadie, y) == Asignados(s, Nadie, y) {}
    UnMutexMas(s, r, pid, n);
  }

  lemma UnMutexMas(s: State, r: State, pid: int, n: string)
    requires MutexOk(s, Nadie, None) && r.mutexes == s.mutexes + [Mutex(pid, n, None, [])]
    requires forall y :: Asignados(r, Nadie, y) == Asignados(s, Nadie, y)
    ensures MutexOk(r, Nadie, None)
  {
    forall y, k | 0 <= k < |Asignados(r, Nadie, y)| ensures Posee(r, y, Asignados(r, Nadie, y)[k]) {
      assert Posee(s, y, Asignados(s, Nadie, y)[k]);
    }
    forall j: nat | j < |r.mutexes| ensures DuenoOk(r, Nadie, None, j) && ColaOk(r.mutexes[j]) {
      if j < |s.mutexes| { assert DuenoOk(s, Nadie, None, j) && ColaOk(s.mutexes[j]); }
    }
  }

  lemma DumpInv(s: State, x: HiloId)
    requires Inv(s) && x in s.exec
    ensures Inv(PideDump(s, x))
  {
    BloquearInv(s, x);
    var s1 := BloquearEnEjecucion(s, x);
    ColaPone(s1, x);
    PlanificarInv(s1.(dumps := s1.dumps + [x]), Nadie, {});
  }

  /** The dispatcher does not look at the IO queue, so the IO handler may as well block the thread first. */
  lemma PlanificarIo(a: State, q: seq<HiloId>)
    ensures Planificar(a.(io := q)) == Planificar(a).(io := q)
  {
    if a.ready != [] && !a.algoritmo.FIFO? {
      MaximaPrioridadDepende(a, a.(io := q), a.ready[0], a.ready[1..]);
    }
  }

  lemma IoConmuta(s: State, x: HiloId)
    requires x in s.exec
    ensures var s1 := BloquearEnEjecucion(s, x);
            s1.io == s.io && BloquearEnEjecucion(s.(io := s.io + [x]), x) == s1.(io := s1.io + [x])
  {
    var a := ConFlag(s.(exec := Quitar(s.exec, x), blocked := s.blocked + [x]), x);
    PlanificarIo(a, s.io + [x]);
    PlanificarIo(a, s.io);
    assert a.(io := s.io) == a;
  }

  lemma {:induction false} MaximaPrioridadDepende(a: State, b: State, m: HiloId, xs: seq<HiloId>)
    requires forall y :: Prioridad(a, y) == Prioridad(b, y)
    ensures MaximaPrioridad(a, m, xs) == MaximaPrioridad(b, m, xs)
    decreases |xs|
  {
    if xs == [] {
      // base case
    } else {
      MaximaPrioridadDepende(a, b, if Prioridad(a, m) <= Prioridad(a, xs[0]) then m else xs[0], xs[1..]);
    }
  }

  lemma IoInv(s: State, x: HiloId)
    requires Inv(s) && x in s.exec
    ensures Inv(PideIo(s, x))
  {
    BloquearInv(s, x);
    IoConmuta(s, x);
    ColaPone(BloquearEnEjecucion(s, x), x);
  }

  lemma FinIoInv(s: State)
    requires Inv(s)
    ensures Inv(AtenderFinIo(s))
  {
    if s.io != [] {
      var m := s.(io := s.io[1..]);
      forall w | w != EnIo ensures ColasDe(m, Nadie)(w) == ColasDe(s, Nadie)(w) {}
      Sacar(ColasDe(s, Nadie), ColasDe(m, Nadie), EnIo, s.tcbs.Keys, s.ready + s.exec, s.blocked);
      DespiertaInv(s, m, s.io[0]);
      PlanificarInv(Desbloquear(m, s.io[0]), Nadie, {});
    }
  }

  lemma DespiertaInv(s: State, m: State, h: HiloId)
    requires Inv(s) && MismasListas(s, m) && m.tcbs == s.tcbs && m.mutexes == s.mutexes && EsperasOk(m, Nadie, {h})
    ensures Inv(Desbloquear(m, h))
  {
    DesbloquearInv(m, Nadie, h);
    var r := Desbloquear(m, h);
    forall y ensures Asignados(r, Nadie, y) == Asignados(s, Nadie, y) {}
    MutexIguales(s, r, Nadie, Nadie, None);
  }

  lemma FinDumpInv(s: State, x: HiloId)
    requires Inv(s) && x in s.dumps
    ensures Inv(Desbloquear(s.(dumps := Quitar(s.dumps, x)), x))
  {
    var m := s.(dumps := Quitar(s.dumps, x));
    var e, d := ColasDe(s, Nadie), ColasDe(m, Nadie);
    assert SinRepetidos(e(EnDump));
    QuitarMiembros(s.dumps, x);
    forall w | w != EnDump ensures d(w) == e(w) {}
    SacarCualquiera(e, d, EnDump, s.tcbs.Keys, s.ready + s.exec, s.blocked, x);
    DespiertaInv(s, m, x);
  }

  lemma DesalojaInv(s: State, x: HiloId)
    requires Inv(s) && x in s.exec
    ensures Inv(Paso(s, Desaloja(x)))
  {
    assert s.exec == [x];
    assert Quitar(s.exec, x) == [];
    var c := ConFlag(s, x);
    var m := c.(exec := [], ready := c.ready + [x]);
    DesalojaListas(s, m, x);
    DatosIguales(s, m, Nadie, {});
    PlanificarInv(m, Nadie, {});
    assert Paso(s, Desaloja(x)) == Planificar(m);
  }

  lemma DesalojaListas(s: State, m: State, x: HiloId)
    requires ListasOk(s, Nadie) && s.exec == [x]
    requires m == ConFlag(s, x).(exec := [], ready := s.ready + [x])
    ensures ListasOk(m, Nadie) && MismosDatos(s, m)
    ensures forall y :: Vivo(m, y) <==> Vivo(s, y)
    ensures forall y :: y in m.ready || y in m.exec <==> y in s.ready || y in s.exec
  {
    AgregarSinRepetidos(s.ready, x);
  }

  // ---- Who can be BLOCKED ----

  lemma PlanificarBlocked(m: State, t: HiloId)
    requires t !in m.blocked && t in m.tcbs
    ensures t !in Planificar(m).blocked && t in Planificar(m).tcbs
  {
  }

  lemma DesbloquearBlocked(m: State, x: HiloId, t: HiloId)
    requires t !in m.blocked && t in m.tcbs
    ensures t !in Desbloquear(m, x).blocked && t in Desbloquear(m, x).tcbs
  {
    if x in m.blocked { QuitarIncluye(m.blocked, x); }
  }

  lemma {:induction false} LiberarRecursosBlocked(m: State, ms: seq<nat>, t: HiloId)
    requires Rangos(m, ms) && t !in m.blocked && t in m.tcbs
    ensures t !in LiberarRecursos(m, ms).blocked && t in LiberarRecursos(m, ms).tcbs
    decreases |ms|
  {
    if ms == [] {
      // base case
    } else {
      ProtocoloBlocked(m, ms[0], t);
      LiberarRecursosBlocked(Protocolo(m, ms[0]), ms[1..], t);
    }
  }

  lemma ProtocoloBlocked(m: State, i: nat, t: HiloId)
    requires i < |m.mutexes| && t !in m.blocked && t in m.tcbs
    ensures t !in Protocolo(m, i).blocked && t in Protocolo(m, i).tcbs
  {
    var u := m.mutexes[i];
    if u.bloqueados != [] {
      DesbloquearBlocked(m.(mutexes := m.mutexes[i := u.(bloqueados := u.bloqueados[1..])]), u.bloqueados[0], t);
    }
  }

  lemma {:induction false} LiberarJoinBlocked(m: State, js: seq<HiloId>, t: HiloId)
    requires t !in m.blocked && t in m.tcbs
    ensures t !in LiberarJoin(m, js).blocked && t in LiberarJoin(m, js).tcbs
    decreases |js|
  {
    if js == [] {
      // base case
    } else {
      DesbloquearBlocked(m, js[0], t);
      LiberarJoinBlocked(Desbloquear(m, js[0]), js[1..], t);
    }
  }

  // ---- Runs ----

  /** The one guard: a thread ended from outside waits on no mutex that another thread holds. */
  predicate Guarda(s: State, op: Op) {
    match op
    case Pide(x, ThreadCancel(tid)) => x in s.exec ==> Cancelable(s, HiloId(x.pid, tid))
    case Termina(x) => Cancelable(s, x)
    case _ => true
  }

  /** Any message, from any state that satisfies the invariant. */
  lemma PasoInv(s: State, op: Op)
    requires Inv(s) && Guarda(s, op)
    ensures Inv(Paso(s, op))
  {
    match op
    case Pide(x, sys) => if x in s.exec { AtenderInv(s, x, sys); }
    case Desaloja(x) => if x in s.exec { DesalojaInv(s, x); }
    case FinIo => FinIoInv(s);
    case FinDump(x) => if x in s.dumps { FinDumpInv(s, x); }
    case NuevoProceso(pid, p, f) =>
      if pid !in s.siguienteTid {
        var m := s.(siguienteTid := s.siguienteTid[pid := 0]);
        NuevoPidInv(s, m);
        CrearInv(m, pid, p, f);
      }
    case Termina(x) => FinalizarInv(s, x);
    case Vence(t) => SinTimerInv(s, s.(timers := s.timers - {t}));
  }

  lemma NuevoPidInv(s: State, m: State)
    requires Inv(s) && m == s.(siguienteTid := m.siguienteTid)
    requires forall p :: p in s.siguienteTid ==> p in m.siguienteTid && m.siguienteTid[p] == s.siguienteTid[p]
    ensures Inv(m)
  {
    forall w ensures ColasDe(m, Nadie)(w) == ColasDe(s, Nadie)(w) {}
    Igual(ColasDe(s, Nadie), ColasDe(m, Nadie), s.tcbs.Keys, m.tcbs.Keys, s.ready + s.exec, m.ready + m.exec, s.blocked, {});
    forall y ensures Asignados(m, Nadie, y) == Asignados(s, Nadie, y) {}
    MutexIguales(s, m, Nadie, Nadie, None);
  }

  lemma SinTimerInv(s: State, m: State)
    requires Inv(s) && m == s.(timers := m.timers)
    ensures Inv(m)
  {
    assert MismosDatos(s, m);
    DatosIguales(s, m, Nadie, {});
  }

  lemma AtenderInv(s: State, x: HiloId, sys: Syscall)
    requires Inv(s) && x in s.exec && Guarda(s, Pide(x, sys))
    ensures Inv(Atender(ConFlag(s, x), x, sys))
  {
    var c := ConFlag(s, x);
    FlagInv(s, x, Nadie, {});
    match sys
    case ThreadCreate(_, _) => AtenderHiloInv(c, x, sys);
    case ThreadCancel(_) => AtenderHiloInv(c, x, sys);
    case ThreadExit => AtenderHiloInv(c, x, sys);
    case MutexCreate(_) => AtenderMutexInv(c, x, sys);
    case MutexLock(_) => AtenderMutexInv(c, x, sys);
    case MutexUnlock(_) => AtenderMutexInv(c, x, sys);
    case ThreadJoin(_) => AtenderEsperaInv(c, x, sys);
    case DumpMemory => AtenderEsperaInv(c, x, sys);
    case IO => AtenderEsperaInv(c, x, sys);
    case Proceso => assert Atender(c, x, sys) == c;
  }

  /** The calls that begin and end threads. */
  lemma AtenderHiloInv(c: State, x: HiloId, sys: Syscall)
    requires Inv(c) && x in c.exec && (sys.ThreadCreate? || sys.ThreadCancel? || sys.ThreadExit?)
    requires sys.ThreadCancel? ==> Cancelable(c, HiloId(x.pid, sys.tid))
    ensures Inv(Atender(c, x, sys))
  {
    match sys
    case ThreadCreate(p, f) => if x.pid in c.siguienteTid { CrearInv(c, x.pid, p, f); }
    case ThreadCancel(tid) => FinalizarInv(c, HiloId(x.pid, tid));
    case ThreadExit => EnEjecucionCancelable(c, x); FinalizarInv(c, x);
  }

  lemma AtenderMutexInv(c: State, x: HiloId, sys: Syscall)
    requires Inv(c) && x in c.exec && (sys.MutexCreate? || sys.MutexLock? || sys.MutexUnlock?)
    ensures Inv(Atender(c, x, sys))
  {
    match sys
    case MutexCreate(n) => CrearMutexInv(c, x.pid, n);
    case MutexLock(n) =>
      LockInv(c, x, n);
      AtenderLockEs(c, x, n);
    case MutexUnlock(n) =>
      UnlockInv(c, x, n);
      AtenderUnlockEs(c, x, n);
  }

  /** The calls that block the caller. */
  lemma AtenderEsperaInv(c: State, x: HiloId, sys: Syscall)
    requires Inv(c) && x in c.exec && (sys.ThreadJoin? || sys.DumpMemory? || sys.IO?)
    ensures Inv(Atender(c, x, sys))
  {
    match sys
    case ThreadJoin(tid) =>
      JoinInv(c, x, HiloId(x.pid, tid));
      AtenderJoinEs(c, x, tid);
    case DumpMemory =>
      DumpInv(c, x);
      AtenderDumpEs(c, x);
    case IO =>
      IoInv(c, x);
      AtenderIoEs(c, x);
  }

  lemma AtenderJoinEs(c: State, x: HiloId, tid: int)
    requires Formado(c)
    ensures Atender(c, x, ThreadJoin(tid)) == Join(c, x, HiloId(x.pid, tid))
  {
  }

  lemma AtenderDumpEs(c: State, x: HiloId)
    requires Formado(c)
    ensures Atender(c, x, DumpMemory) == PideDump(c, x)
  {
  }

  lemma AtenderIoEs(c: State, x: HiloId)
    requires Formado(c)
    ensures Atender(c, x, IO) == PideIo(c, x)
  {
  }

  lemma AtenderLockEs(c: State, x: HiloId, n: string)
    requires Formado(c)
    ensures Atender(c, x, MutexLock(n)) == Lock(c, x, n)
  {
  }

  lemma AtenderUnlockEs(c: State, x: HiloId, n: string)
    requires Formado(c)
    ensures Atender(c, x, MutexUnlock(n)) == Unlock(c, x, n)
  {
  }

  function Correr(s: State, ops: seq<Op>): (r: Option<State>)
    decreases |ops|
  {
    if ops == [] then Some(s)
    else if Formado(s) && Guarda(s, ops[0]) then Correr(Paso(s, ops[0]), ops[1..])
    else None
  }

  lemma InicialInv(a: Algoritmo)
    ensures Inv(Inicial(a))
  {
    forall w ensures ColasDe(Inicial(a), Nadie)(w) == [] {}
  }

  lemma {:induction false} CorrerInv(s: State, ops: seq<Op>)
    requires Inv(s)
    ensures Correr(s, ops).Some? ==> Inv(Correr(s, ops).value)
    decreases |ops|
  {
    if ops == [] {
      // base case
    } else if Guarda(s, ops[0]) {
      PasoInv(s, ops[0]);
      CorrerInv(Paso(s, ops[0]), ops[1..]);
    }
  }
}
