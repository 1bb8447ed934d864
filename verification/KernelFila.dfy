/** The order in which the end of a thread wakes the others: the CPU and READY taken as one line. */
module KernelFila {
  import opened Listas
  import opened KernelEstado
  import opened Reparto
  import opened KernelInvariante
  import opened KernelPasos
  import opened KernelTeoremas
  import opened KernelEfectos

  function Fila(s: State): seq<HiloId> {
    s.exec + s.ready
  }

  /** Under FIFO a dispatch does not change the line; while somebody runs there is no dispatch. */
  predicate EnFila(s: State) {
    s.algoritmo.FIFO? || s.exec != []
  }

  /** Those of hs that are blocked, in the order of hs. */
  function Presentes(hs: seq<HiloId>, bloq: seq<HiloId>): seq<HiloId> {
    if hs == [] then [] else (if hs[0] in bloq then [hs[0]] else []) + Presentes(hs[1..], bloq)
  }

  lemma {:induction false} PresentesIguales(hs: seq<HiloId>, a: seq<HiloId>, b: seq<HiloId>)
    requires forall y :: y in hs ==> (y in a <==> y in b)
    ensures Presentes(hs, a) == Presentes(hs, b)
  {
    if hs == [] {
      // base case
    } else {
      PresentesIguales(hs[1..], a, b);
    }
  }

  lemma {:induction false} PresentesUnion(hs: seq<HiloId>, js: seq<HiloId>, a: seq<HiloId>)
    ensures Presentes(hs + js, a) == Presentes(hs, a) + Presentes(js, a)
  {
    if hs == [] {
      assert hs + js == js;
    } else {
      assert (hs + js)[0] == hs[0] && (hs + js)[1..] == hs[1..] + js;
      PresentesUnion(hs[1..], js, a);
      Concatena(if hs[0] in a then [hs[0]] else [], Presentes(hs[1..], a), Presentes(js, a));
    }
  }

  lemma Concatena(a: seq<HiloId>, b: seq<HiloId>, c: seq<HiloId>)
    ensures (a + b) + c == a + (b + c)
  {
  }

  /** The first waiter of each mutex of the list. */
  function Cabezas(ms: seq<Mutex>, xs: seq<nat>): seq<HiloId>
    requires forall k :: 0 <= k < |xs| ==> xs[k] < |ms|
  {
    if xs == [] then []
    else (if ms[xs[0]].bloqueados == [] then [] else [ms[xs[0]].bloqueados[0]]) + Cabezas(ms, xs[1..])
  }

  lemma {:induction false} CabezasSon(ms: seq<Mutex>, xs: seq<nat>)
    requires forall k :: 0 <= k < |xs| ==> xs[k] < |ms|
    ensures forall y :: y in Cabezas(ms, xs) ==> exists i :: i in xs && PrimeroDe(ms, i, y)
  {
    if xs == [] {
      // base case
    } else {
      CabezasSon(ms, xs[1..]);
      forall y | y in Cabezas(ms, xs) ensures exists i :: i in xs && PrimeroDe(ms, i, y) {
        if y in Cabezas(ms, xs[1..]) {
          var i :| i in xs[1..] && PrimeroDe(ms, i, y);
          assert i in xs;
        } else {
          assert xs[0] in xs && PrimeroDe(ms, xs[0], y);
        }
      }
    }
  }

  lemma {:induction false} CabezasIguales(ms: seq<Mutex>, ns: seq<Mutex>, xs: seq<nat>)
    requires |ns| == |ms| && forall k :: 0 <= k < |xs| ==> xs[k] < |ms| && ns[xs[k]] == ms[xs[k]]
    ensures Cabezas(ns, xs) == Cabezas(ms, xs)
  {
    if xs == [] {
      // base case
    } else {
      CabezasIguales(ms, ns, xs[1..]);
    }
  }

  lemma FilaPlanificar(m: State)
    requires EnFila(m)
    ensures Fila(Planificar(m)) == Fila(m) && EnFila(Planificar(m))
  {
    if m.exec == [] && m.ready != [] { assert m.ready == [m.ready[0]] + m.ready[1..]; }
  }

  /** The thread woken, if it was blocked, goes to the end of the line. */
  lemma FilaDesbloquear(m: State, h: HiloId)
    requires EnFila(m)
    ensures Fila(Desbloquear(m, h)) == Fila(m) + Presentes([h], m.blocked) && EnFila(Desbloquear(m, h))
  {
    assert Presentes([h], m.blocked) == if h in m.blocked then [h] else [] by { assert [h][1..] == []; }
    if h in m.blocked {
      var a := m.(blocked := Quitar(m.blocked, h), ready := m.ready + [h]);
      FilaPlanificar(a);
      assert Fila(a) == Fila(m) + [h];
    }
  }

  lemma FilaProtocolo(m: State, i: nat)
    requires i < |m.mutexes| && EnFila(m)
    ensures Fila(Protocolo(m, i)) == Fila(m) + Presentes(Cabezas(m.mutexes, [i]), m.blocked) && EnFila(Protocolo(m, i))
  {
    var u := m.mutexes[i];
    assert [i][1..] == [];
    if u.bloqueados != [] {
      assert Cabezas(m.mutexes, [i]) == [u.bloqueados[0]];
      FilaDesbloquear(m.(mutexes := m.mutexes[i := u.(bloqueados := u.bloqueados[1..])]), u.bloqueados[0]);
    }
  }

  lemma {:induction false} FilaRecursos(m: State, ms: seq<nat>)
    requires Rangos(m, ms) && SinRepetidos(ms) && SinRepetidos(m.blocked) && EnFila(m)
    requires SinRepetidos(Cabezas(m.mutexes, ms))
    ensures Fila(LiberarRecursos(m, ms)) == Fila(m) + Presentes(Cabezas(m.mutexes, ms), m.blocked)
    ensures EnFila(LiberarRecursos(m, ms))
    decreases |ms|
  {
    if ms == [] {
      // base case
    } else {
      var a := UnaSuelta(m, ms);
      FilaRecursos(a, ms[1..]);
      CabezasJuntas(m, ms);
      Concatena(Fila(m), Presentes(Cabezas(m.mutexes, [ms[0]]), m.blocked), Presentes(Cabezas(m.mutexes, ms[1..]), m.blocked));
    }
  }

  lemma CabezasJuntas(m: State, ms: seq<nat>)
    requires ms != [] && Rangos(m, ms)
    ensures Presentes(Cabezas(m.mutexes, ms), m.blocked)
            == Presentes(Cabezas(m.mutexes, [ms[0]]), m.blocked) + Presentes(Cabezas(m.mutexes, ms[1..]), m.blocked)
  {
    CabezasPrimera(m.mutexes, ms);
    PresentesUnion(Cabezas(m.mutexes, [ms[0]]), Cabezas(m.mutexes, ms[1..]), m.blocked);
  }

  /** The state after one release, from which the loop goes on. */
  lemma UnaSuelta(m: State, ms: seq<nat>) returns (a: State)
    requires ms != [] && Rangos(m, ms) && SinRepetidos(ms) && SinRepetidos(m.blocked) && EnFila(m)
    requires SinRepetidos(Cabezas(m.mutexes, ms))
    ensures Rangos(a, ms[1..]) && LiberarRecursos(m, ms) == LiberarRecursos(a, ms[1..])
    ensures SinRepetidos(ms[1..]) && SinRepetidos(a.blocked) && EnFila(a) && SinRepetidos(Cabezas(a.mutexes, ms[1..]))
    ensures Fila(a) == Fila(m) + Presentes(Cabezas(m.mutexes, [ms[0]]), m.blocked)
    ensures Presentes(Cabezas(a.mutexes, ms[1..]), a.blocked) == Presentes(Cabezas(m.mutexes, ms[1..]), m.blocked)
  {
    a := Protocolo(m, ms[0]);
    CabezasPrimera(m.mutexes, ms);
    FilaProtocolo(m, ms[0]);
    ProtocoloVivos(m, ms[0]);
    RestoDeCabezas(m, ms);
    PresentesIguales(Cabezas(m.mutexes, ms[1..]), a.blocked, m.blocked);
  }

  lemma CabezasPrimera(ms: seq<Mutex>, xs: seq<nat>)
    requires xs != [] && forall k :: 0 <= k < |xs| ==> xs[k] < |ms|
    ensures Cabezas(ms, xs) == Cabezas(ms, [xs[0]]) + Cabezas(ms, xs[1..])
  {
    assert [xs[0]][1..] == [];
  }

  /** After one release the heads still to wake are the same, and as blocked as they were. */
  lemma RestoDeCabezas(m: State, ms: seq<nat>)
    requires ms != [] && Rangos(m, ms) && SinRepetidos(ms) && SinRepetidos(m.blocked)
    requires SinRepetidos(Cabezas(m.mutexes, [ms[0]]) + Cabezas(m.mutexes, ms[1..]))
    ensures var a := Protocolo(m, ms[0]);
            && Rangos(a, ms[1..]) && Cabezas(a.mutexes, ms[1..]) == Cabezas(m.mutexes, ms[1..])
            && SinRepetidos(Cabezas(a.mutexes, ms[1..]))
            && (forall y :: y in Cabezas(m.mutexes, ms[1..]) ==> (y in a.blocked <==> y in m.blocked))
  {
    var a := Protocolo(m, ms[0]);
    ProtocoloMutexes(m, ms[0]);
    ProtocoloVivos(m, ms[0]);
    CabezasIguales(m.mutexes, a.mutexes, ms[1..]);
    var h, t := Cabezas(m.mutexes, [ms[0]]), Cabezas(m.mutexes, ms[1..]);
    assert [ms[0]][1..] == [];
    forall i, j | 0 <= i < j < |t| ensures t[i] != t[j] { assert (h + t)[|h| + i] == t[i] && (h + t)[|h| + j] == t[j]; }
    forall y | y in t ensures !PrimeroDe(m.mutexes, ms[0], y) {
      var j :| 0 <= j < |t| && t[j] == y;
      if h != [] { assert (h + t)[0] == h[0] && (h + t)[|h| + j] == y; }
    }
  }

  lemma {:induction false} FilaJoin(m: State, js: seq<HiloId>)
    requires SinRepetidos(js) && SinRepetidos(m.blocked) && EnFila(m)
    ensures Fila(LiberarJoin(m, js)) == Fila(m) + Presentes(js, m.blocked) && EnFila(LiberarJoin(m, js))
    decreases |js|
  {
    if js == [] {
      // base case
    } else {
      var a := UnDespierto(m, js);
      FilaJoin(a, js[1..]);
      assert js == [js[0]] + js[1..];
      PresentesUnion([js[0]], js[1..], m.blocked);
      Concatena(Fila(m), Presentes([js[0]], m.blocked), Presentes(js[1..], m.blocked));
    }
  }

  /** The state after one wake-up, from which the loop goes on. */
  lemma UnDespierto(m: State, js: seq<HiloId>) returns (a: State)
    requires js != [] && SinRepetidos(js) && SinRepetidos(m.blocked) && EnFila(m)
    ensures LiberarJoin(m, js) == LiberarJoin(a, js[1..]) && SinRepetidos(js[1..]) && SinRepetidos(a.blocked) && EnFila(a)
    ensures Fila(a) == Fila(m) + Presentes([js[0]], m.blocked)
    ensures Presentes(js[1..], a.blocked) == Presentes(js[1..], m.blocked)
  {
    a := Desbloquear(m, js[0]);
    FilaDesbloquear(m, js[0]);
    DesbloquearVivos(m, js[0]);
    assert js == [js[0]] + js[1..] && js[0] !in js[1..];
    PresentesIguales(js[1..], a.blocked, m.blocked);
  }

  lemma {:induction false} QuitarDeUnion(xs: seq<HiloId>, ys: seq<HiloId>, x: HiloId)
    ensures Quitar(xs + ys, x) == if x in xs then Quitar(xs, x) + ys else xs + Quitar(ys, x)
  {
    if xs == [] {
      assert xs + ys == ys;
    } else {
      assert (xs + ys)[0] == xs[0] && (xs + ys)[1..] == xs[1..] + ys;
      QuitarDeUnion(xs[1..], ys, x);
    }
  }

  lemma FilaSinHilo(s: State, x: HiloId)
    requires Inv(s) && Vivo(s, x)
    ensures x in s.tcbs && SinRepetidos(s.tcbs[x].mutexes)
    ensures Fila(SinHilo(s, x)) == Quitar(Fila(s), x)
    ensures SinHilo(s, x).algoritmo == s.algoritmo && SinHilo(s, x).blocked == Quitar(s.blocked, x)
  {
    QuitarDeUnion(s.exec, s.ready, x);
    if x !in s.exec { QuitarAusente(s.exec, x); }
    if x !in s.ready { QuitarAusente(s.ready, x); }
    if x !in s.blocked { QuitarAusente(s.blocked, x); }
    assert Asignados(s, Nadie, x) == s.tcbs[x].mutexes;
    DesocuparEfecto(ConFlag(Remover(s, x), x), x, s.tcbs[x].mutexes);
  }

  /** The heads are in different queues, and none of them waits for the end of x. */
  lemma CabezasDistintas(s: State, x: HiloId)
    requires Inv(s) && Vivo(s, x)
    ensures x in s.tcbs && SinRepetidos(s.tcbs[x].mutexes) && Rangos(SinHilo(s, x), s.tcbs[x].mutexes)
    ensures var hs := Cabezas(SinHilo(s, x).mutexes, s.tcbs[x].mutexes);
            SinRepetidos(hs) && forall y :: y in hs ==> y !in s.tcbs[x].joiners
    ensures SinRepetidos(s.tcbs[x].joiners)
  {
    var ms, js := s.tcbs[x].mutexes, s.tcbs[x].joiners;
    SinHiloMutexes(s, x);
    var m := SinHilo(s, x);
    var e := ColasDe(s, Nadie);
    assert e(EnJoin(x)) == js && SinRepetidos(e(EnJoin(x)));
    forall i: nat, y | i in ms && PrimeroDe(m.mutexes, i, y) ensures Esta(e, y, EnMutex(i)) {
      QuitarIncluye(s.mutexes[i].bloqueados, x);
    }
    CabezasSinRepetir(e, m.mutexes, ms);
    CabezasSon(m.mutexes, ms);
    forall y | y in Cabezas(m.mutexes, ms) ensures y !in js {
      var i: nat :| i in ms && PrimeroDe(m.mutexes, i, y);
      NoEnDos(s, y, EnMutex(i), EnJoin(x));
    }
  }

  lemma NoEnDos(s: State, y: HiloId, w: Sitio, v: Sitio)
    requires Inv(s) && Esta(ColasDe(s, Nadie), y, w) && w != v
    ensures !Esta(ColasDe(s, Nadie), y, v)
  {
  }

  lemma UnaMas(h: HiloId, t: seq<HiloId>)
    requires SinRepetidos(t) && h !in t
    ensures SinRepetidos([h] + t)
  {
  }

  lemma OtrasCabezas(e: Colas, ms: seq<Mutex>, xs: seq<nat>, h: HiloId)
    requires xs != [] && xs[0] !in xs[1..] && Esta(e, h, EnMutex(xs[0]))
    requires forall i: nat, y :: i in xs && PrimeroDe(ms, i, y) ==> Esta(e, y, EnMutex(i))
    requires forall y, w, v :: Esta(e, y, w) && Esta(e, y, v) ==> w == v
    requires forall k :: 0 <= k < |xs| ==> xs[k] < |ms|
    ensures h !in Cabezas(ms, xs[1..])
  {
    CabezasSon(ms, xs[1..]);
    forall i | i in xs[1..] ensures !PrimeroDe(ms, i, h) { assert i in xs && EnMutex(i) != EnMutex(xs[0]); }
  }

  lemma {:induction false} CabezasSinRepetir(e: Colas, ms: seq<Mutex>, xs: seq<nat>)
    requires SinRepetidos(xs) && forall k :: 0 <= k < |xs| ==> xs[k] < |ms|
    requires forall i: nat, y :: i in xs && PrimeroDe(ms, i, y) ==> Esta(e, y, EnMutex(i))
    requires forall y, w, v :: Esta(e, y, w) && Esta(e, y, v) ==> w == v
    ensures SinRepetidos(Cabezas(ms, xs))
  {
    if xs == [] {
      // base case
    } else {
      assert xs == [xs[0]] + xs[1..] && xs[0] !in xs[1..];
      CabezasSinRepetir(e, ms, xs[1..]);
      if ms[xs[0]].bloqueados != [] {
        var h := ms[xs[0]].bloqueados[0];
        assert xs[0] in xs && PrimeroDe(ms, xs[0], h);
        OtrasCabezas(e, ms, xs, h);
        UnaMas(h, Cabezas(ms, xs[1..]));
      }
    }
  }

  /** The two loops, one behind the other. */
  lemma FilaVueltas(s1: State, ms: seq<nat>, js: seq<HiloId>, x: HiloId)
    requires Rangos(s1, ms) && SinRepetidos(ms) && SinRepetidos(s1.blocked) && EnFila(s1) && SinRepetidos(js)
    requires var hs := Cabezas(s1.mutexes, ms); SinRepetidos(hs) && forall y :: y in js ==> y !in hs
    requires forall y, i :: y in js && i in ms ==> !PrimeroDe(s1.mutexes, i, y)
    ensures var s2 := LiberarRecursos(s1, ms);
            var s3 := LiberarJoin(s2.(exit := s2.exit + [x]), js);
            Fila(s3) == Fila(s1) + Presentes(Cabezas(s1.mutexes, ms) + js, s1.blocked) && EnFila(s3)
  {
    var hs := Cabezas(s1.mutexes, ms);
    FilaRecursos(s1, ms);
    LiberarRecursosVivos(s1, ms);
    var s2 := LiberarRecursos(s1, ms);
    FilaJoin(s2.(exit := s2.exit + [x]), js);
    PresentesIguales(js, s2.blocked, s1.blocked);
    PresentesUnion(hs, js, s1.blocked);
    Concatena(Fila(s1), Presentes(hs, s1.blocked), Presentes(js, s1.blocked));
  }

  /** The mutexes with x in no queue. */
  function SinEspera(ms: seq<Mutex>, x: HiloId): (r: seq<Mutex>)
    ensures |r| == |ms|
  {
    seq(|ms|, i requires 0 <= i < |ms| => ms[i].(bloqueados := Quitar(ms[i].bloqueados, x)))
  }

  /** Under FIFO, or when another thread runs: behind those that could run come the first waiters of its mutexes, in
      the order in which it took them, and then the threads that joined it, in the order in which they did. */
  lemma FinEnOrden(s: State, x: HiloId)
    requires Inv(s) && Vivo(s, x) && (s.algoritmo.FIFO? || (s.exec != [] && s.exec != [x]))
    ensures x in s.tcbs && Rangos(s, s.tcbs[x].mutexes)
    ensures Fila(FinalizarHilo(s, x)) == Quitar(Fila(s), x)
              + Presentes(Cabezas(SinEspera(s.mutexes, x), s.tcbs[x].mutexes) + s.tcbs[x].joiners, Quitar(s.blocked, x))
  {
    var ms, js := s.tcbs[x].mutexes, s.tcbs[x].joiners;
    FilaSinHilo(s, x);
    CabezasDistintas(s, x);
    SinHiloVivos(s, x);
    SinHiloMutexes(s, x);
    var s1 := SinHilo(s, x);
    CabezasIguales(s1.mutexes, SinEspera(s.mutexes, x), ms);
    forall y | y in js ensures forall i :: i in ms ==> !PrimeroDe(s1.mutexes, i, y) { JoinNoEsCabeza(s, x, y); }
    FilaVueltas(s1, ms, js, x);
    var s2 := LiberarRecursos(s1, ms);
    FilaPlanificar(LiberarJoin(s2.(exit := s2.exit + [x]), js));
  }

  lemma JoinNoEsCabeza(s: State, x: HiloId, y: HiloId)
    requires Inv(s) && Vivo(s, x) && x in s.tcbs && y in s.tcbs[x].joiners
    requires |SinHilo(s, x).mutexes| == |s.mutexes|
    ensures forall i :: i in s.tcbs[x].mutexes ==> !PrimeroDe(SinHilo(s, x).mutexes, i, y)
  {
    SinHiloMutexes(s, x);
    var e := ColasDe(s, Nadie);
    assert Esta(e, y, EnJoin(x));
    forall i | i in s.tcbs[x].mutexes ensures !PrimeroDe(SinHilo(s, x).mutexes, i, y) {
      QuitarIncluye(s.mutexes[i].bloqueados, x);
      NoEnDos(s, y, EnJoin(x), EnMutex(i));
    }
  }
}
