/** Which thread waits where, for any family of queues: the facts about waiting that do not depend on
    what the queues are made of. */
module Reparto {
  import opened Listas
  import opened KernelEstado

  /** The places where a thread can wait. */
  datatype Sitio = EnMutex(i: nat) | EnJoin(hilo: HiloId) | EnIo | EnDump

  type Colas = Sitio -> seq<HiloId>

  predicate Esta(e: Colas, x: HiloId, w: Sitio) {
    x in e(w)
  }

  /** Every blocked thread stands exactly once in exactly one queue, and no READY or EXEC thread stands in any.
      `libres` are threads that a handler has just taken out of their queue, or not yet put into one. */
  ghost predicate UnaCola(e: Colas, todos: set<HiloId>, activos: seq<HiloId>, bloq: seq<HiloId>, libres: set<HiloId>) {
    && (forall w :: SinRepetidos(e(w)))
    && (forall x, w, v :: Esta(e, x, w) && Esta(e, x, v) ==> w == v)
    && (forall x, w :: Esta(e, x, w) ==> x in todos && x !in activos && x !in libres)
    && (forall x, i :: Esta(e, x, EnMutex(i)) ==> x in bloq)
    && (forall x :: x in bloq && x !in libres ==> exists w :: Esta(e, x, w))
  }

  lemma Sacar(e: Colas, d: Colas, w: Sitio, todos: set<HiloId>, activos: seq<HiloId>, bloq: seq<HiloId>)
    requires UnaCola(e, todos, activos, bloq, {}) && e(w) != []
    requires d(w) == e(w)[1..]
    requires forall v :: v != w ==> d(v) == e(v)
    ensures UnaCola(d, todos, activos, bloq, {e(w)[0]})
  {
    var q := e(w);
    assert q == [q[0]] + q[1..];
    assert forall x :: x in q[1..] <==> x in q && x != q[0];
    assert Esta(e, q[0], w);
    forall x, v ensures Esta(d, x, v) <==> Esta(e, x, v) && x != q[0] {
      if v != w {
        assert d(v) == e(v);
        assert !Esta(e, q[0], v);
      }
    }
    forall x | x in bloq && x != q[0] ensures exists v :: Esta(d, x, v) {
      var v :| Esta(e, x, v);
      assert Esta(d, x, v);
    }
  }

  /** The same from any position of the queue. */
  lemma SacarCualquiera(e: Colas, d: Colas, w: Sitio, todos: set<HiloId>, activos: seq<HiloId>, bloq: seq<HiloId>,
                        x: HiloId)
    requires UnaCola(e, todos, activos, bloq, {}) && Esta(e, x, w)
    requires d(w) == Quitar(e(w), x)
    requires forall v :: v != w ==> d(v) == e(v)
    ensures UnaCola(d, todos, activos, bloq, {x})
  {
    QuitarMiembros(e(w), x);
    forall y, v ensures Esta(d, y, v) <==> Esta(e, y, v) && y != x {
      if v != w {
        assert d(v) == e(v);
        assert !Esta(e, x, v);
      }
    }
    forall y | y in bloq && y != x ensures exists v :: Esta(d, y, v) {
      var v :| Esta(e, y, v);
      assert Esta(d, y, v);
    }
  }

  lemma Poner(e: Colas, d: Colas, w: Sitio, todos: set<HiloId>, activos: seq<HiloId>, bloq: seq<HiloId>, x: HiloId)
    requires UnaCola(e, todos, activos, bloq, {x}) && x in bloq && x in todos && x !in activos
    requires d(w) == e(w) + [x]
    requires forall v :: v != w ==> d(v) == e(v)
    ensures UnaCola(d, todos, activos, bloq, {})
  {
    assert !Esta(e, x, w);
    forall y, v ensures Esta(d, y, v) <==> Esta(e, y, v) || (y == x && v == w) {
      if v != w { assert d(v) == e(v); }
    }
    forall y | y in bloq ensures exists v :: Esta(d, y, v) {
      if y == x {
        assert Esta(d, x, w);
      } else {
        var v :| Esta(e, y, v);
        assert Esta(d, y, v);
      }
    }
  }

  /** A thread leaves a mutex queue from any position: it is being ended. */
  lemma Borrar(e: Colas, d: Colas, todos: set<HiloId>, activos: seq<HiloId>, bloq: seq<HiloId>,
               activos': seq<HiloId>, bloq': seq<HiloId>, x: HiloId)
    requires UnaCola(e, todos, activos, bloq, {})
    requires forall i :: d(EnMutex(i)) == Quitar(e(EnMutex(i)), x)
    requires forall w: Sitio :: !w.EnMutex? ==> d(w) == e(w)
    requires forall y :: y in activos' ==> y in activos
    requires forall y :: y in bloq' <==> y in bloq && y != x
    ensures UnaCola(d, todos, activos', bloq', {})
  {
    forall w ensures SinRepetidos(d(w)) && forall y :: Esta(d, y, w) ==> Esta(e, y, w) {
      if w.EnMutex? { QuitarMiembros(e(w), x); } else { assert d(w) == e(w); }
    }
    forall y, i | Esta(d, y, EnMutex(i)) ensures y in bloq' {
      QuitarMiembros(e(EnMutex(i)), x);
      assert Esta(e, y, EnMutex(i));
    }
    forall y | y in bloq' ensures exists w :: Esta(d, y, w) {
      var w :| Esta(e, y, w);
      if w.EnMutex? { QuitarMiembros(e(w), x); }
      assert Esta(d, y, w);
    }
  }

  /** Queues pointwise equal, same blocked threads up to `x`, which is free: it wakes, or it had already ended. */
  lemma Soltar(e: Colas, d: Colas, todos: set<HiloId>, activos: seq<HiloId>, bloq: seq<HiloId>,
               activos': seq<HiloId>, bloq': seq<HiloId>, x: HiloId)
    requires UnaCola(e, todos, activos, bloq, {x})
    requires forall w :: d(w) == e(w)
    requires forall y :: y in activos' ==> y in activos || y == x
    requires forall y :: y in bloq' <==> y in bloq && y != x
    ensures UnaCola(d, todos, activos', bloq', {})
  {
    forall y, w ensures Esta(d, y, w) <==> Esta(e, y, w) {}
    forall y | y in bloq' ensures exists w :: Esta(d, y, w) {
      var w :| Esta(e, y, w);
      assert Esta(d, y, w);
    }
  }

  /** The running thread stops; it still has to be given a queue. */
  lemma Detener(e: Colas, d: Colas, todos: set<HiloId>, activos: seq<HiloId>, bloq: seq<HiloId>,
                activos': seq<HiloId>, bloq': seq<HiloId>, x: HiloId)
    requires UnaCola(e, todos, activos, bloq, {}) && x in activos
    requires forall w :: d(w) == e(w)
    requires forall y :: y in activos' ==> y in activos
    requires forall y :: y in bloq' <==> y in bloq || y == x
    ensures UnaCola(d, todos, activos', bloq', {x})
  {
    forall y, w ensures Esta(d, y, w) <==> Esta(e, y, w) {}
    forall y | y in bloq' && y != x ensures exists w :: Esta(d, y, w) {
      var w :| Esta(e, y, w);
      assert Esta(d, y, w);
    }
  }

  /** Nothing moves except inside READY+EXEC; threads may be created there. */
  lemma Igual(e: Colas, d: Colas, todos: set<HiloId>, todos': set<HiloId>, activos: seq<HiloId>, activos': seq<HiloId>,
              bloq: seq<HiloId>, libres: set<HiloId>)
    requires UnaCola(e, todos, activos, bloq, libres) && todos <= todos'
    requires forall w :: d(w) == e(w)
    requires forall y :: y in activos' ==> y in activos || y !in todos
    ensures UnaCola(d, todos', activos', bloq, libres)
  {
    forall y, w ensures Esta(d, y, w) <==> Esta(e, y, w) {}
    forall y | y in bloq && y !in libres ensures exists w :: Esta(d, y, w) {
      var w :| Esta(e, y, w);
      assert Esta(d, y, w);
    }
  }
}
