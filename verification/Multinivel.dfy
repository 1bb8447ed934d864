/** The multilevel queue as values, and its refinement of the single ready list: one queue for each priority,
    each of them the ready list filtered by that priority. */
module Multinivel {
  import opened Listas
  import opened KernelEstado
  import opened KernelTurnos

  /** t_cola_multinivel. */
  datatype Cola = Cola(prioridad: int, lista: seq<HiloId>)

  function Clave(tcbs: map<HiloId, Tcb>): HiloId -> int {
    x => if x in tcbs then tcbs[x].prioridad else 0
  }

  predicate HayCola(colas: seq<Cola>, p: int) {
    exists i :: 0 <= i < |colas| && colas[i].prioridad == p
  }

  ghost predicate Distintas(colas: seq<Cola>) {
    forall i, j :: 0 <= i < j < |colas| ==> colas[i].prioridad != colas[j].prioridad
  }

  ghost predicate Refina(colas: seq<Cola>, ready: seq<HiloId>, tcbs: map<HiloId, Tcb>) {
    && Distintas(colas)
    && (forall i :: 0 <= i < |colas| ==> colas[i].lista == Filtrar(ready, Clave(tcbs), colas[i].prioridad))
    && (forall x :: x in tcbs ==> HayCola(colas, tcbs[x].prioridad))
    && (forall x :: x in ready ==> x in tcbs)
  }

  /** obtener_cola_por_prioridad. */
  function ColaDe(colas: seq<Cola>, p: int, i: nat): (r: nat)
    requires i <= |colas|
    ensures i <= r <= |colas| && (r < |colas| ==> colas[r].prioridad == p)
    ensures forall j :: i <= j < r ==> colas[j].prioridad != p
    decreases |colas| - i
  {
    if i == |colas| || colas[i].prioridad == p then i else ColaDe(colas, p, i + 1)
  }

  function CrearCola(colas: seq<Cola>, p: int): seq<Cola> {
    if ColaDe(colas, p, 0) < |colas| then colas else colas + [Cola(p, [])]
  }

  function AgregarACola(colas: seq<Cola>, x: HiloId, p: int): seq<Cola> {
    var i := ColaDe(colas, p, 0);
    if i < |colas| then colas[i := colas[i].(lista := colas[i].lista + [x])] else colas
  }

  /** The first queue that holds x, or the number of queues. */
  function ColaCon(colas: seq<Cola>, x: HiloId, i: nat): (r: nat)
    requires i <= |colas|
    ensures i <= r <= |colas| && (r < |colas| ==> x in colas[r].lista)
    ensures forall j :: i <= j < r ==> x !in colas[j].lista
    decreases |colas| - i
  {
    if i == |colas| || x in colas[i].lista then i else ColaCon(colas, x, i + 1)
  }

  function RemoverDeColas(colas: seq<Cola>, x: HiloId): seq<Cola> {
    var i := ColaCon(colas, x, 0);
    if i < |colas| then colas[i := colas[i].(lista := Quitar(colas[i].lista, x))] else colas
  }

  /** list_filter of the queues with threads, then list_get_maximum: the earlier of two equal priorities stays. */
  function Mejor(colas: seq<Cola>, i: nat, m: Option<nat>): (r: Option<nat>)
    requires i <= |colas| && (m.Some? ==> m.value < i)
    ensures r.Some? ==> r.value < |colas|
    decreases |colas| - i
  {
    if i == |colas| then m
    else if colas[i].lista == [] then Mejor(colas, i + 1, m)
    else if m.Some? && colas[m.value].prioridad <= colas[i].prioridad then Mejor(colas, i + 1, m)
    else Mejor(colas, i + 1, Some(i))
  }

  predicate Vacias(colas: seq<Cola>) {
    forall i :: 0 <= i < |colas| ==> colas[i].lista == []
  }

  ghost predicate EsMejor(colas: seq<Cola>, i: nat, m: Option<nat>)
    requires i <= |colas|
  {
    match m
    case None => forall j :: 0 <= j < i ==> colas[j].lista == []
    case Some(k) =>
      && k < i && colas[k].lista != []
      && forall j :: 0 <= j < i && colas[j].lista != [] ==> colas[k].prioridad <= colas[j].prioridad
  }

  lemma {:induction false} MejorEsMejor(colas: seq<Cola>, i: nat, m: Option<nat>)
    requires i <= |colas| && EsMejor(colas, i, m)
    ensures EsMejor(colas, |colas|, Mejor(colas, i, m))
    decreases |colas| - i
  {
    if i == |colas| {
      // base case
    } else {
      MejorEsMejor(colas, i + 1,
                   if colas[i].lista == [] || (m.Some? && colas[m.value].prioridad <= colas[i].prioridad) then m else Some(i));
    }
  }

  lemma {:induction false} FiltrarClave<T>(xs: seq<T>, f: T -> int, g: T -> int, k: int)
    requires forall x :: x in xs ==> f(x) == g(x)
    ensures Filtrar(xs, f, k) == Filtrar(xs, g, k)
  {
    if xs == [] {
      // base case
    } else {
      FiltrarClave(xs[1..], f, g, k);
    }
  }

  lemma {:induction false} FiltrarVacio<T>(xs: seq<T>, f: T -> int, k: int)
    requires forall x :: x in xs ==> f(x) != k
    ensures Filtrar(xs, f, k) == []
  {
    if xs == [] {
      // base case
    } else {
      assert xs[0] in xs;
      FiltrarVacio(xs[1..], f, k);
    }
  }

  /** The first element of a filtered list is the first one of its key in the whole list. */
  lemma {:induction false} PrimeroFiltrado<T>(xs: seq<T>, f: T -> int, k: int) returns (i: nat)
    requires Filtrar(xs, f, k) != []
    ensures i < |xs| && xs[i] == Filtrar(xs, f, k)[0] && f(xs[i]) == k
    ensures forall j :: 0 <= j < i ==> f(xs[j]) != k
  {
    if f(xs[0]) == k {
      i := 0;
    } else {
      i := PrimeroFiltrado(xs[1..], f, k);
      i := i + 1;
    }
  }

  // ---- Refinement, operation by operation ----

  lemma RefinaCrear(colas: seq<Cola>, ready: seq<HiloId>, tcbs: map<HiloId, Tcb>, p: int)
    requires Refina(colas, ready, tcbs)
    ensures Refina(CrearCola(colas, p), ready, tcbs) && HayCola(CrearCola(colas, p), p)
  {
    var r := CrearCola(colas, p);
    if ColaDe(colas, p, 0) == |colas| {
      forall x | x in ready ensures Clave(tcbs)(x) != p { assert HayCola(colas, tcbs[x].prioridad); }
      FiltrarVacio(ready, Clave(tcbs), p);
      forall x | x in tcbs ensures HayCola(r, tcbs[x].prioridad) {
        var i :| 0 <= i < |colas| && colas[i].prioridad == tcbs[x].prioridad;
        assert r[i] == colas[i];
      }
      assert r[|colas|].prioridad == p;
    }
  }

  /** A record may change as long as its priority does not: the queues keep their meaning. */
  lemma RefinaOtros(colas: seq<Cola>, ready: seq<HiloId>, tcbs: map<HiloId, Tcb>, nuevos: map<HiloId, Tcb>)
    requires Refina(colas, ready, tcbs) && nuevos.Keys == tcbs.Keys
    requires forall x :: x in tcbs ==> nuevos[x].prioridad == tcbs[x].prioridad
    ensures Refina(colas, ready, nuevos)
  {
    forall i | 0 <= i < |colas| ensures colas[i].lista == Filtrar(ready, Clave(nuevos), colas[i].prioridad) {
      FiltrarClave(ready, Clave(tcbs), Clave(nuevos), colas[i].prioridad);
    }
  }

  lemma RefinaNuevo(colas: seq<Cola>, ready: seq<HiloId>, tcbs: map<HiloId, Tcb>, x: HiloId, t: Tcb)
    requires Refina(colas, ready, tcbs) && x !in tcbs && HayCola(colas, t.prioridad)
    ensures Refina(colas, ready, tcbs[x := t])
  {
    forall i | 0 <= i < |colas| ensures colas[i].lista == Filtrar(ready, Clave(tcbs[x := t]), colas[i].prioridad) {
      FiltrarClave(ready, Clave(tcbs), Clave(tcbs[x := t]), colas[i].prioridad);
    }
  }

  lemma HayColaUnica(colas: seq<Cola>, p: int)
    requires HayCola(colas, p)
    ensures ColaDe(colas, p, 0) < |colas|
  {
  }

  lemma RefinaAgregar(colas: seq<Cola>, ready: seq<HiloId>, tcbs: map<HiloId, Tcb>, x: HiloId)
    requires Refina(colas, ready, tcbs) && x in tcbs
    ensures Refina(AgregarACola(colas, x, tcbs[x].prioridad), ready + [x], tcbs)
  {
    var p := tcbs[x].prioridad;
    HayColaUnica(colas, p);
    var r := AgregarACola(colas, x, p);
    forall i | 0 <= i < |r| ensures r[i].lista == Filtrar(ready + [x], Clave(tcbs), r[i].prioridad) {
      FiltrarSuma(ready, [x], Clave(tcbs), r[i].prioridad);
    }
    MismasColas(colas, r, tcbs);
  }

  lemma MismasColas(colas: seq<Cola>, r: seq<Cola>, tcbs: map<HiloId, Tcb>)
    requires |r| == |colas| && forall i :: 0 <= i < |colas| ==> r[i].prioridad == colas[i].prioridad
    requires forall x :: x in tcbs ==> HayCola(colas, tcbs[x].prioridad)
    ensures forall x :: x in tcbs ==> HayCola(r, tcbs[x].prioridad)
  {
    forall x | x in tcbs ensures HayCola(r, tcbs[x].prioridad) {
      var i :| 0 <= i < |colas| && colas[i].prioridad == tcbs[x].prioridad;
      assert r[i].prioridad == colas[i].prioridad;
    }
  }

  /** x stands in the queue of its priority if it is ready, and in no other. */
  lemma EstaEnSuCola(colas: seq<Cola>, ready: seq<HiloId>, tcbs: map<HiloId, Tcb>, x: HiloId)
    requires Refina(colas, ready, tcbs)
    ensures forall i :: 0 <= i < |colas| ==> (x in colas[i].lista <==> x in ready && Clave(tcbs)(x) == colas[i].prioridad)
    ensures ColaCon(colas, x, 0) < |colas| <==> x in ready
  {
    forall i | 0 <= i < |colas| ensures x in colas[i].lista <==> x in ready && Clave(tcbs)(x) == colas[i].prioridad {
      FiltrarMiembros(ready, Clave(tcbs), colas[i].prioridad);
    }
    if x in ready {
      var i :| 0 <= i < |colas| && colas[i].prioridad == tcbs[x].prioridad;
      assert x in colas[i].lista;
    }
  }

  lemma RefinaRemover(colas: seq<Cola>, ready: seq<HiloId>, tcbs: map<HiloId, Tcb>, x: HiloId)
    requires Refina(colas, ready, tcbs)
    ensures Refina(RemoverDeColas(colas, x), Quitar(ready, x), tcbs)
  {
    var r, f := RemoverDeColas(colas, x), Clave(tcbs);
    EstaEnSuCola(colas, ready, tcbs, x);
    forall i | 0 <= i < |r| ensures r[i].lista == Filtrar(Quitar(ready, x), f, r[i].prioridad) {
      FiltrarQuitar(ready, x, f, r[i].prioridad);
      if x !in colas[i].lista { QuitarAusente(colas[i].lista, x); }
    }
    MismasColas(colas, r, tcbs);
    QuitarIncluye(ready, x);
  }

  lemma RefinaVacia(colas: seq<Cola>, ready: seq<HiloId>, tcbs: map<HiloId, Tcb>)
    requires Refina(colas, ready, tcbs)
    ensures Vacias(colas) <==> ready == []
    ensures Mejor(colas, 0, None).None? <==> ready == []
  {
    MejorEsMejor(colas, 0, None);
    if ready != [] {
      var x := ready[0];
      var i :| 0 <= i < |colas| && colas[i].prioridad == tcbs[x].prioridad;
      FiltrarMiembros(ready, Clave(tcbs), colas[i].prioridad);
      assert x in colas[i].lista;
    }
  }

  /** There is only one turn: the first of the lowest priority numbers. */
  lemma TurnoUnico(s: State, k: nat, j: nat)
    requires k < |s.ready| && j < |s.ready| && EsTurnoDe(s, s.ready, k) && EsTurnoDe(s, s.ready, j)
    ensures k == j
  {
    assert Prioridad(s, s.ready[k]) <= Prioridad(s, s.ready[j]);
    assert Prioridad(s, s.ready[j]) <= Prioridad(s, s.ready[k]);
  }

  /** The multilevel queue hands out the thread that PRIORIDADES would take from the single list. */
  lemma MismaEleccion(colas: seq<Cola>, s: State)
    requires Refina(colas, s.ready, s.tcbs) && s.ready != [] && !s.algoritmo.FIFO?
    ensures var m := Mejor(colas, 0, None);
            m.Some? && colas[m.value].lista != [] && colas[m.value].lista[0] == Elegir(s)
            && RemoverDeColas(colas, Elegir(s)) == colas[m.value := colas[m.value].(lista := colas[m.value].lista[1..])]
  {
    RefinaVacia(colas, s.ready, s.tcbs);
    MejorEsMejor(colas, 0, None);
    var m, f := Mejor(colas, 0, None).value, Clave(s.tcbs);
    var i := PrimeroFiltrado(s.ready, f, colas[m].prioridad);
    forall j | 0 <= j < |s.ready| ensures Prioridad(s, s.ready[i]) <= Prioridad(s, s.ready[j]) {
      var q :| 0 <= q < |colas| && colas[q].prioridad == s.tcbs[s.ready[j]].prioridad;
      FiltrarMiembros(s.ready, f, colas[q].prioridad);
      assert s.ready[j] in colas[q].lista;
    }
    assert EsTurnoDe(s, s.ready, i);
    var k := ElegirTurno(s);
    TurnoUnico(s, i, k);
    EstaEnSuCola(colas, s.ready, s.tcbs, Elegir(s));
    forall q | 0 <= q < |colas| && Elegir(s) in colas[q].lista ensures q == m {
      assert Clave(s.tcbs)(Elegir(s)) == colas[q].prioridad;
    }
  }

  // ---- Refinement over runs ----

  datatype Pedido = Entra(hilo: HiloId) | Sale(hilo: HiloId) | Siguiente

  /** The threads handed out by the single list under PRIORIDADES. */
  function Lista(s: State, ps: seq<Pedido>): seq<HiloId>
    decreases |ps|
  {
    if ps == [] then []
    else match ps[0]
      case Entra(x) => Lista(if x in s.tcbs then s.(ready := s.ready + [x]) else s, ps[1..])
      case Sale(x) => Lista(s.(ready := Quitar(s.ready, x)), ps[1..])
      case Siguiente =>
        if s.ready == [] then Lista(s, ps[1..])
        else [Elegir(s)] + Lista(s.(ready := Quitar(s.ready, Elegir(s))), ps[1..])
  }

  /** The threads handed out by the queues. */
  function Cedidos(colas: seq<Cola>, tcbs: map<HiloId, Tcb>, ps: seq<Pedido>): seq<HiloId>
    decreases |ps|
  {
    if ps == [] then []
    else match ps[0]
      case Entra(x) => Cedidos(if x in tcbs then AgregarACola(colas, x, tcbs[x].prioridad) else colas, tcbs, ps[1..])
      case Sale(x) => Cedidos(RemoverDeColas(colas, x), tcbs, ps[1..])
      case Siguiente =>
        var m := Mejor(colas, 0, None);
        if m.None? || colas[m.value].lista == [] then Cedidos(colas, tcbs, ps[1..])
        else
          var q := colas[m.value];
          [q.lista[0]] + Cedidos(colas[m.value := q.(lista := q.lista[1..])], tcbs, ps[1..])
  }

  /** CMN and PRIORIDADES hand out the same threads in the same order, whatever enters and leaves. */
  lemma {:induction false} MismosTurnos(colas: seq<Cola>, s: State, ps: seq<Pedido>)
    requires Refina(colas, s.ready, s.tcbs) && !s.algoritmo.FIFO?
    ensures Cedidos(colas, s.tcbs, ps) == Lista(s, ps)
    decreases |ps|
  {
    if ps == [] {
      // base case
    } else {
      match ps[0]
      case Entra(x) =>
        if x in s.tcbs {
          RefinaAgregar(colas, s.ready, s.tcbs, x);
          MismosTurnos(AgregarACola(colas, x, s.tcbs[x].prioridad), s.(ready := s.ready + [x]), ps[1..]);
        } else {
          MismosTurnos(colas, s, ps[1..]);
        }
      case Sale(x) =>
        RefinaRemover(colas, s.ready, s.tcbs, x);
        MismosTurnos(RemoverDeColas(colas, x), s.(ready := Quitar(s.ready, x)), ps[1..]);
      case Siguiente =>
        RefinaVacia(colas, s.ready, s.tcbs);
        if s.ready == [] {
          MismosTurnos(colas, s, ps[1..]);
        } else {
          MismaEleccion(colas, s);
          RefinaRemover(colas, s.ready, s.tcbs, Elegir(s));
          MismosTurnos(RemoverDeColas(colas, Elegir(s)), s.(ready := Quitar(s.ready, Elegir(s))), ps[1..]);
        }
    }
  }
}
