/** The kernel's long-term scheduler as the program has it, talking to the memory server, and its loop over the
    threads of a process that ends. */
module LargoPlazo {
  import opened Listas
  import opened Particiones
  import opened Memoria
  import opened MemoriaMaquina
  import opened Admision

  class PlanificadorLargoPlazo {
    const memoria: MemoriaServidor
    var nuevos: seq<Pcb>
    var enMemoria: seq<int>
    var salida: seq<int>
    var processId: int

    ghost function Estado(): Adm
      reads this, memoria
    {
      Adm(memoria.Estado(), nuevos, enMemoria, salida, processId)
    }

    constructor (m: MemoriaServidor)
      ensures memoria == m && Estado() == Inicial(m.Estado())
    {
      memoria := m;
      nuevos, enMemoria, salida, processId := [], [], [], 0;
    }

    method PreguntarAMemoriaParaInicializacion() returns (ok: bool)
      requires nuevos != []
      modifies this, memoria
      ensures (Estado(), ok) == Preguntar(old(Estado()))
    {
      var pcb := nuevos[0];
      ok := memoria.AtenderCreacionProceso(pcb.pid, pcb.tamanio);
      if ok {
        nuevos := nuevos[1..];
        enMemoria := enMemoria + [pcb.pid];
      }
    }

    method CrearProceso(n: int, ghost total: int)
      requires InvAdm(Estado(), total) && TamanioDe(Estado(), n)
      modifies this, memoria
      ensures Estado() == Admision.CrearProceso(old(Estado()), n) && InvAdm(Estado(), total)
    {
      CrearProcesoInv(Estado(), total, n);
      nuevos := nuevos + [Pcb(processId, n)];
      processId := processId + 1;
      if |nuevos| == 1 {
        var _ := PreguntarAMemoriaParaInicializacion();
      }
    }

    /** The loop ends: each round that goes on takes one process out of NEW. */
    method ReplanificarCreacionProceso()
      modifies this, memoria
      ensures Estado() == Replanificar(old(Estado()))
      ensures |nuevos| <= |old(nuevos)|
    {
      var logro := true;
      while logro
        invariant |nuevos| <= |old(nuevos)|
        invariant (if logro then Replanificar(Estado()) else Estado()) == Replanificar(old(Estado()))
        decreases |nuevos|, logro
      {
        if nuevos != [] {
          logro := PreguntarAMemoriaParaInicializacion();
        } else {
          logro := false;
        }
      }
    }

    method FinalizarProceso(pid: int, ghost total: int)
      requires InvAdm(Estado(), total) && Guarda(Estado(), Termina(pid))
      modifies this, memoria
      ensures Estado() == Admision.FinalizarProceso(old(Estado()), pid) && InvAdm(Estado(), total)
    {
      FinalizarProcesoInv(Estado(), total, pid);
      if pid in salida || pid !in enMemoria { return; }
      assert Residente(memoria.Estado(), pid);
      memoria.AtenderFinalizacionProceso(pid, total);
      ReplanificarCreacionProceso();
      enMemoria := Quitar(enMemoria, pid);
      salida := salida + [pid];
    }
  }

  // ---- eliminar_hilos ----

  /** The elements at odd positions. */
  function Impares<T>(xs: seq<T>): seq<T> {
    if |xs| < 2 then [] else [xs[1]] + Impares(xs[2..])
  }

  lemma {:induction false} QuitarLargo(xs: seq<int>, x: int)
    requires x in xs
    ensures |Quitar(xs, x)| == |xs| - 1
  {
    if xs[0] == x {
      // base case
    } else {
      QuitarLargo(xs[1..], x);
    }
  }

  /** All the threads of a process end exactly when it has at most one besides thread 0. */
  lemma TodosTerminan(lista: seq<int>)
    requires 0 in lista
    ensures Impares(Quitar(lista, 0)) == [] <==> |lista| <= 2
  {
    QuitarLargo(lista, 0);
  }

  /** With two threads besides thread 0 one survives its process. */
  lemma UnoSobrevive()
    ensures Impares(Quitar([0, 1, 2], 0)) == [2]
  {
    assert Quitar([0, 1, 2], 0) == [1, 2];
    assert [1, 2][2..] == [];
  }

  function Pares<T>(xs: seq<T>): seq<T> {
    if xs == [] then [] else if |xs| == 1 then xs else [xs[0]] + Pares(xs[2..])
  }

  lemma QuitarEnMedio(p: seq<int>, r: seq<int>)
    requires SinRepetidos(p + r) && r != []
    ensures Quitar(p + r, r[0]) == p + r[1..]
  {
    var xs := p + r;
    assert xs[|p|] == r[0] && xs[..|p|] == p && xs[|p| + 1..] == r[1..];
    assert forall k :: 0 <= k < |p| ==> xs[k] == p[k];
    QuitarEnPosicion(xs, |p|);
  }

  /** One round more: of the next two elements the first goes and the second stays. */
  lemma {:induction false} DosMas(xs: seq<int>, a: int, b: int)
    requires |xs| % 2 == 0
    ensures Impares(xs + [a, b]) == Impares(xs) + [b] && Pares(xs + [a, b]) == Pares(xs) + [a]
    ensures |Impares(xs)| == |xs| / 2
  {
    if xs == [] {
      // base case
    } else {
      DosMas(xs[2..], a, b);
      assert (xs + [a, b])[2..] == xs[2..] + [a, b];
    }
  }

  lemma {:induction false} UnoMas(xs: seq<int>, a: int)
    requires |xs| % 2 == 0
    ensures Impares(xs + [a]) == Impares(xs) && Pares(xs + [a]) == Pares(xs) + [a]
  {
    if xs == [] {
      // base case
    } else {
      UnoMas(xs[2..], a);
      assert (xs + [a])[2..] == xs[2..] + [a];
    }
  }

  lemma {:induction false} ImparesLargo(xs: seq<int>)
    ensures |Impares(xs)| == |xs| / 2
  {
    if |xs| < 2 {
      // base case
    } else {
      ImparesLargo(xs[2..]);
    }
  }

  /** Before round i: the survivors of the threads passed over, then those that the loop has not reached. */
  predicate Ronda(lista: seq<int>, fin: seq<int>, antes: seq<int>, hecho: seq<int>, falta: seq<int>, i: nat) {
    && lista == Impares(hecho) + falta && fin == antes + Pares(hecho)
    && (|hecho| == 2 * i || (|hecho| == 2 * i - 1 && falta == []))
  }

  lemma RondaLargo(lista: seq<int>, fin: seq<int>, antes: seq<int>, hecho: seq<int>, falta: seq<int>, i: nat)
    requires Ronda(lista, fin, antes, hecho, falta, i)
    ensures i < |lista| <==> falta != []
    ensures falta != [] ==> |hecho| == 2 * i && lista[i] == falta[0]
  {
    ImparesLargo(hecho);
  }

  lemma RondaDos(lista: seq<int>, fin: seq<int>, antes: seq<int>, hecho: seq<int>, a: int, b: int, t: seq<int>, i: nat)
    requires Ronda(lista, fin, antes, hecho, [a, b] + t, i) && SinRepetidos(lista)
    ensures Ronda(Quitar(lista, a), fin + [a], antes, hecho + [a, b], t, i + 1)
  {
    QuitarPar(Impares(hecho), a, b, t);
    DosMas(hecho, a, b);
    assert (fin + [a]) == antes + (Pares(hecho) + [a]);
  }

  lemma QuitarPar(p: seq<int>, a: int, b: int, t: seq<int>)
    requires SinRepetidos(p + ([a, b] + t))
    ensures Quitar(p + ([a, b] + t), a) == (p + [b]) + t
  {
    QuitarEnMedio(p, [a, b] + t);
    assert ([a, b] + t)[1..] == [b] + t;
    Corrida(p, b, [b] + t, t);
  }

  lemma RondaUno(lista: seq<int>, fin: seq<int>, antes: seq<int>, hecho: seq<int>, a: int, i: nat)
    requires Ronda(lista, fin, antes, hecho, [a], i) && SinRepetidos(lista)
    ensures Ronda(Quitar(lista, a), fin + [a], antes, hecho + [a], [], i + 1)
  {
    QuitarEnMedio(Impares(hecho), [a]);
    assert [a][1..] == [];
    UnoMas(hecho, a);
  }

  lemma Turno(lista: seq<int>, fin: seq<int>, antes: seq<int>, hecho: seq<int>, falta: seq<int>, i: nat)
    returns (h: seq<int>, f: seq<int>)
    requires Ronda(lista, fin, antes, hecho, falta, i) && SinRepetidos(lista) && falta != []
    ensures Ronda(Quitar(lista, falta[0]), fin + [falta[0]], antes, h, f, i + 1)
    ensures h + f == hecho + falta && |f| < |falta|
  {
    if |falta| >= 2 {
      h, f := hecho + [falta[0], falta[1]], falta[2..];
      assert falta == [falta[0], falta[1]] + f;
      RondaDos(lista, fin, antes, hecho, falta[0], falta[1], f, i);
    } else {
      h, f := hecho + [falta[0]], [];
      assert falta == [falta[0]];
      RondaUno(lista, fin, antes, hecho, falta[0], i);
    }
  }

  lemma Corrida(p: seq<int>, x: int, q: seq<int>, t: seq<int>)
    requires q == [x] + t
    ensures p + q == (p + [x]) + t
  {
  }

  lemma {:induction false} ImparesMiembros<T>(xs: seq<T>, x: T)
    requires SinRepetidos(xs)
    ensures x in Impares(xs) <==> exists k :: 0 <= k < |xs| && k % 2 == 1 && xs[k] == x
  {
    if |xs| < 2 {
      // base case
    } else {
      ImparesMiembros(xs[2..], x);
      if k :| 0 <= k < |xs| && k % 2 == 1 && xs[k] == x {
        if k >= 2 { assert xs[2..][k - 2] == x && (k - 2) % 2 == 1; }
      }
      if k :| 0 <= k < |xs[2..]| && k % 2 == 1 && xs[2..][k] == x {
        assert xs[k + 2] == x && (k + 2) % 2 == 1;
      }
    }
  }

  /** lista_id_hilo of a process, from which finalizar_hilo removes the thread it ends. */
  class HilosDeProceso {
    var lista: seq<int>
    var finalizados: seq<int>

    constructor (tids: seq<int>)
      ensures lista == tids && finalizados == []
    {
      lista, finalizados := tids, [];
    }

    method FinalizarHilo(tid: int)
      modifies this
      ensures lista == Quitar(old(lista), tid) && finalizados == old(finalizados) + [tid]
    {
      lista := Quitar(lista, tid);
      finalizados := finalizados + [tid];
    }

    /** The index advances over a list that each end shortens: every other thread is skipped. Not ok is the null
        dereference at the end, when thread 0 is not in the list. */
    method EliminarHilos() returns (ok: bool)
      requires SinRepetidos(lista)
      modifies this
      ensures ok <==> 0 in old(lista)
      ensures lista == Impares(Quitar(old(lista), 0))
      ensures finalizados == old(finalizados) + Pares(Quitar(old(lista), 0)) + (if ok then [0] else [])
    {
      ok := 0 in lista;
      QuitarMiembros(lista, 0);
      lista := Quitar(lista, 0);
      ghost var antes, resto := finalizados, lista;
      ghost var hecho, falta: seq<int> := [], lista;
      var i := 0;
      while i < |lista|
        invariant SinRepetidos(lista) && 0 !in lista && resto == hecho + falta
        invariant 0 <= i && Ronda(lista, finalizados, antes, hecho, falta, i)
        decreases |falta|
      {
        RondaLargo(lista, finalizados, antes, hecho, falta, i);
        QuitarMiembros(lista, lista[i]);
        ghost var h, f := Turno(lista, finalizados, antes, hecho, falta, i);
        FinalizarHilo(lista[i]);
        hecho, falta, i := h, f, i + 1;
      }
      RondaLargo(lista, finalizados, antes, hecho, falta, i);
      assert hecho == resto && lista == Impares(resto);
      if ok {
        QuitarAusente(lista, 0);
        FinalizarHilo(0);
      }
    }
  }
}
