/** The memory server as the program has it: one list of partitions searched by iterators, split, sorted and merged
    in place. Every method is proved to be its function in Memoria. */
module MemoriaMaquina {
  import opened Listas
  import opened Particiones
  import opened Memoria

  /** obtener_primera_particion_libre. */
  method ObtenerPrimeraParticionLibre(ps: seq<Particion>, n: int) returns (r: Option<nat>)
    ensures r == Elegir(ps, n, FIRST, 0, None)
    ensures EsEleccion(ps, n, FIRST, |ps|, r)
    ensures r.Some? ==> Cabe(ps[r.value], n) && forall j: nat :: j < |ps| && Cabe(ps[j], n) ==> r.value <= j
  {
    EleccionDesde(ps, n, FIRST, 0, None);
    for i := 0 to |ps|
      invariant Elegir(ps, n, FIRST, i, None) == Elegir(ps, n, FIRST, 0, None)
    {
      if Cabe(ps[i], n) {
        PrimeraQueda(ps, n, i + 1, i);
        return Some(i);
      }
    }
    return None;
  }

  /** obtener_peor_particion_libre: a running largest, replaced only by a larger one. */
  method ObtenerPeorParticionLibre(ps: seq<Particion>, n: int) returns (r: Option<nat>)
    ensures r == Elegir(ps, n, WORST, 0, None)
    ensures EsEleccion(ps, n, WORST, |ps|, r)
    ensures r.Some? ==> Cabe(ps[r.value], n) && forall j: nat :: j < |ps| && Cabe(ps[j], n) ==>
              ps[r.value].tamanio >= ps[j].tamanio && (j < r.value ==> ps[r.value].tamanio > ps[j].tamanio)
  {
    EleccionDesde(ps, n, WORST, 0, None);
    r := None;
    for i := 0 to |ps|
      invariant r.Some? ==> r.value < i
      invariant Elegir(ps, n, WORST, i, r) == Elegir(ps, n, WORST, 0, None)
    {
      if Cabe(ps[i], n) && (r.None? || ps[i].tamanio > ps[r.value].tamanio) { r := Some(i); }
    }
  }

  /** obtener_mejor_particion_libre: a running smallest, replaced only by a smaller one. */
  method ObtenerMejorParticionLibre(ps: seq<Particion>, n: int) returns (r: Option<nat>)
    ensures r == Elegir(ps, n, BEST, 0, None)
    ensures EsEleccion(ps, n, BEST, |ps|, r)
    ensures r.Some? ==> Cabe(ps[r.value], n) && forall j: nat :: j < |ps| && Cabe(ps[j], n) ==>
              ps[r.value].tamanio <= ps[j].tamanio && (j < r.value ==> ps[r.value].tamanio < ps[j].tamanio)
  {
    EleccionDesde(ps, n, BEST, 0, None);
    r := None;
    for i := 0 to |ps|
      invariant r.Some? ==> r.value < i
      invariant Elegir(ps, n, BEST, i, r) == Elegir(ps, n, BEST, 0, None)
    {
      if Cabe(ps[i], n) && (r.None? || ps[i].tamanio < ps[r.value].tamanio) { r := Some(i); }
    }
  }

  method BuscarParticionPorId(ps: seq<Particion>, id: int) returns (r: Option<nat>)
    ensures r == BuscarParticion(ps, id)
  {
    assert ps[0..] == ps;
    for i := 0 to |ps|
      invariant BuscarParticion(ps, id) == Corrida(i, BuscarParticion(ps[i..], id))
    {
      assert ps[i..][1..] == ps[i + 1..];
      if ps[i].id == id { return Some(i); }
    }
    return None;
  }

  method BuscarParticionPorBaseYLimite(ps: seq<Particion>, base: int, limite: int) returns (r: Option<nat>)
    ensures r == BuscarPorBaseYLimite(ps, base, limite)
  {
    assert ps[0..] == ps;
    for i := 0 to |ps|
      invariant BuscarPorBaseYLimite(ps, base, limite) == Corrida(i, BuscarPorBaseYLimite(ps[i..], base, limite))
    {
      assert ps[i..][1..] == ps[i + 1..];
      if ps[i].base == base && ps[i].limite == limite { return Some(i); }
    }
    return None;
  }

  /** An index found in the rest of a list, as an index of the whole. */
  function Corrida(i: nat, r: Option<nat>): Option<nat> {
    if r.Some? then Some(i + r.value) else None
  }

  lemma UnaFija(ps: seq<Particion>, tamanios: seq<int>, i: nat, base: int)
    requires i < |tamanios|
    ensures ps + Fijas(tamanios, i, base)
            == (ps + [Particion(i, tamanios[i], base, base + tamanios[i] - 1, None)]) + Fijas(tamanios, i + 1, base + tamanios[i])
  {
  }

  class MemoriaServidor {
    const esquema: Esquema
    const busqueda: Busqueda
    var parts: seq<Particion>
    var procs: seq<Proceso>
    var siguienteId: int

    ghost function Estado(): Mem
      reads this
    {
      Mem(esquema, busqueda, parts, procs, siguienteId)
    }

    constructor Dinamica(b: Busqueda, total: int)
      ensures Estado() == InicialDinamica(b, total)
    {
      esquema, busqueda := DINAMICAS, b;
      parts, procs, siguienteId := [Particion(0, total, 0, total - 1, None)], [], 1;
    }

    constructor Fija(b: Busqueda, tamanios: seq<int>)
      ensures Estado() == InicialFija(b, tamanios)
    {
      esquema, busqueda := FIJAS, b;
      parts, procs, siguienteId := [], [], 1;
      new;
      var suma := 0;
      for i := 0 to |tamanios|
        invariant procs == [] && siguienteId == 1
        invariant parts + Fijas(tamanios, i, suma) == Fijas(tamanios, 0, 0)
      {
        UnaFija(parts, tamanios, i, suma);
        parts := parts + [Particion(i, tamanios[i], suma, suma + tamanios[i] - 1, None)];
        suma := suma + tamanios[i];
      }
    }

    method ObtenerParticionAAsignar(n: int) returns (r: Option<nat>)
      ensures r == Elegir(parts, n, busqueda, 0, None)
    {
      match busqueda
      case FIRST => r := ObtenerPrimeraParticionLibre(parts, n);
      case WORST => r := ObtenerPeorParticionLibre(parts, n);
      case BEST => r := ObtenerMejorParticionLibre(parts, n);
    }

    /** The rounds of unificar_particiones_libres_contiguas, on the sorted list: each merges the first pair of free
        neighbours and starts over, until a round finds none. */
    method UnificarParticionesLibresContiguas()
      modifies this`parts
      ensures parts == Unificar(Ordenar(old(parts)))
    {
      parts := Ordenar(parts);
      var huboCambios := true;
      while huboCambios
        invariant Unificar(parts) == Unificar(Ordenar(old(parts)))
        invariant !huboCambios ==> SinJuntables(parts)
        decreases |parts|, huboCambios
      {
        huboCambios := false;
        ghost var antes := parts;
        var i := 0;
        while i < |parts| - 1
          invariant 0 <= i && parts == antes && !huboCambios
          invariant i <= |parts| - 1 || (i == 0 && parts == [])
          invariant forall j :: 0 <= j < i ==> !Juntables(parts[j], parts[j + 1])
        {
          if Juntables(parts[i], parts[i + 1]) {
            UnificarJuntarEn(parts, i);
            parts := parts[..i] + [Juntar(parts[i], parts[i + 1])] + parts[i + 2..];
            huboCambios := true;
            break;
          }
          i := i + 1;
        }
      }
      UnificarFija(parts);
    }

    method CrearProcesoEsquemaFijo(pid: int, i: nat)
      requires i < |parts|
      modifies this
      ensures Estado() == CrearFijo(old(Estado()), pid, i)
    {
      procs := procs + [Proceso(pid, parts[i].base, parts[i].base + parts[i].tamanio - 1, parts[i].id)];
      parts := parts[i := parts[i].(dueno := Some(pid))];
    }

    method CrearProcesoEsquemaDinamico(pid: int, i: nat, n: int)
      requires i < |parts|
      modifies this
      ensures Estado() == CrearDinamico(old(Estado()), pid, i, n)
    {
      var limite := parts[i].base + n - 1;
      procs := procs + [Proceso(pid, parts[i].base, limite, parts[i].id)];
      if parts[i].tamanio > n {
        var nueva := Particion(siguienteId, parts[i].tamanio - n, limite + 1, parts[i].limite, None);
        siguienteId := siguienteId + 1;
        parts := parts + [nueva];
        parts := parts[i := parts[i].(limite := limite, tamanio := n)];
      }
      parts := parts[i := parts[i].(dueno := Some(pid))];
    }

    method AtenderCreacionProceso(pid: int, n: int) returns (ok: bool)
      modifies this
      ensures (Estado(), ok) == AtenderCreacion(old(Estado()), pid, n)
    {
      var asignada := ObtenerParticionAAsignar(n);
      match asignada
      case None => ok := false;
      case Some(i) =>
        if esquema.FIJAS? { CrearProcesoEsquemaFijo(pid, i); }
        if esquema.DINAMICAS? { CrearProcesoEsquemaDinamico(pid, i, n); }
        ok := true;
    }

    /** A process that is not resident is a null dereference in the program. */
    method AtenderFinalizacionProceso(pid: int, ghost total: int)
      requires Inv(Estado(), total) && BuscarProceso(procs, pid).Some?
      modifies this
      ensures Estado() == AtenderFinalizacion(old(Estado()), pid)
      ensures Inv(Estado(), total)
    {
      FinalizacionInv(Estado(), total, pid);
      ghost var _, _ := Encontrada(Estado(), total, pid);
      var k := BuscarProceso(procs, pid).value;
      var r := BuscarParticionPorId(parts, procs[k].particionId);
      FinalizarProceso(k, r.value);
      if esquema.DINAMICAS? { UnificarParticionesLibresContiguas(); }
    }

    method FinalizarProceso(k: nat, i: nat)
      requires k < |procs| && i < |parts|
      modifies this
      ensures Estado() == Soltar(old(Estado()), k, i)
    {
      parts := parts[i := parts[i].(dueno := None)];
      procs := procs[..k] + procs[k + 1..];
    }
  }
}
