/** The memory server's allocator: processes in, processes out, on a partition list kept in no particular order. */
module Memoria {
  import opened Listas
  import opened Particiones

  datatype Esquema = FIJAS | DINAMICAS

  /** t_proceso without the highest written address. */
  datatype Proceso = Proceso(pid: int, base: int, limite: int, particionId: int)

  datatype Mem = Mem(esquema: Esquema, busqueda: Busqueda, parts: seq<Particion>, procs: seq<Proceso>, siguienteId: int)

  // ---- Lookups ----

  function BuscarProceso(procs: seq<Proceso>, pid: int): (r: Option<nat>)
    ensures r.Some? ==> r.value < |procs| && procs[r.value].pid == pid
    ensures r.None? ==> forall k :: 0 <= k < |procs| ==> procs[k].pid != pid
  {
    if procs == [] then None
    else if procs[0].pid == pid then Some(0)
    else
      var r := BuscarProceso(procs[1..], pid);
      if r.Some? then Some(r.value + 1) else None
  }

  function BuscarParticion(ps: seq<Particion>, id: int): (r: Option<nat>)
    ensures r.Some? ==> r.value < |ps| && ps[r.value].id == id
    ensures r.None? ==> forall k :: 0 <= k < |ps| ==> ps[k].id != id
  {
    if ps == [] then None
    else if ps[0].id == id then Some(0)
    else
      var r := BuscarParticion(ps[1..], id);
      if r.Some? then Some(r.value + 1) else None
  }

  function BuscarPorBaseYLimite(ps: seq<Particion>, base: int, limite: int): (r: Option<nat>)
    ensures r.Some? ==> r.value < |ps| && ps[r.value].base == base && ps[r.value].limite == limite
    ensures r.None? ==> forall k :: 0 <= k < |ps| ==> !(ps[k].base == base && ps[k].limite == limite)
  {
    if ps == [] then None
    else if ps[0].base == base && ps[0].limite == limite then Some(0)
    else
      var r := BuscarPorBaseYLimite(ps[1..], base, limite);
      if r.Some? then Some(r.value + 1) else None
  }

  // ---- Handlers ----

  /** iniciar_particiones for DINAMICAS. */
  function InicialDinamica(b: Busqueda, total: int): Mem {
    Mem(DINAMICAS, b, [Particion(0, total, 0, total - 1, None)], [], 1)
  }

  /** iniciar_particiones for FIJAS, from the i-th configured size on. */
  function Fijas(tamanios: seq<int>, i: nat, base: int): seq<Particion>
    requires i <= |tamanios|
    decreases |tamanios| - i
  {
    if i == |tamanios| then []
    else [Particion(i, tamanios[i], base, base + tamanios[i] - 1, None)] + Fijas(tamanios, i + 1, base + tamanios[i])
  }

  function InicialFija(b: Busqueda, tamanios: seq<int>): Mem {
    Mem(FIJAS, b, Fijas(tamanios, 0, 0), [], 1)
  }

  function CrearFijo(m: Mem, pid: int, i: nat): Mem
    requires i < |m.parts|
  {
    var p := m.parts[i];
    m.(procs := m.procs + [Proceso(pid, p.base, p.base + p.tamanio - 1, p.id)],
       parts := m.parts[i := p.(dueno := Some(pid))])
  }

  /** What a larger partition leaves over becomes a new free one at the end of the list. */
  function CrearDinamico(m: Mem, pid: int, i: nat, n: int): Mem
    requires i < |m.parts|
  {
    var p := m.parts[i];
    var pr := Proceso(pid, p.base, p.base + n - 1, p.id);
    var m1 := m.(procs := m.procs + [pr]);
    if p.tamanio > n then
      var q := p.(tamanio := n, limite := pr.limite, dueno := Some(pid));
      m1.(parts := m.parts[i := q] + [Particion(m.siguienteId, p.tamanio - n, pr.limite + 1, p.limite, None)],
          siguienteId := m.siguienteId + 1)
    else m1.(parts := m.parts[i := p.(dueno := Some(pid))])
  }

  function AtenderCreacion(m: Mem, pid: int, n: int): (Mem, bool) {
    match Elegir(m.parts, n, m.busqueda, 0, None)
    case None => (m, false)
    case Some(i) => (if m.esquema.FIJAS? then CrearFijo(m, pid, i) else CrearDinamico(m, pid, i, n), true)
  }

  /** finalizar_proceso: the partition is freed and the process forgotten. */
  function Soltar(m: Mem, k: nat, i: nat): Mem
    requires k < |m.procs| && i < |m.parts|
  {
    m.(parts := m.parts[i := m.parts[i].(dueno := None)], procs := m.procs[..k] + m.procs[k + 1..])
  }

  function AtenderFinalizacion(m: Mem, pid: int): Mem {
    match BuscarProceso(m.procs, pid)
    case None => m
    case Some(k) =>
      match BuscarParticion(m.parts, m.procs[k].particionId)
      case None => m
      case Some(i) =>
        var m1 := Soltar(m, k, i);
        if m.esquema.DINAMICAS? then m1.(parts := Unificar(Ordenar(m1.parts))) else m1
  }

  // ---- Invariant ----

  predicate Corresponde(p: Particion, pr: Proceso) {
    p.id == pr.particionId && p.dueno == Some(pr.pid) && p.base == pr.base && p.limite == pr.limite
  }

  predicate PidsUnicos(procs: seq<Proceso>) {
    forall j, k :: 0 <= j < k < |procs| ==> procs[j].pid != procs[k].pid
  }

  predicate IdsUnicos(ps: seq<Particion>) {
    forall p, q :: p in ps && q in ps && p.id == q.id ==> p == q
  }

  /** Occupied partitions and resident processes, one for one, at the same addresses. */
  predicate Biyeccion(ps: seq<Particion>, procs: seq<Proceso>) {
    && PidsUnicos(procs) && IdsUnicos(ps)
    && (forall pr :: pr in procs ==> exists p :: p in ps && Corresponde(p, pr))
    && (forall p :: p in ps && !Libre(p) ==> exists pr :: pr in procs && Corresponde(p, pr))
  }

  /** The state with its partitions in address order: the list itself is in whatever order splits left it. */
  predicate InvOrd(s: seq<Particion>, procs: seq<Proceso>, esquema: Esquema, siguienteId: int, total: int) {
    && Tesela(s, 0, total)
    && (esquema.DINAMICAS? ==> SinJuntables(s) && IdsMenores(s, siguienteId))
    && Biyeccion(s, procs)
    && |Ocupadas(s)| == |procs|
  }

  predicate IdsMenores(s: seq<Particion>, siguienteId: int) {
    forall p :: p in s ==> p.id < siguienteId
  }

  predicate Inv(m: Mem, total: int) {
    InvOrd(Ordenar(m.parts), m.procs, m.esquema, m.siguienteId, total)
  }

  /** The position in address order of the i-th partition of the list. */
  lemma Posicion(m: Mem, total: int, i: nat) returns (k: nat)
    requires Inv(m, total) && i < |m.parts|
    ensures k < |Ordenar(m.parts)| && Ordenar(m.parts)[k] == m.parts[i]
  {
    OrdenarMiembros(m.parts);
    var s := Ordenar(m.parts);
    assert m.parts[i] in s;
    k :| 0 <= k < |s| && s[k] == m.parts[i];
  }

  function Poner(s: seq<Particion>, k: nat, nuevos: seq<Particion>): seq<Particion>
    requires k < |s|
  {
    s[..k] + nuevos + s[k + 1..]
  }

  lemma MultisetPoner(s: seq<Particion>, k: nat, nuevos: seq<Particion>)
    requires k < |s|
    ensures multiset(Poner(s, k, nuevos)) == multiset(s) - multiset{s[k]} + multiset(nuevos)
  {
    assert s == s[..k] + [s[k]] + s[k + 1..];
  }

  lemma TeselaPoner(s: seq<Particion>, total: int, k: nat, nuevos: seq<Particion>)
    requires Tesela(s, 0, total) && k < |s| && Tesela(nuevos, s[k].base, s[k].limite + 1)
    ensures Tesela(Poner(s, k, nuevos), 0, total)
  {
    Pieza(s, 0, total, k);
    TeselaPartir(s, k, 0, total);
    assert s[k..][1..] == s[k + 1..];
    TeselaUnir(s[..k], nuevos, 0, s[k].base, s[k].limite + 1);
    TeselaUnir(s[..k] + nuevos, s[k + 1..], 0, s[k].limite + 1, total);
  }

  /** Replacing a partition by others that fill its addresses is the same replacement in address order. */
  lemma Reemplazar(ps: seq<Particion>, qs: seq<Particion>, total: int, k: nat, nuevos: seq<Particion>)
    requires Tesela(Ordenar(ps), 0, total) && k < |Ordenar(ps)|
    requires Tesela(nuevos, Ordenar(ps)[k].base, Ordenar(ps)[k].limite + 1)
    requires multiset(qs) == multiset(ps) - multiset{Ordenar(ps)[k]} + multiset(nuevos)
    ensures Ordenar(qs) == Poner(Ordenar(ps), k, nuevos) && Tesela(Ordenar(qs), 0, total)
  {
    OrdenarOrdena(ps);
    TeselaPoner(Ordenar(ps), total, k, nuevos);
    TeselaForma(Poner(Ordenar(ps), k, nuevos), 0, total);
    MultisetPoner(Ordenar(ps), k, nuevos);
    OrdenUnico(Poner(Ordenar(ps), k, nuevos), qs);
  }

  lemma MultisetCambio(ps: seq<Particion>, i: nat, q: Particion, mas: seq<Particion>)
    requires i < |ps|
    ensures multiset(ps[i := q] + mas) == multiset(ps) - multiset{ps[i]} + multiset([q] + mas)
  {
    assert ps == ps[..i] + [ps[i]] + ps[i + 1..];
    assert ps[i := q] + mas == ps[..i] + [q] + ps[i + 1..] + mas;
  }

  /** The same for a list: the first of the new ones takes the place of the old, the others go to the end. */
  lemma ReemplazarEn(ps: seq<Particion>, total: int, i: nat, k: nat, nuevos: seq<Particion>)
    requires Tesela(Ordenar(ps), 0, total) && k < |Ordenar(ps)| && i < |ps| && Ordenar(ps)[k] == ps[i]
    requires nuevos != [] && Tesela(nuevos, ps[i].base, ps[i].limite + 1)
    ensures var qs := ps[i := nuevos[0]] + nuevos[1..];
            Ordenar(qs) == Poner(Ordenar(ps), k, nuevos) && Tesela(Ordenar(qs), 0, total)
  {
    MultisetCambio(ps, i, nuevos[0], nuevos[1..]);
    assert [nuevos[0]] + nuevos[1..] == nuevos;
    Reemplazar(ps, ps[i := nuevos[0]] + nuevos[1..], total, k, nuevos);
  }

  lemma PonerMiembros(s: seq<Particion>, total: int, k: nat, nuevos: seq<Particion>)
    requires Tesela(s, 0, total) && k < |s|
    ensures forall p :: p in Poner(s, k, nuevos) <==> (p in s && p != s[k]) || p in nuevos
  {
    TeselaForma(s, 0, total);
    var t := Poner(s, k, nuevos);
    forall p | p in s && p != s[k] ensures p in t {
      var j :| 0 <= j < |s| && s[j] == p;
      assert p in s[..k] || p in s[k + 1..] by {
        if j < k { assert s[..k][j] == p; } else { assert s[k + 1..][j - k - 1] == p; }
      }
    }
  }

  lemma {:induction false} OcupadasUnir(s: seq<Particion>, t: seq<Particion>)
    ensures Ocupadas(s + t) == Ocupadas(s) + Ocupadas(t)
  {
    if s == [] {
      assert s + t == t;
    } else {
      OcupadasUnir(s[1..], t);
      assert (s + t)[1..] == s[1..] + t;
    }
  }

  lemma OcupadasPoner(s: seq<Particion>, k: nat, nuevos: seq<Particion>)
    requires k < |s|
    ensures |Ocupadas(Poner(s, k, nuevos))| == |Ocupadas(s)| - |Ocupadas([s[k]])| + |Ocupadas(nuevos)|
  {
    OcupadasUnir(s[..k], nuevos);
    OcupadasUnir(s[..k] + nuevos, s[k + 1..]);
    assert s == s[..k] + [s[k]] + s[k + 1..];
    OcupadasUnir(s[..k], [s[k]]);
    OcupadasUnir(s[..k] + [s[k]], s[k + 1..]);
  }

  // ---- Creation keeps the invariant ----

  /** The chosen partition as it becomes, with what is left over of it. */
  function Nuevos(m: Mem, p: Particion, pid: int, n: int): seq<Particion> {
    if m.esquema.DINAMICAS? && p.tamanio > n then
      [p.(tamanio := n, limite := p.base + n - 1, dueno := Some(pid)),
       Particion(m.siguienteId, p.tamanio - n, p.base + n, p.limite, None)]
    else [p.(dueno := Some(pid))]
  }

  lemma EleccionCabe(m: Mem, n: int)
    ensures var r := Elegir(m.parts, n, m.busqueda, 0, None);
            && (r.Some? ==> Cabe(m.parts[r.value], n))
            && (r.None? ==> forall p :: p in m.parts ==> !Cabe(p, n))
  {
    EleccionDesde(m.parts, n, m.busqueda, 0, None);
  }

  lemma CrearNuevos(m: Mem, pid: int, n: int, i: nat)
    requires Elegir(m.parts, n, m.busqueda, 0, None) == Some(i)
    ensures var nuevos := Nuevos(m, m.parts[i], pid, n);
            AtenderCreacion(m, pid, n).0.parts == m.parts[i := nuevos[0]] + nuevos[1..]
  {
  }

  /** A creation in address order: one partition becomes Nuevos. */
  lemma CrearOrdenado(m: Mem, total: int, pid: int, n: int, i: nat) returns (k: nat)
    requires Inv(m, total) && n >= 1 && Elegir(m.parts, n, m.busqueda, 0, None) == Some(i)
    ensures Cabe(m.parts[i], n)
    ensures k < |Ordenar(m.parts)| && Ordenar(m.parts)[k] == m.parts[i]
    ensures var r := AtenderCreacion(m, pid, n).0;
            && Ordenar(r.parts) == Poner(Ordenar(m.parts), k, Nuevos(m, m.parts[i], pid, n))
            && Tesela(Ordenar(r.parts), 0, total)
  {
    EleccionCabe(m, n);
    k := Posicion(m, total, i);
    Pieza(Ordenar(m.parts), 0, total, k);
    CrearNuevos(m, pid, n, i);
    TeselaNuevos(m, m.parts[i], pid, n);
    ReemplazarEn(m.parts, total, i, k, Nuevos(m, m.parts[i], pid, n));
  }

  lemma TeselaNuevos(m: Mem, p: Particion, pid: int, n: int)
    requires 1 <= n <= p.tamanio && p.limite == p.base + p.tamanio - 1
    ensures Tesela(Nuevos(m, p, pid, n), p.base, p.limite + 1)
  {
    var nuevos := Nuevos(m, p, pid, n);
    assert |nuevos| == 2 ==> nuevos[1..][1..] == [] && nuevos[1..][0] == nuevos[1];
    assert |nuevos| == 1 ==> nuevos[1..] == [];
  }

  /** The owner goes in between: what is left over is free, but the partition after it was not. */
  lemma PonerSinJuntables(m: Mem, s: seq<Particion>, total: int, k: nat, pid: int, n: int)
    requires Tesela(s, 0, total) && SinJuntables(s) && k < |s| && Libre(s[k]) && 1 <= n
    ensures SinJuntables(Poner(s, k, Nuevos(m, s[k], pid, n)))
  {
    var nuevos := Nuevos(m, s[k], pid, n);
    var t := Poner(s, k, nuevos);
    var d := |nuevos| - 1;
    assert forall j :: 0 <= j < k ==> t[j] == s[j];
    assert forall j :: k < j < |s| ==> t[j + d] == s[j];
    assert t[k] == nuevos[0] && t[k + d] == nuevos[d];
    if k + 1 < |s| {
      Sigue(s, 0, total, k);
      assert !Juntables(s[k], s[k + 1]);
    }
    forall j | 0 <= j < |t| - 1 ensures !Juntables(t[j], t[j + 1]) {
      if j < k - 1 { assert t[j] == s[j] && t[j + 1] == s[j + 1]; }
      if j > k + d { assert t[j] == s[j - d] && t[j + 1] == s[j - d + 1]; }
    }
  }

  lemma CreacionInv(m: Mem, total: int, pid: int, n: int)
    requires Inv(m, total) && n >= 1 && BuscarProceso(m.procs, pid).None?
    ensures Inv(AtenderCreacion(m, pid, n).0, total)
  {
    var c := Elegir(m.parts, n, m.busqueda, 0, None);
    if c.Some? {
      var i := c.value;
      var k := CrearOrdenado(m, total, pid, n, i);
      CrearProceso(m, total, pid, n, i, k);
      CreacionOrd(m, Ordenar(m.parts), total, k, pid, n, AtenderCreacion(m, pid, n).0.procs[|m.procs|]);
    }
  }

  lemma CreacionOrd(m: Mem, s: seq<Particion>, total: int, k: nat, pid: int, n: int, pr: Proceso)
    requires InvOrd(s, m.procs, m.esquema, m.siguienteId, total) && n >= 1 && BuscarProceso(m.procs, pid).None?
    requires k < |s| && Cabe(s[k], n) && pr.pid == pid && Corresponde(Nuevos(m, s[k], pid, n)[0], pr)
    requires Tesela(Poner(s, k, Nuevos(m, s[k], pid, n)), 0, total)
    ensures var nuevos := Nuevos(m, s[k], pid, n);
            InvOrd(Poner(s, k, nuevos), m.procs + [pr], m.esquema, m.siguienteId + |nuevos| - 1, total)
  {
    var nuevos := Nuevos(m, s[k], pid, n);
    CreacionCuenta(m, s, k, pid, n);
    if m.esquema.DINAMICAS? { PonerSinJuntables(m, s, total, k, pid, n); }
    CreacionIds(m, s, Poner(s, k, nuevos), total, k, pid, n);
    CreacionBiyeccion(m, s, Poner(s, k, nuevos), total, k, pid, n, pr);
  }

  lemma CreacionCuenta(m: Mem, s: seq<Particion>, k: nat, pid: int, n: int)
    requires k < |s| && Libre(s[k])
    ensures |Ocupadas(Poner(s, k, Nuevos(m, s[k], pid, n)))| == |Ocupadas(s)| + 1
  {
    var nuevos := Nuevos(m, s[k], pid, n);
    OcupadasPoner(s, k, nuevos);
    OcupadasUnir([nuevos[0]], nuevos[1..]);
    assert nuevos == [nuevos[0]] + nuevos[1..];
  }

  lemma CrearProceso(m: Mem, total: int, pid: int, n: int, i: nat, k: nat)
    requires Inv(m, total) && n >= 1 && Elegir(m.parts, n, m.busqueda, 0, None) == Some(i) && Cabe(m.parts[i], n)
    requires k < |Ordenar(m.parts)| && Ordenar(m.parts)[k] == m.parts[i]
    ensures var r := AtenderCreacion(m, pid, n).0;
            && |r.procs| == |m.procs| + 1 && r.procs == m.procs + [r.procs[|m.procs|]]
            && Corresponde(Nuevos(m, m.parts[i], pid, n)[0], r.procs[|m.procs|])
            && r.procs[|m.procs|].pid == pid && r.esquema == m.esquema && r.busqueda == m.busqueda
            && r.siguienteId == m.siguienteId + |Nuevos(m, m.parts[i], pid, n)| - 1
  {
    Pieza(Ordenar(m.parts), 0, total, k);
  }

  lemma CreacionIds(m: Mem, s: seq<Particion>, t: seq<Particion>, total: int, k: nat, pid: int, n: int)
    requires Tesela(s, 0, total) && k < |s| && IdsUnicos(s)
    requires m.esquema.DINAMICAS? ==> IdsMenores(s, m.siguienteId)
    requires t == Poner(s, k, Nuevos(m, s[k], pid, n))
    ensures IdsUnicos(t)
    ensures m.esquema.DINAMICAS? ==> IdsMenores(t, m.siguienteId + |Nuevos(m, s[k], pid, n)| - 1)
  {
    PonerMiembros(s, total, k, Nuevos(m, s[k], pid, n));
  }

  lemma CreacionBiyeccion(m: Mem, s: seq<Particion>, t: seq<Particion>, total: int, k: nat, pid: int, n: int, pr: Proceso)
    requires Tesela(s, 0, total) && Biyeccion(s, m.procs) && BuscarProceso(m.procs, pid).None?
    requires k < |s| && Libre(s[k]) && t == Poner(s, k, Nuevos(m, s[k], pid, n)) && IdsUnicos(t)
    requires pr.pid == pid && Corresponde(Nuevos(m, s[k], pid, n)[0], pr)
    ensures Biyeccion(t, m.procs + [pr])
  {
    var procs := m.procs + [pr];
    var nuevos := Nuevos(m, s[k], pid, n);
    PonerMiembros(s, total, k, nuevos);
    forall x | x in procs ensures exists p :: p in t && Corresponde(p, x) {
      if x in m.procs {
        var p :| p in s && Corresponde(p, x);
        assert p in t;
      } else {
        assert nuevos[0] in t;
      }
    }
    forall p | p in t && !Libre(p) ensures exists x :: x in procs && Corresponde(p, x) {
      if p in s && p != s[k] {
        var x :| x in m.procs && Corresponde(p, x);
        assert x in procs;
      } else {
        assert pr in procs;
      }
    }
  }

  // ---- Ending a process keeps the invariant ----

  function SinProceso(procs: seq<Proceso>, k: nat): seq<Proceso>
    requires k < |procs|
  {
    procs[..k] + procs[k + 1..]
  }

  /** The partition that finalizar_proceso frees, found by id, is the process's own. */
  lemma Encontrada(m: Mem, total: int, pid: int) returns (i: nat, k: nat)
    requires Inv(m, total) && BuscarProceso(m.procs, pid).Some?
    ensures var j := BuscarProceso(m.procs, pid).value;
            && BuscarParticion(m.parts, m.procs[j].particionId) == Some(i)
            && i < |m.parts| && Corresponde(m.parts[i], m.procs[j])
    ensures k < |Ordenar(m.parts)| && Ordenar(m.parts)[k] == m.parts[i]
  {
    var s := Ordenar(m.parts);
    OrdenarMiembros(m.parts);
    var j := BuscarProceso(m.procs, pid).value;
    assert m.procs[j] in m.procs;
    var p :| p in s && Corresponde(p, m.procs[j]);
    var r := BuscarParticion(m.parts, m.procs[j].particionId);
    assert p in m.parts;
    i := r.value;
    assert m.parts[i] in s;
    k := Posicion(m, total, i);
  }

  /** The freed list in address order, before coalescing. */
  lemma SoltarOrdenado(m: Mem, total: int, j: nat, i: nat, k: nat)
    requires Inv(m, total) && j < |m.procs| && i < |m.parts|
    requires k < |Ordenar(m.parts)| && Ordenar(m.parts)[k] == m.parts[i]
    ensures var libre := [m.parts[i].(dueno := None)];
            && Ordenar(Soltar(m, j, i).parts) == Poner(Ordenar(m.parts), k, libre)
            && Tesela(Poner(Ordenar(m.parts), k, libre), 0, total)
  {
    var q := m.parts[i].(dueno := None);
    Pieza(Ordenar(m.parts), 0, total, k);
    assert [q][1..] == [] && m.parts[i := q] + [] == m.parts[i := q];
    ReemplazarEn(m.parts, total, i, k, [q]);
  }

  /** InvOrd but for the neighbours. */
  predicate InvSuelto(s: seq<Particion>, procs: seq<Proceso>, esquema: Esquema, siguienteId: int, total: int) {
    && Tesela(s, 0, total)
    && (esquema.DINAMICAS? ==> IdsMenores(s, siguienteId))
    && Biyeccion(s, procs)
    && |Ocupadas(s)| == |procs|
  }

  lemma SoltarOrd(m: Mem, s: seq<Particion>, total: int, k: nat, j: nat)
    requires InvOrd(s, m.procs, m.esquema, m.siguienteId, total)
    requires k < |s| && j < |m.procs| && Corresponde(s[k], m.procs[j])
    requires Tesela(Poner(s, k, [s[k].(dueno := None)]), 0, total)
    ensures InvSuelto(Poner(s, k, [s[k].(dueno := None)]), SinProceso(m.procs, j), m.esquema, m.siguienteId, total)
  {
    var libre := [s[k].(dueno := None)];
    OcupadasPoner(s, k, libre);
    assert [s[k]][1..] == [] && libre[1..] == [];
    PonerMiembros(s, total, k, libre);
    SoltarBiyeccion(m.procs, s, Poner(s, k, libre), k, j);
  }

  lemma OtroProceso(procs: seq<Proceso>, j: nat, x: Proceso)
    requires PidsUnicos(procs) && j < |procs| && x in SinProceso(procs, j)
    ensures x in procs && x.pid != procs[j].pid
  {
    var resto := SinProceso(procs, j);
    var h :| 0 <= h < |resto| && resto[h] == x;
    assert x == procs[if h < j then h else h + 1];
  }

  lemma SoltarBiyeccion(procs: seq<Proceso>, s: seq<Particion>, t: seq<Particion>, k: nat, j: nat)
    requires Biyeccion(s, procs) && k < |s| && j < |procs| && Corresponde(s[k], procs[j])
    requires forall p :: p in t <==> (p in s && p != s[k]) || p == s[k].(dueno := None)
    ensures Biyeccion(t, SinProceso(procs, j))
  {
    var resto := SinProceso(procs, j);
    forall x | x in resto ensures exists p :: p in t && Corresponde(p, x) {
      OtroProceso(procs, j, x);
      var p :| p in s && Corresponde(p, x);
      assert p in t;
    }
    forall p | p in t && !Libre(p) ensures exists x :: x in resto && Corresponde(p, x) {
      var x :| x in procs && Corresponde(p, x);
      var h :| 0 <= h < |procs| && procs[h] == x;
      assert h != j;
      assert x in resto by {
        if h < j { assert resto[h] == x; } else { assert resto[h - 1] == x; }
      }
    }
  }

  lemma UnificarOrd(s: seq<Particion>, procs: seq<Proceso>, siguienteId: int, total: int)
    requires InvSuelto(s, procs, DINAMICAS, siguienteId, total)
    ensures InvOrd(Unificar(s), procs, DINAMICAS, siguienteId, total)
  {
    UnificarTesela(s, 0, total);
    OcupadasUnificar(s);
    OcupadasMiembros(s);
    OcupadasMiembros(Unificar(s));
    UnificarIds(s, siguienteId, total);
    UnificarBiyeccion(s, procs);
  }

  lemma MismoId(s: seq<Particion>, total: int, k: nat, h: nat)
    requires Tesela(s, 0, total) && IdsUnicos(s) && k < |Unificar(s)| && h < |Unificar(s)|
    requires Unificar(s)[k].id == Unificar(s)[h].id
    ensures k == h
  {
    var i := UnificarViene(s, k);
    var j := UnificarViene(s, h);
    assert s[i] in s && s[j] in s;
    assert Unificar(s)[k].base == Unificar(s)[h].base;
    UnificarTesela(s, 0, total);
    TeselaForma(Unificar(s), 0, total);
  }

  lemma UnificarIds(s: seq<Particion>, siguienteId: int, total: int)
    requires Tesela(s, 0, total) && IdsUnicos(s) && IdsMenores(s, siguienteId)
    ensures IdsUnicos(Unificar(s)) && IdsMenores(Unificar(s), siguienteId)
  {
    var u := Unificar(s);
    forall p, q | p in u && q in u && p.id == q.id ensures p == q {
      var k: nat :| k < |u| && u[k] == p;
      var h: nat :| h < |u| && u[h] == q;
      MismoId(s, total, k, h);
    }
    forall p | p in u ensures p.id < siguienteId {
      var k: nat :| k < |u| && u[k] == p;
      var i := UnificarViene(s, k);
    }
  }

  lemma UnificarBiyeccion(s: seq<Particion>, procs: seq<Proceso>)
    requires Biyeccion(s, procs) && IdsUnicos(Unificar(s))
    requires forall p :: p in Ocupadas(s) <==> p in s && !Libre(p)
    requires forall p :: p in Ocupadas(s) <==> p in Unificar(s) && !Libre(p)
    ensures Biyeccion(Unificar(s), procs)
  {
    forall pr | pr in procs ensures exists p :: p in Unificar(s) && Corresponde(p, pr) {
      var p :| p in s && Corresponde(p, pr);
      assert p in Ocupadas(s);
    }
    forall p | p in Unificar(s) && !Libre(p) ensures exists pr :: pr in procs && Corresponde(p, pr) {
      assert p in Ocupadas(s);
    }
  }

  /** The list after ending a process: in address order under DINAMICAS, with one partition freed and then coalesced. */
  lemma FinalizarOrdenado(m: Mem, total: int, pid: int) returns (j: nat, i: nat, k: nat)
    requires Inv(m, total) && BuscarProceso(m.procs, pid).Some?
    ensures j < |m.procs| && k < |Ordenar(m.parts)| && m.procs[j].pid == pid
    ensures Corresponde(Ordenar(m.parts)[k], m.procs[j])
    ensures BuscarProceso(m.procs, pid) == Some(j) && BuscarParticion(m.parts, m.procs[j].particionId) == Some(i)
    ensures i < |m.parts| && Ordenar(m.parts)[k] == m.parts[i]
    ensures var t := Poner(Ordenar(m.parts), k, [Ordenar(m.parts)[k].(dueno := None)]);
            var r := AtenderFinalizacion(m, pid);
            && Ordenar(Soltar(m, j, i).parts) == t
            && r == Soltar(m, j, i).(parts := r.parts)
            && r.parts == (if m.esquema.DINAMICAS? then Unificar(t) else m.parts[i := m.parts[i].(dueno := None)])
            && InvSuelto(t, r.procs, m.esquema, m.siguienteId, total)
  {
    i, k := Encontrada(m, total, pid);
    j := BuscarProceso(m.procs, pid).value;
    SoltarOrdenado(m, total, j, i, k);
    SoltarOrd(m, Ordenar(m.parts), total, k, j);
  }

  lemma FinalizacionInv(m: Mem, total: int, pid: int)
    requires Inv(m, total) && BuscarProceso(m.procs, pid).Some?
    ensures Inv(AtenderFinalizacion(m, pid), total)
  {
    var j, i, k := FinalizarOrdenado(m, total, pid);
    var t := Poner(Ordenar(m.parts), k, [Ordenar(m.parts)[k].(dueno := None)]);
    if m.esquema.DINAMICAS? {
      UnificarOrd(t, AtenderFinalizacion(m, pid).procs, m.siguienteId, total);
      YaOrdenada(Unificar(t), total);
    }
  }

  lemma YaOrdenada(s: seq<Particion>, total: int)
    requires Tesela(s, 0, total)
    ensures Ordenar(s) == s
  {
    TeselaForma(s, 0, total);
    OrdenUnico(s, s);
  }
}
