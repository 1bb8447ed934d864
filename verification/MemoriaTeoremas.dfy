/** What the allocator promises over whole runs. */
module MemoriaTeoremas {
  import opened Listas
  import opened Particiones
  import opened Memoria

  // ---- Runs ----

  datatype Op = Crea(pid: int, tamanio: int) | Termina(pid: int)

  /** A size below one does no harm if the partitions are fixed or none is free. */
  predicate TamanioOk(m: Mem, n: int) {
    n >= 1 || m.esquema.FIJAS? || forall p :: p in m.parts ==> !Libre(p)
  }

  /** The kernel numbers processes itself and only ends residents; TamanioMinimo shows the rest to be exact. */
  predicate Guarda(m: Mem, op: Op) {
    match op
    case Crea(pid, n) => BuscarProceso(m.procs, pid).None? && TamanioOk(m, n)
    case Termina(pid) => BuscarProceso(m.procs, pid).Some?
  }

  function Paso(m: Mem, op: Op): Mem {
    match op
    case Crea(pid, n) => AtenderCreacion(m, pid, n).0
    case Termina(pid) => AtenderFinalizacion(m, pid)
  }

  function Correr(m: Mem, ops: seq<Op>): Option<Mem>
    decreases |ops|
  {
    if ops == [] then Some(m)
    else if Guarda(m, ops[0]) then Correr(Paso(m, ops[0]), ops[1..])
    else None
  }

  lemma {:induction false} CorrerInv(m: Mem, total: int, ops: seq<Op>)
    requires Inv(m, total) && Correr(m, ops).Some?
    ensures Inv(Correr(m, ops).value, total)
    decreases |ops|
  {
    if ops == [] {
      // base case
    } else {
      match ops[0] {
        case Crea(pid, n) => TamanioMinimo(m, total, pid, n);
        case Termina(pid) => FinalizacionInv(m, total, pid);
      }
      CorrerInv(Paso(m, ops[0]), total, ops[1..]);
    }
  }

  lemma InicialDinamicaInv(b: Busqueda, total: int)
    requires total >= 1
    ensures Inv(InicialDinamica(b, total), total)
  {
    var p := Particion(0, total, 0, total - 1, None);
    assert Ordenar([p]) == [p] by { assert Ordenar([p][1..]) == []; }
    assert [p][1..] == [];
  }

  function Suma(tamanios: seq<int>, i: nat): int
    requires i <= |tamanios|
    decreases |tamanios| - i
  {
    if i == |tamanios| then 0 else tamanios[i] + Suma(tamanios, i + 1)
  }

  lemma {:induction false} FijasForma(tamanios: seq<int>, i: nat, base: int)
    requires i <= |tamanios| && forall j :: 0 <= j < |tamanios| ==> tamanios[j] >= 1
    ensures var ps := Fijas(tamanios, i, base);
            && |ps| == |tamanios| - i && Tesela(ps, base, base + Suma(tamanios, i)) && Ocupadas(ps) == []
            && (forall k :: 0 <= k < |ps| ==> ps[k].id == k + i && Libre(ps[k]))
    decreases |tamanios| - i
  {
    if i == |tamanios| {
      // base case
    } else {
      FijasForma(tamanios, i + 1, base + tamanios[i]);
    }
  }

  lemma {:induction false} FijaTamanio(tamanios: seq<int>, i: nat, base: int, k: nat)
    requires i <= k < |tamanios|
    ensures |Fijas(tamanios, i, base)| == |tamanios| - i
    ensures var p := Fijas(tamanios, i, base)[k - i]; p.tamanio == tamanios[k] && Libre(p)
    decreases k - i
  {
    FijasLargo(tamanios, i, base);
    if k == i {
      // base case
    } else {
      FijaTamanio(tamanios, i + 1, base + tamanios[i], k);
    }
  }

  lemma {:induction false} FijasLargo(tamanios: seq<int>, i: nat, base: int)
    requires i <= |tamanios|
    ensures |Fijas(tamanios, i, base)| == |tamanios| - i
    decreases |tamanios| - i
  {
    if i == |tamanios| {
      // base case
    } else {
      FijasLargo(tamanios, i + 1, base + tamanios[i]);
    }
  }

  lemma InicialFijaInv(b: Busqueda, tamanios: seq<int>)
    requires forall j :: 0 <= j < |tamanios| ==> tamanios[j] >= 1
    ensures Inv(InicialFija(b, tamanios), Suma(tamanios, 0))
    ensures var ps := InicialFija(b, tamanios).parts;
            |ps| == |tamanios| && forall k :: 0 <= k < |ps| ==> ps[k].tamanio == tamanios[k] && Libre(ps[k])
  {
    FijasLargo(tamanios, 0, 0);
    forall k | 0 <= k < |tamanios|
      ensures var p := InicialFija(b, tamanios).parts[k]; p.tamanio == tamanios[k] && Libre(p)
    {
      FijaTamanio(tamanios, 0, 0, k);
    }
    var ps, total := FijasDesdeCero(tamanios);
    FijasInv(Mem(FIJAS, b, ps, [], 1), total);
  }

  lemma FijasDesdeCero(tamanios: seq<int>) returns (ps: seq<Particion>, total: int)
    requires forall j :: 0 <= j < |tamanios| ==> tamanios[j] >= 1
    ensures ps == Fijas(tamanios, 0, 0) && total == Suma(tamanios, 0)
    ensures Tesela(ps, 0, total) && Ocupadas(ps) == [] && forall k :: 0 <= k < |ps| ==> ps[k].id == k && Libre(ps[k])
  {
    ps, total := Fijas(tamanios, 0, 0), Suma(tamanios, 0);
    FijasForma(tamanios, 0, 0);
  }

  lemma FijasInv(m: Mem, total: int)
    requires m.esquema.FIJAS? && m.procs == [] && Tesela(m.parts, 0, total) && Ocupadas(m.parts) == []
    requires forall k :: 0 <= k < |m.parts| ==> m.parts[k].id == k && Libre(m.parts[k])
    ensures Inv(m, total)
  {
    YaOrdenada(m.parts, total);
    FijasIds(m.parts);
  }

  lemma FijasIds(ps: seq<Particion>)
    requires forall k :: 0 <= k < |ps| ==> ps[k].id == k && Libre(ps[k])
    ensures Biyeccion(ps, [])
  {
    forall p, q | p in ps && q in ps && p.id == q.id ensures p == q {
      var i :| 0 <= i < |ps| && ps[i] == p;
      var j :| 0 <= j < |ps| && ps[j] == q;
      assert i == j;
    }
  }

  // ---- Exact acceptance ----

  lemma ByteOrdenado(m: Mem, x: int, d: Option<int>)
    ensures ByteDe(Ordenar(m.parts), x, d) <==> ByteDe(m.parts, x, d)
  {
    OrdenarMiembros(m.parts);
    if ByteDe(m.parts, x, d) {
      var p :| p in m.parts && En(p, x) && p.dueno == d;
      assert p in Ordenar(m.parts);
    }
    if ByteDe(Ordenar(m.parts), x, d) {
      var p :| p in Ordenar(m.parts) && En(p, x) && p.dueno == d;
      assert p in m.parts;
    }
  }

  /** Under DINAMICAS a request is accepted exactly when that many consecutive free bytes exist: no fragmentation of
      the free bytes between partitions ever refuses one, whatever the search. */
  lemma AceptaSiYSoloSi(m: Mem, total: int, pid: int, n: int)
    requires Inv(m, total) && m.esquema.DINAMICAS? && n >= 1
    ensures AtenderCreacion(m, pid, n).1 <==> exists a :: CorridaLibre(m.parts, a, n)
  {
    EleccionCabe(m, n);
    var s := Ordenar(m.parts);
    var r := Elegir(m.parts, n, m.busqueda, 0, None);
    if r.Some? {
      var k := Posicion(m, total, r.value);
      Pieza(s, 0, total, k);
      var p := m.parts[r.value];
      forall x | p.base <= x < p.base + n ensures ByteDe(m.parts, x, None) { assert En(p, x); }
      assert CorridaLibre(m.parts, p.base, n);
    }
    if a :| CorridaLibre(m.parts, a, n) {
      forall x | a <= x < a + n ensures ByteDe(s, x, None) { ByteOrdenado(m, x, None); }
      CorridaEnUna(s, total, a, n);
      var p :| p in s && Libre(p) && p.base <= a && a + n - 1 <= p.limite;
      CabeEn(m, total, p, n);
    }
  }

  lemma CabeEn(m: Mem, total: int, p: Particion, n: int)
    requires Inv(m, total) && p in Ordenar(m.parts) && Libre(p) && p.limite - p.base + 1 >= n
    ensures p in m.parts && Cabe(p, n)
  {
    var s := Ordenar(m.parts);
    var k :| 0 <= k < |s| && s[k] == p;
    Pieza(s, 0, total, k);
    OrdenarMiembros(m.parts);
  }

  /** The search policy decides where, never whether. */
  lemma AceptacionSinPolitica(m: Mem, b: Busqueda, pid: int, n: int)
    ensures AtenderCreacion(m.(busqueda := b), pid, n).1 == AtenderCreacion(m, pid, n).1
  {
    EleccionDesde(m.parts, n, m.busqueda, 0, None);
    EleccionDesde(m.parts, n, b, 0, None);
  }

  predicate EnParticion(m: Mem, n: int, i: nat, pr: Proceso) {
    && EsEleccion(m.parts, n, m.busqueda, |m.parts|, Some(i))
    && pr.base == m.parts[i].base && pr.particionId == m.parts[i].id
  }

  /** Where each search puts the process: first that fits, smallest that fits, largest that fits; earliest on a tie. */
  lemma DondeVa(m: Mem, pid: int, n: int)
    ensures var (r, ok) := AtenderCreacion(m, pid, n);
            && (!ok ==> r == m && forall p :: p in m.parts ==> !Cabe(p, n))
            && (ok ==> |r.procs| == |m.procs| + 1 && r.procs[..|m.procs|] == m.procs && r.procs[|m.procs|].pid == pid
                       && exists i: nat :: EnParticion(m, n, i, r.procs[|m.procs|]))
  {
    EleccionDesde(m.parts, n, m.busqueda, 0, None);
    var c := Elegir(m.parts, n, m.busqueda, 0, None);
    if c.None? {
      forall p | p in m.parts ensures !Cabe(p, n) {}
    } else {
      assert EnParticion(m, n, c.value, AtenderCreacion(m, pid, n).0.procs[|m.procs|]);
    }
  }

  // ---- Coalescing ----

  /** After a process ends, the free partitions are the maximal free runs, the other partitions are untouched, and
      no byte changes owner but the process's own. */
  lemma LiberarCanonico(m: Mem, total: int, pid: int, a: int, b: int, x: int, d: Option<int>)
    requires Inv(m, total) && m.esquema.DINAMICAS? && BuscarProceso(m.procs, pid).Some?
    ensures var r := AtenderFinalizacion(m, pid);
            && (CorridaMaxima(r.parts, a, b) <==> exists p :: p in r.parts && Libre(p) && p.base == a && p.limite == b)
            && (ByteDe(r.parts, x, d) <==>
                if d.None? then ByteDe(m.parts, x, None) || ByteDe(m.parts, x, Some(pid))
                else d != Some(pid) && ByteDe(m.parts, x, d))
            && Creciente(r.parts)
  {
    var j, i, k := FinalizarOrdenado(m, total, pid);
    var s := Ordenar(m.parts);
    var t := Poner(s, k, [s[k].(dueno := None)]);
    UnificarTesela(t, 0, total);
    LibreEsCorrida(Unificar(t), total, a, b);
    TeselaForma(Unificar(t), 0, total);
    UnificarBytes(t, 0, total, x, d);
    PonerMiembros(s, total, k, [s[k].(dueno := None)]);
    DuenoUnico(m, total, pid, k);
    LiberarBytes(s, t, k, pid, x, d);
    ByteOrdenado(m, x, d);
    ByteOrdenado(m, x, None);
    ByteOrdenado(m, x, Some(pid));
  }

  lemma DuenoUnico(m: Mem, total: int, pid: int, k: nat)
    requires Inv(m, total) && k < |Ordenar(m.parts)| && Ordenar(m.parts)[k].dueno == Some(pid)
    ensures forall p :: p in Ordenar(m.parts) && p.dueno == Some(pid) ==> p == Ordenar(m.parts)[k]
  {
    var s := Ordenar(m.parts);
    var q := s[k];
    assert q in s;
    var y :| y in m.procs && Corresponde(q, y);
    forall p | p in s && p.dueno == Some(pid) ensures p == q {
      var x :| x in m.procs && Corresponde(p, x);
      assert x == y;
    }
  }

  lemma LiberarBytes(s: seq<Particion>, t: seq<Particion>, k: nat, pid: int, x: int, d: Option<int>)
    requires k < |s| && s[k].dueno == Some(pid) && forall p :: p in s && p.dueno == Some(pid) ==> p == s[k]
    requires forall p :: p in t <==> (p in s && p != s[k]) || p == s[k].(dueno := None)
    ensures ByteDe(t, x, d) <==> if d.None? then ByteDe(s, x, None) || ByteDe(s, x, Some(pid))
                                 else d != Some(pid) && ByteDe(s, x, d)
  {
    var q := s[k].(dueno := None);
    assert q in t && s[k] in s;
    assert En(q, x) <==> En(s[k], x);
    if ByteDe(t, x, d) {
      var p :| p in t && En(p, x) && p.dueno == d;
      assert p == q || (p in s && p != s[k]);
    }
    if d.Some? && d != Some(pid) && ByteDe(s, x, d) {
      var p :| p in s && En(p, x) && p.dueno == d;
      assert p in t;
    }
    if ByteDe(s, x, None) {
      var p :| p in s && En(p, x) && p.dueno == None;
      assert p in t;
    }
  }

  /** Occupied partitions other than the freed one come through a finish with every field as it was. */
  lemma OcupadasIntactas(m: Mem, total: int, pid: int, p: Particion)
    requires Inv(m, total) && BuscarProceso(m.procs, pid).Some? && !Libre(p)
    ensures p in AtenderFinalizacion(m, pid).parts <==> p in m.parts && p.dueno != Some(pid)
  {
    var j, i, k := FinalizarOrdenado(m, total, pid);
    var s := Ordenar(m.parts);
    var t := Poner(s, k, [s[k].(dueno := None)]);
    PonerMiembros(s, total, k, [s[k].(dueno := None)]);
    DuenoUnico(m, total, pid, k);
    OrdenarMiembros(m.parts);
    OrdenarMiembros(Soltar(m, j, i).parts);
    OcupadasUnificar(t);
    OcupadasMiembros(t);
    OcupadasMiembros(Unificar(t));
  }

  /** Coalescing is canonical: two lists over the same memory, in any order and cut in any way, with the same free
      bytes end with free partitions at the same addresses. */
  lemma FormaCanonica(ps: seq<Particion>, qs: seq<Particion>, total: int, a: int, b: int)
    requires Tesela(Ordenar(ps), 0, total) && Tesela(Ordenar(qs), 0, total)
    requires forall x :: ByteDe(Ordenar(ps), x, None) <==> ByteDe(Ordenar(qs), x, None)
    ensures HayLibre(Unificar(Ordenar(ps)), a, b) <==> HayLibre(Unificar(Ordenar(qs)), a, b)
  {
    var s, t := Ordenar(ps), Ordenar(qs);
    UnificarTesela(s, 0, total);
    UnificarTesela(t, 0, total);
    LibreEsCorrida(Unificar(s), total, a, b);
    LibreEsCorrida(Unificar(t), total, a, b);
    forall x ensures ByteDe(Unificar(s), x, None) <==> ByteDe(Unificar(t), x, None) {
      UnificarBytes(s, 0, total, x, None);
      UnificarBytes(t, 0, total, x, None);
    }
  }

  predicate HayLibre(s: seq<Particion>, a: int, b: int) {
    exists p :: p in s && Libre(p) && p.base == a && p.limite == b
  }

  // ---- Round trip ----

  /** A process that comes and goes leaves the partitions as they were, ids included: under FIJAS the very same list,
      under DINAMICAS the same list in address order. */
  lemma IdaYVuelta(m: Mem, total: int, pid: int, n: int)
    requires Inv(m, total) && TamanioOk(m, n) && BuscarProceso(m.procs, pid).None? && AtenderCreacion(m, pid, n).1
    ensures var c := AtenderCreacion(m, pid, n).0;
            AtenderFinalizacion(c, pid)
            == m.(parts := if m.esquema.FIJAS? then m.parts else Ordenar(m.parts), siguienteId := c.siguienteId)
  {
    TamanioMinimo(m, total, pid, n);
    EleccionCabe(m, n);
    var c := AtenderCreacion(m, pid, n).0;
    var i := Elegir(m.parts, n, m.busqueda, 0, None).value;
    assert m.parts[i] in m.parts;
    VueltaProceso(m, pid, n, i);
    VueltaPartes(m, total, pid, n, i);
    assert AtenderFinalizacion(c, pid).procs == m.procs;
  }

  lemma VueltaPartes(m: Mem, total: int, pid: int, n: int, i: nat)
    requires Inv(m, total) && (n >= 1 || m.esquema.FIJAS?)
    requires Elegir(m.parts, n, m.busqueda, 0, None) == Some(i) && m.parts[i].dueno == None
    requires var c := AtenderCreacion(m, pid, n).0;
             && Inv(c, total) && c.esquema == m.esquema && BuscarProceso(c.procs, pid) == Some(|m.procs|)
             && c.procs[|m.procs|].particionId == m.parts[i].id && SinProceso(c.procs, |m.procs|) == m.procs
    ensures var c := AtenderCreacion(m, pid, n).0;
            var r := AtenderFinalizacion(c, pid);
            && r.parts == (if m.esquema.FIJAS? then m.parts else Ordenar(m.parts))
            && r == c.(parts := r.parts, procs := m.procs)
  {
    var j, h, l := FinalizarOrdenado(AtenderCreacion(m, pid, n).0, total, pid);
    if m.esquema.FIJAS? {
      VueltaFija(m, total, pid, n, i, h);
    } else {
      VueltaDinamica(m, total, pid, n, i, l);
    }
  }

  lemma VueltaFija(m: Mem, total: int, pid: int, n: int, i: nat, h: nat)
    requires m.esquema.FIJAS? && Inv(AtenderCreacion(m, pid, n).0, total)
    requires Elegir(m.parts, n, m.busqueda, 0, None) == Some(i) && m.parts[i].dueno == None
    requires var c := AtenderCreacion(m, pid, n).0; h < |c.parts| && c.parts[h].id == m.parts[i].id
    ensures var c := AtenderCreacion(m, pid, n).0; c.parts[h := c.parts[h].(dueno := None)] == m.parts
  {
    var c := AtenderCreacion(m, pid, n).0;
    assert c.parts == m.parts[i := m.parts[i].(dueno := Some(pid))];
    MismaPosicion(c, total, i, h);
  }

  lemma VueltaProceso(m: Mem, pid: int, n: int, i: nat)
    requires BuscarProceso(m.procs, pid).None?
    requires Elegir(m.parts, n, m.busqueda, 0, None) == Some(i)
    ensures var c := AtenderCreacion(m, pid, n).0;
            && BuscarProceso(c.procs, pid) == Some(|m.procs|) && SinProceso(c.procs, |m.procs|) == m.procs
            && |c.parts| >= |m.parts| && c.procs[|m.procs|].particionId == m.parts[i].id
            && c.esquema == m.esquema && c.busqueda == m.busqueda && m.parts[i].dueno == None
  {
    EleccionCabe(m, n);
    var c := AtenderCreacion(m, pid, n).0;
    UltimoProceso(m.procs, c.procs[|m.procs|]);
    assert SinProceso(c.procs, |m.procs|) == m.procs;
  }

  lemma VueltaDinamica(m: Mem, total: int, pid: int, n: int, i: nat, l: nat)
    requires Inv(m, total) && n >= 1 && Inv(AtenderCreacion(m, pid, n).0, total) && m.esquema.DINAMICAS?
    requires Elegir(m.parts, n, m.busqueda, 0, None) == Some(i)
    requires var t := Ordenar(AtenderCreacion(m, pid, n).0.parts); l < |t| && t[l].id == m.parts[i].id
    ensures var t := Ordenar(AtenderCreacion(m, pid, n).0.parts);
            Unificar(Poner(t, l, [t[l].(dueno := None)])) == Ordenar(m.parts)
  {
    var k := CrearOrdenado(m, total, pid, n, i);
    var s := Ordenar(m.parts);
    var t := Poner(s, k, Nuevos(m, s[k], pid, n));
    assert t[k].id == s[k].id;
    MismaPosicionOrdenada(t, total, k, l);
    VueltaOrdenada(m, s, total, k, pid, n);
  }

  lemma {:induction false} UltimoProceso(procs: seq<Proceso>, pr: Proceso)
    requires BuscarProceso(procs, pr.pid).None?
    ensures BuscarProceso(procs + [pr], pr.pid) == Some(|procs|)
  {
    if procs == [] {
      // base case
    } else {
      assert (procs + [pr])[1..] == procs[1..] + [pr];
      UltimoProceso(procs[1..], pr);
    }
  }

  lemma MismaPosicion(c: Mem, total: int, i: nat, h: nat)
    requires Inv(c, total) && i < |c.parts| && h < |c.parts| && c.parts[i].id == c.parts[h].id
    ensures i == h
  {
    OrdenarMiembros(c.parts);
    assert c.parts[i] in Ordenar(c.parts) && c.parts[h] in Ordenar(c.parts);
    SinDobles(c, total, i, h);
  }

  lemma SinDobles(c: Mem, total: int, i: nat, h: nat)
    requires Inv(c, total) && i < |c.parts| && h < |c.parts| && c.parts[i] == c.parts[h]
    ensures i == h
  {
    TeselaForma(Ordenar(c.parts), 0, total);
    OrdenarOrdena(c.parts);
    UnaVez(Ordenar(c.parts), c.parts[i]);
    if i < h { DosVeces(c.parts, i, h); }
    if h < i { DosVeces(c.parts, h, i); }
  }

  lemma DosVeces(ps: seq<Particion>, a: nat, b: nat)
    requires a < b < |ps| && ps[a] == ps[b]
    ensures multiset(ps)[ps[a]] >= 2
  {
    assert ps == ps[..b] + ps[b..];
    assert ps[a] == ps[..b][a] && ps[b] == ps[b..][0];
    assert ps[a] in multiset(ps[..b]) && ps[b] in multiset(ps[b..]);
  }

  lemma {:induction false} UnaVez(s: seq<Particion>, p: Particion)
    requires Creciente(s)
    ensures multiset(s)[p] <= 1
  {
    if s == [] {
      // base case
    } else {
      UnaVez(s[1..], p);
      assert s == [s[0]] + s[1..];
      assert s[0] !in s[1..];
    }
  }

  lemma MismaPosicionOrdenada(t: seq<Particion>, total: int, k: nat, l: nat)
    requires Tesela(t, 0, total) && IdsUnicos(t) && k < |t| && l < |t| && t[k].id == t[l].id
    ensures k == l
  {
    assert t[k] in t && t[l] in t;
    TeselaForma(t, 0, total);
  }

  lemma VueltaOrdenada(m: Mem, s: seq<Particion>, total: int, k: nat, pid: int, n: int)
    requires m.esquema.DINAMICAS? && Tesela(s, 0, total) && SinJuntables(s) && k < |s| && Cabe(s[k], n) && n >= 1
    ensures var t := Poner(s, k, Nuevos(m, s[k], pid, n));
            k < |t| && Unificar(Poner(t, k, [t[k].(dueno := None)])) == s
  {
    Pieza(s, 0, total, k);
    UnificarFija(s);
    var t := Poner(s, k, Nuevos(m, s[k], pid, n));
    var u := Poner(t, k, [t[k].(dueno := None)]);
    if s[k].tamanio > n {
      VueltaJunta(m, s, k, pid, n);
      UnificarJuntarEn(u, k);
    } else {
      assert u == s;
    }
  }

  /** The freed piece and what was left over of it are the partition that was cut. */
  lemma VueltaJunta(m: Mem, s: seq<Particion>, k: nat, pid: int, n: int)
    requires m.esquema.DINAMICAS? && k < |s| && Cabe(s[k], n) && s[k].tamanio > n >= 1
    requires s[k].limite == s[k].base + s[k].tamanio - 1
    ensures var t := Poner(s, k, Nuevos(m, s[k], pid, n));
            && k < |t| && var u := Poner(t, k, [t[k].(dueno := None)]);
            && k + 1 < |u| && Juntables(u[k], u[k + 1]) && JuntarEn(u, k) == s
  {
    var t := Poner(s, k, Nuevos(m, s[k], pid, n));
    var u := Poner(t, k, [t[k].(dueno := None)]);
    assert u == s[..k] + [t[k].(dueno := None), t[k + 1]] + s[k + 1..];
  }

  // ---- Lookups and holes ----

  /** The partition of a resident process is the same one by id and by base and limit. */
  lemma BusquedasCoinciden(m: Mem, total: int, pr: Proceso)
    requires Inv(m, total) && pr in m.procs
    ensures var r := BuscarPorBaseYLimite(m.parts, pr.base, pr.limite);
            r.Some? && r == BuscarParticion(m.parts, pr.particionId) && m.parts[r.value].dueno == Some(pr.pid)
  {
    var s := Ordenar(m.parts);
    OrdenarMiembros(m.parts);
    var p :| p in s && Corresponde(p, pr);
    assert p in m.parts;
    var i := BuscarPorBaseYLimite(m.parts, pr.base, pr.limite).value;
    var h := BuscarParticion(m.parts, pr.particionId).value;
    assert m.parts[i] in s && m.parts[h] in s;
    TeselaForma(s, 0, total);
    assert m.parts[i] == p;
    SinDobles(m, total, i, h);
  }

  lemma {:induction false} HuecosDe(s: seq<Particion>, a: int, b: int)
    requires Tesela(s, a, b) && SinJuntables(s)
    ensures |s| <= 2 * |Ocupadas(s)| + 1
    ensures s != [] && !Libre(s[0]) ==> |s| <= 2 * |Ocupadas(s)|
  {
    if |s| <= 1 {
      // base case
    } else {
      HuecosDe(s[1..], a + s[0].tamanio, b);
      assert !Juntables(s[0], s[1]);
      Sigue(s, a, b, 0);
    }
  }

  /** Holes never exceed the resident processes by more than one. */
  lemma HuecosAcotados(m: Mem, total: int)
    requires Inv(m, total) && m.esquema.DINAMICAS?
    ensures |m.parts| - |m.procs| <= |m.procs| + 1
  {
    OrdenarMiembros(m.parts);
    HuecosDe(Ordenar(m.parts), 0, total);
  }

  // ---- Sizes below one ----

  /** The memory server does not check the size. A creation keeps the layout exactly when the size is positive, the
      partitions are fixed or none is free; otherwise the chosen partition is left with a size below one. */
  lemma TamanioMinimo(m: Mem, total: int, pid: int, n: int)
    requires Inv(m, total) && BuscarProceso(m.procs, pid).None?
    ensures Inv(AtenderCreacion(m, pid, n).0, total) <==> TamanioOk(m, n)
  {
    var ok := AtenderCreacion(m, pid, n).1;
    if n >= 1 {
      CreacionInv(m, total, pid, n);
    } else if m.esquema.DINAMICAS? {
      LibreBasta(m, total, pid, n);
      if ok { SinTamanio(m, total, pid, n); }
    } else if ok {
      var i := Elegir(m.parts, n, m.busqueda, 0, None).value;
      EleccionCabe(m, n);
      LibreCabe(m, total, i);
      FijaComoUno(m, total, pid, i);
    }
  }

  /** Any free partition will do for a size below one. */
  lemma LibreBasta(m: Mem, total: int, pid: int, n: int)
    requires Inv(m, total) && n < 1
    ensures AtenderCreacion(m, pid, n).1 <==> exists p :: p in m.parts && Libre(p)
  {
    EleccionCabe(m, n);
    forall p | p in m.parts && Libre(p) ensures Cabe(p, n) {
      var i :| 0 <= i < |m.parts| && m.parts[i] == p;
      LibreCabe(m, total, i);
    }
  }

  /** A process of size 0 as the first of all: accepted, and the layout is broken. */
  lemma TamanioCero(b: Busqueda, total: int, pid: int)
    requires total >= 1
    ensures AtenderCreacion(InicialDinamica(b, total), pid, 0).1
    ensures !Inv(AtenderCreacion(InicialDinamica(b, total), pid, 0).0, total)
  {
    var m := InicialDinamica(b, total);
    InicialDinamicaInv(b, total);
    EleccionCabe(m, 0);
    assert Cabe(m.parts[0], 0) && m.parts[0] in m.parts;
    TamanioMinimo(m, total, pid, 0);
  }

  lemma LibreCabe(m: Mem, total: int, i: nat)
    requires Inv(m, total) && i < |m.parts|
    ensures m.parts[i].tamanio >= 1 && m.parts[i].limite == m.parts[i].base + m.parts[i].tamanio - 1
  {
    var k := Posicion(m, total, i);
    Pieza(Ordenar(m.parts), 0, total, k);
  }

  /** Fixed partitions ignore the size once the partition is chosen. */
  lemma FijaComoUno(m: Mem, total: int, pid: int, i: nat)
    requires Inv(m, total) && m.esquema.FIJAS? && BuscarProceso(m.procs, pid).None? && i < |m.parts| && Libre(m.parts[i])
    ensures Inv(CrearFijo(m, pid, i), total)
  {
    var k := Posicion(m, total, i);
    var s := Ordenar(m.parts);
    Pieza(s, 0, total, k);
    var n := s[k].tamanio;
    var q := Nuevos(m, s[k], pid, n);
    TeselaNuevos(m, s[k], pid, n);
    ReemplazarEn(m.parts, total, i, k, q);
    assert m.parts[i := q[0]] + q[1..] == CrearFijo(m, pid, i).parts;
    CreacionOrd(m, s, total, k, pid, n, CrearFijo(m, pid, i).procs[|m.procs|]);
  }

  lemma SinTamanio(m: Mem, total: int, pid: int, n: int)
    requires Inv(m, total) && m.esquema.DINAMICAS? && n < 1 && AtenderCreacion(m, pid, n).1
    ensures !Inv(AtenderCreacion(m, pid, n).0, total)
  {
    var i := Elegir(m.parts, n, m.busqueda, 0, None).value;
    EleccionCabe(m, n);
    LibreCabe(m, total, i);
    var r := AtenderCreacion(m, pid, n).0;
    assert r.parts[i].tamanio == n;
    if Inv(r, total) {
      LibreCabe(r, total, i);
      assert false;
    }
  }

  // ---- Who has each byte ----

  lemma MismoDueno(m: Mem, total: int, x: int, d: Option<int>, e: Option<int>)
    requires Inv(m, total) && ByteDe(m.parts, x, d) && ByteDe(m.parts, x, e)
    ensures d == e
  {
    ByteOrdenado(m, x, d);
    ByteOrdenado(m, x, e);
    var s := Ordenar(m.parts);
    TeselaForma(s, 0, total);
    var p :| p in s && En(p, x) && p.dueno == d;
    var i: nat :| i < |s| && s[i] == p;
    UnDueno(s, 0, total, i, x);
  }

  /** What an accepted creation gives: the process is the last of the list, with the bytes of a free partition from
      its base on, as many as asked for under DINAMICAS and all of them under FIJAS. Those bytes become its own, and
      no other byte changes hands. */
  lemma CreacionBytes(m: Mem, total: int, pid: int, n: int, x: int, d: Option<int>)
    requires Inv(m, total) && TamanioOk(m, n) && BuscarProceso(m.procs, pid).None? && AtenderCreacion(m, pid, n).1
    ensures var r := AtenderCreacion(m, pid, n).0;
            && |r.procs| == |m.procs| + 1 && r.procs[..|m.procs|] == m.procs
            && var pr := r.procs[|m.procs|];
            && pr.pid == pid && (exists p :: p in m.parts && Entera(m, n, p, pr))
            && (ByteDe(r.parts, x, d) <==> if pr.base <= x <= pr.limite then d == Some(pid) else ByteDe(m.parts, x, d))
  {
    TamanioMinimo(m, total, pid, n);
    var i, nuevo := ParticionDada(m, total, pid, n);
    var r := AtenderCreacion(m, pid, n).0;
    var pr := r.procs[|m.procs|];
    if pr.base <= x <= pr.limite {
      assert En(nuevo, x);
      assert ByteDe(r.parts, x, Some(pid));
      if ByteDe(r.parts, x, d) { MismoDueno(r, total, x, d, Some(pid)); }
    } else {
      OtrosBytes(m, pid, n, i, x, d);
    }
  }

  lemma ParticionDada(m: Mem, total: int, pid: int, n: int) returns (i: nat, nuevo: Particion)
    requires Inv(m, total) && AtenderCreacion(m, pid, n).1
    ensures Elegir(m.parts, n, m.busqueda, 0, None) == Some(i) && Libre(m.parts[i])
    ensures m.parts[i].limite == m.parts[i].base + m.parts[i].tamanio - 1
    ensures var r := AtenderCreacion(m, pid, n).0;
            && |r.procs| == |m.procs| + 1 && r.procs[..|m.procs|] == m.procs
            && var pr := r.procs[|m.procs|];
            && pr.pid == pid && m.parts[i] in m.parts && Entera(m, n, m.parts[i], pr)
            && nuevo in r.parts && nuevo.dueno == Some(pid) && nuevo.base == pr.base && nuevo.limite == pr.limite
  {
    EleccionCabe(m, n);
    i := Elegir(m.parts, n, m.busqueda, 0, None).value;
    LibreCabe(m, total, i);
    nuevo := AtenderCreacion(m, pid, n).0.parts[i];
  }

  /** The place of a new process in a free partition. */
  predicate Entera(m: Mem, n: int, p: Particion, pr: Proceso) {
    && Cabe(p, n) && pr.particionId == p.id && pr.base == p.base
    && pr.limite == (if m.esquema.DINAMICAS? then p.base + n - 1 else p.limite)
  }

  lemma OtrosBytes(m: Mem, pid: int, n: int, i: nat, x: int, d: Option<int>)
    requires Elegir(m.parts, n, m.busqueda, 0, None) == Some(i) && Libre(m.parts[i])
    requires m.parts[i].limite == m.parts[i].base + m.parts[i].tamanio - 1
    requires n >= 1 || m.esquema.FIJAS?
    requires var pr := AtenderCreacion(m, pid, n).0.procs[|m.procs|]; !(pr.base <= x <= pr.limite)
    ensures ByteDe(AtenderCreacion(m, pid, n).0.parts, x, d) <==> ByteDe(m.parts, x, d)
  {
    var r := AtenderCreacion(m, pid, n).0;
    if ByteDe(r.parts, x, d) {
      var q :| q in r.parts && En(q, x) && q.dueno == d;
      var j: nat :| j < |r.parts| && r.parts[j] == q;
      assert (if j < |m.parts| && j != i then m.parts[j] else m.parts[i]) in m.parts;
      assert j < |m.parts| && j != i ==> m.parts[j] == q;
    }
    if ByteDe(m.parts, x, d) {
      var q :| q in m.parts && En(q, x) && q.dueno == d;
      var j: nat :| j < |m.parts| && m.parts[j] == q;
      assert r.parts[if j != i then j else |r.parts| - 1] in r.parts;
    }
  }

  /** What the end of a resident gives back: it is resident no more, its bytes are free, and no other byte changes
      hands. Under either scheme. */
  lemma FinalizacionBytes(m: Mem, total: int, pid: int, x: int, d: Option<int>)
    requires Inv(m, total) && BuscarProceso(m.procs, pid).Some?
    ensures var r := AtenderFinalizacion(m, pid);
            && BuscarProceso(r.procs, pid).None? && !ByteDe(r.parts, x, Some(pid))
            && (ByteDe(r.parts, x, d) <==>
                if d.None? then ByteDe(m.parts, x, None) || ByteDe(m.parts, x, Some(pid))
                else d != Some(pid) && ByteDe(m.parts, x, d))
  {
    var j, i, k := FinalizarOrdenado(m, total, pid);
    SinElProceso(m.procs, j);
    assert AtenderFinalizacion(m, pid).procs == SinProceso(m.procs, j);
    FinalizacionByte(m, total, pid, x, d);
    FinalizacionByte(m, total, pid, x, Some(pid));
  }

  lemma SinElProceso(procs: seq<Proceso>, j: nat)
    requires PidsUnicos(procs) && j < |procs|
    ensures BuscarProceso(SinProceso(procs, j), procs[j].pid).None?
  {
    var q := SinProceso(procs, j);
    forall k | 0 <= k < |q| ensures q[k].pid != procs[j].pid { assert q[k] == procs[if k < j then k else k + 1]; }
  }

  lemma FinalizacionByte(m: Mem, total: int, pid: int, x: int, d: Option<int>)
    requires Inv(m, total) && BuscarProceso(m.procs, pid).Some?
    ensures ByteDe(AtenderFinalizacion(m, pid).parts, x, d) <==>
            if d.None? then ByteDe(m.parts, x, None) || ByteDe(m.parts, x, Some(pid))
            else d != Some(pid) && ByteDe(m.parts, x, d)
  {
    if m.esquema.DINAMICAS? {
      LiberarCanonico(m, total, pid, 0, 0, x, d);
    } else {
      var j, i, k := FinalizarOrdenado(m, total, pid);
      var s := Ordenar(m.parts);
      PonerMiembros(s, total, k, [s[k].(dueno := None)]);
      DuenoUnico(m, total, pid, k);
      LiberarBytes(s, Poner(s, k, [s[k].(dueno := None)]), k, pid, x, d);
      ByteOrdenado(m, x, d);
      ByteOrdenado(m, x, None);
      ByteOrdenado(m, x, Some(pid));
      ByteOrdenado(AtenderFinalizacion(m, pid), x, d);
    }
  }
}
