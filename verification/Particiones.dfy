/** The partition list of the memory server: searches, order by base and coalescing, as functions on the list. */
module Particiones {
  import opened Listas

  /** t_particion. esta_ocupada and proceso_en_particion are always written together: `dueno` is both. */
  datatype Particion = Particion(id: int, tamanio: int, base: int, limite: int, dueno: Option<int>)

  datatype Busqueda = FIRST | BEST | WORST

  predicate Libre(p: Particion) {
    p.dueno.None?
  }

  predicate Cabe(p: Particion, n: int) {
    Libre(p) && p.tamanio >= n
  }

  // ---- The three searches ----

  predicate Supera(b: Busqueda, t: int, u: int) {
    match b
    case FIRST => false
    case BEST => t < u
    case WORST => t > u
  }

  /** One pass with the running choice, as the list iterators do it. */
  function Elegir(ps: seq<Particion>, n: int, b: Busqueda, i: nat, mejor: Option<nat>): (r: Option<nat>)
    requires i <= |ps| && (mejor.Some? ==> mejor.value < |ps|)
    ensures r.Some? ==> r.value < |ps|
    decreases |ps| - i
  {
    if i == |ps| then mejor
    else if Cabe(ps[i], n) && (mejor.None? || Supera(b, ps[i].tamanio, ps[mejor.value].tamanio)) then
      Elegir(ps, n, b, i + 1, Some(i))
    else Elegir(ps, n, b, i + 1, mejor)
  }

  /** Partition i goes before partition j: the first of the list, the smallest or the largest, the earlier on a tie. */
  predicate Antecede(ps: seq<Particion>, b: Busqueda, i: nat, j: nat)
    requires i < |ps| && j < |ps|
  {
    match b
    case FIRST => i <= j
    case BEST => ps[i].tamanio <= ps[j].tamanio && (j < i ==> ps[i].tamanio < ps[j].tamanio)
    case WORST => ps[i].tamanio >= ps[j].tamanio && (j < i ==> ps[i].tamanio > ps[j].tamanio)
  }

  /** The chosen partition among the first k: it fits, and goes before every other that does. */
  predicate EsEleccion(ps: seq<Particion>, n: int, b: Busqueda, k: nat, r: Option<nat>)
    requires k <= |ps|
  {
    match r
    case None => forall j :: 0 <= j < k ==> !Cabe(ps[j], n)
    case Some(i) =>
      && i < k && Cabe(ps[i], n)
      && (forall j: nat :: j < k && Cabe(ps[j], n) ==> Antecede(ps, b, i, j))
  }

  lemma {:induction false} EleccionDesde(ps: seq<Particion>, n: int, b: Busqueda, i: nat, mejor: Option<nat>)
    requires i <= |ps| && EsEleccion(ps, n, b, i, mejor)
    ensures EsEleccion(ps, n, b, |ps|, Elegir(ps, n, b, i, mejor))
    decreases |ps| - i
  {
    if i == |ps| {
      // base case
    } else {
      if Cabe(ps[i], n) && (mejor.None? || Supera(b, ps[i].tamanio, ps[mejor.value].tamanio)) {
        EleccionDesde(ps, n, b, i + 1, Some(i));
      } else {
        EleccionDesde(ps, n, b, i + 1, mejor);
      }
    }
  }

  lemma {:induction false} PrimeraQueda(ps: seq<Particion>, n: int, i: nat, m: nat)
    requires i <= |ps| && m < |ps|
    ensures Elegir(ps, n, FIRST, i, Some(m)) == Some(m)
    decreases |ps| - i
  {
    if i == |ps| {
      // base case
    } else {
      PrimeraQueda(ps, n, i + 1, m);
    }
  }

  // ---- Order by base ----

  function Insertar(p: Particion, s: seq<Particion>): seq<Particion> {
    if s == [] || p.base < s[0].base then [p] + s else [s[0]] + Insertar(p, s[1..])
  }

  function Ordenar(s: seq<Particion>): seq<Particion> {
    if s == [] then [] else Insertar(s[0], Ordenar(s[1..]))
  }

  predicate Creciente(s: seq<Particion>) {
    forall i, j :: 0 <= i < j < |s| ==> s[i].base < s[j].base
  }

  predicate NoDecrece(s: seq<Particion>) {
    forall i, j :: 0 <= i < j < |s| ==> s[i].base <= s[j].base
  }

  lemma {:induction false} InsertarOrdena(p: Particion, s: seq<Particion>)
    requires NoDecrece(s)
    ensures NoDecrece(Insertar(p, s)) && multiset(Insertar(p, s)) == multiset(s) + multiset{p}
  {
    if s == [] || p.base < s[0].base {
      // base case
    } else {
      InsertarOrdena(p, s[1..]);
      assert s == [s[0]] + s[1..];
      AntesDeTodos(s[0], p, s[1..], Insertar(p, s[1..]));
    }
  }

  lemma AntesDeTodos(h: Particion, p: Particion, t: seq<Particion>, r: seq<Particion>)
    requires h.base <= p.base && (forall k :: 0 <= k < |t| ==> h.base <= t[k].base)
    requires NoDecrece(r) && multiset(r) == multiset(t) + multiset{p}
    ensures NoDecrece([h] + r)
  {
    forall k | 0 <= k < |r| ensures h.base <= r[k].base {
      assert r[k] in multiset(r);
      assert r[k] == p || r[k] in t;
    }
  }

  lemma {:induction false} OrdenarOrdena(s: seq<Particion>)
    ensures NoDecrece(Ordenar(s)) && multiset(Ordenar(s)) == multiset(s)
  {
    if s == [] {
      // base case
    } else {
      OrdenarOrdena(s[1..]);
      InsertarOrdena(s[0], Ordenar(s[1..]));
      assert s == [s[0]] + s[1..];
    }
  }

  lemma OrdenarMiembros(s: seq<Particion>)
    ensures |Ordenar(s)| == |s| && forall p :: p in Ordenar(s) <==> p in s
  {
    OrdenarOrdena(s);
    assert |multiset(s)| == |s|;
    assert |multiset(Ordenar(s))| == |Ordenar(s)|;
    forall p ensures p in Ordenar(s) <==> p in s {
      assert p in s <==> p in multiset(s);
      assert p in Ordenar(s) <==> p in multiset(Ordenar(s));
    }
  }

  lemma MismaCabeza(s: seq<Particion>, t: seq<Particion>)
    requires Creciente(s) && NoDecrece(t) && multiset(s) == multiset(t) && s != []
    ensures t != [] && s[0] == t[0]
  {
    assert s[0] in multiset(t);
    var i :| 0 <= i < |t| && t[i] == s[0];
    assert t[0] in multiset(s);
    var j :| 0 <= j < |s| && s[j] == t[0];
    assert t[0].base <= t[i].base;
  }

  lemma MismoResto(s: seq<Particion>, t: seq<Particion>)
    requires s != [] && t != [] && s[0] == t[0] && multiset(s) == multiset(t)
    ensures multiset(s[1..]) == multiset(t[1..])
  {
    assert s == [s[0]] + s[1..] && t == [t[0]] + t[1..];
    assert multiset(s[1..]) == multiset(s) - multiset{s[0]};
    assert multiset(t[1..]) == multiset(t) - multiset{t[0]};
  }

  lemma {:induction false} OrdenadaUnica(s: seq<Particion>, t: seq<Particion>)
    requires Creciente(s) && NoDecrece(t) && multiset(s) == multiset(t)
    ensures s == t
  {
    if s == [] {
      assert |t| == |multiset(t)|;
    } else {
      MismaCabeza(s, t);
      MismoResto(s, t);
      OrdenadaUnica(s[1..], t[1..]);
      assert s == [s[0]] + s[1..] && t == [t[0]] + t[1..];
    }
  }

  /** With distinct bases there is one sorted list, so the library's sorting algorithm does not matter. */
  lemma OrdenUnico(s: seq<Particion>, t: seq<Particion>)
    requires Creciente(s) && multiset(s) == multiset(t)
    ensures Ordenar(t) == s
  {
    OrdenarOrdena(t);
    OrdenadaUnica(s, Ordenar(t));
  }

  // ---- Tilings ----

  /** The partitions follow one another without gap or overlap from address a up to, not including, address b. */
  predicate Tesela(s: seq<Particion>, a: int, b: int) {
    if s == [] then a == b
    else
      && s[0].base == a && s[0].tamanio >= 1 && s[0].limite == a + s[0].tamanio - 1
      && Tesela(s[1..], a + s[0].tamanio, b)
  }

  lemma {:induction false} TeselaForma(s: seq<Particion>, a: int, b: int)
    requires Tesela(s, a, b)
    ensures a <= b && Creciente(s)
    ensures forall i, j :: 0 <= i < j < |s| ==> s[i].limite < s[j].base
    ensures forall i :: 0 <= i < |s| ==>
      a <= s[i].base <= s[i].limite < b && s[i].tamanio >= 1 && s[i].limite == s[i].base + s[i].tamanio - 1
    ensures forall i :: 0 <= i < |s| - 1 ==> s[i + 1].base == s[i].limite + 1
    ensures s != [] ==> s[|s| - 1].limite == b - 1
  {
    if s == [] {
      // base case
    } else {
      TeselaForma(s[1..], a + s[0].tamanio, b);
      assert forall i :: 1 <= i < |s| ==> s[i] == s[1..][i - 1];
      assert |s| > 1 ==> s[1..][0].base == a + s[0].tamanio;
    }
  }

  lemma {:induction false} TeselaUnir(s: seq<Particion>, t: seq<Particion>, a: int, m: int, b: int)
    requires Tesela(s, a, m) && Tesela(t, m, b)
    ensures Tesela(s + t, a, b)
  {
    if s == [] {
      assert s + t == t;
    } else {
      TeselaUnir(s[1..], t, a + s[0].tamanio, m, b);
      assert (s + t)[1..] == s[1..] + t;
    }
  }

  lemma {:induction false} TeselaPartir(s: seq<Particion>, k: nat, a: int, b: int)
    requires Tesela(s, a, b) && k < |s|
    ensures Tesela(s[..k], a, s[k].base) && Tesela(s[k..], s[k].base, b)
  {
    if k == 0 {
      assert s[0..] == s;
    } else {
      TeselaPartir(s[1..], k - 1, a + s[0].tamanio, b);
      assert s[..k][1..] == s[1..][..k - 1];
      assert s[k..] == s[1..][k - 1..];
    }
  }

  predicate En(p: Particion, x: int) {
    p.base <= x <= p.limite
  }

  lemma {:induction false} TeselaCubre(s: seq<Particion>, a: int, b: int, x: int) returns (i: nat)
    requires Tesela(s, a, b) && a <= x < b
    ensures i < |s| && En(s[i], x)
  {
    if En(s[0], x) {
      i := 0;
    } else {
      var j := TeselaCubre(s[1..], a + s[0].tamanio, b, x);
      i := j + 1;
    }
  }

  // ---- Coalescing ----

  predicate Juntables(p: Particion, q: Particion) {
    Libre(p) && Libre(q) && p.limite + 1 == q.base
  }

  function Juntar(p: Particion, q: Particion): Particion {
    p.(tamanio := p.tamanio + q.tamanio, limite := q.limite)
  }

  /** No two neighbours in the list can be merged. */
  predicate SinJuntables(s: seq<Particion>) {
    forall i :: 0 <= i < |s| - 1 ==> !Juntables(s[i], s[i + 1])
  }

  /** One round of the loop: the pair at i becomes one partition. */
  function JuntarEn(s: seq<Particion>, i: nat): seq<Particion>
    requires i + 1 < |s|
  {
    s[..i] + [Juntar(s[i], s[i + 1])] + s[i + 2..]
  }

  /** The merged list in one pass from the end: what the loop of rounds reaches. */
  function Unificar(s: seq<Particion>): (r: seq<Particion>)
    ensures |r| <= |s|
    ensures s != [] ==> r != [] && r[0].base == s[0].base && r[0].dueno == s[0].dueno && r[0].id == s[0].id
  {
    if |s| <= 1 then s
    else
      var r := Unificar(s[1..]);
      if Juntables(s[0], r[0]) then [Juntar(s[0], r[0])] + r[1..] else [s[0]] + r
  }

  lemma {:induction false} UnificarJuntarEn(s: seq<Particion>, i: nat)
    requires i + 1 < |s| && Juntables(s[i], s[i + 1])
    ensures Unificar(JuntarEn(s, i)) == Unificar(s)
  {
    var m := JuntarEn(s, i);
    if i == 0 {
      assert m[1..] == s[1..][1..];
    } else {
      assert m[1..] == JuntarEn(s[1..], i - 1);
      UnificarJuntarEn(s[1..], i - 1);
    }
  }

  lemma {:induction false} UnificarFija(s: seq<Particion>)
    requires SinJuntables(s)
    ensures Unificar(s) == s
  {
    if |s| <= 1 {
      // base case
    } else {
      UnificarFija(s[1..]);
    }
  }

  lemma {:induction false} UnificarTesela(s: seq<Particion>, a: int, b: int)
    requires Tesela(s, a, b)
    ensures Tesela(Unificar(s), a, b) && SinJuntables(Unificar(s))
  {
    if |s| > 1 {
      UnificarTesela(s[1..], a + s[0].tamanio, b);
      var r := Unificar(s[1..]);
      var u := Unificar(s);
      if Juntables(s[0], r[0]) {
        assert u[1..] == r[1..];
        assert forall i :: 1 <= i < |u| ==> u[i] == r[i];
      } else {
        assert u[1..] == r;
        assert forall i :: 1 <= i < |u| ==> u[i] == r[i - 1];
      }
    }
  }

  /** The occupied partitions, in order. */
  function Ocupadas(s: seq<Particion>): seq<Particion> {
    if s == [] then [] else (if Libre(s[0]) then [] else [s[0]]) + Ocupadas(s[1..])
  }

  lemma {:induction false} OcupadasUnificar(s: seq<Particion>)
    ensures Ocupadas(Unificar(s)) == Ocupadas(s)
  {
    if |s| > 1 {
      OcupadasUnificar(s[1..]);
      var r := Unificar(s[1..]);
      if Juntables(s[0], r[0]) {
        assert Unificar(s)[1..] == r[1..];
      } else {
        assert Unificar(s)[1..] == r;
      }
    }
  }

  lemma {:induction false} OcupadasMiembros(s: seq<Particion>)
    ensures forall p :: p in Ocupadas(s) <==> p in s && !Libre(p)
  {
    if s == [] {
      // base case
    } else {
      OcupadasMiembros(s[1..]);
    }
  }

  /** Every id after coalescing was there before, on a partition with the same base and owner. */
  lemma {:induction false} UnificarViene(s: seq<Particion>, k: nat) returns (j: nat)
    requires k < |Unificar(s)|
    ensures k <= j < |s| && s[j].id == Unificar(s)[k].id
    ensures s[j].base == Unificar(s)[k].base && s[j].dueno == Unificar(s)[k].dueno
  {
    j := k;
    if |s| > 1 && k > 0 {
      var r := Unificar(s[1..]);
      var i := UnificarViene(s[1..], if Juntables(s[0], r[0]) then k else k - 1);
      j := i + 1;
    }
  }

  // ---- Bytes ----

  predicate ByteDe(ps: seq<Particion>, x: int, d: Option<int>) {
    exists p :: p in ps && En(p, x) && p.dueno == d
  }

  /** Bytes a..b are free and the bytes on either side, if there are any, are not. */
  predicate CorridaMaxima(ps: seq<Particion>, a: int, b: int) {
    && a <= b && (forall x :: a <= x <= b ==> ByteDe(ps, x, None))
    && !ByteDe(ps, a - 1, None) && !ByteDe(ps, b + 1, None)
  }

  /** n consecutive free bytes from address a on. */
  predicate CorridaLibre(ps: seq<Particion>, a: int, n: int) {
    forall x :: a <= x < a + n ==> ByteDe(ps, x, None)
  }

  lemma UnDueno(s: seq<Particion>, a: int, b: int, i: nat, x: int)
    requires Tesela(s, a, b) && i < |s| && En(s[i], x)
    ensures forall d :: ByteDe(s, x, d) <==> d == s[i].dueno
    ensures forall p :: p in s && En(p, x) ==> p == s[i]
  {
    TeselaForma(s, a, b);
    forall p | p in s && En(p, x) ensures p == s[i] {
      var j :| 0 <= j < |s| && s[j] == p;
      assert !(i < j) && !(j < i);
    }
    assert s[i] in s;
  }

  lemma {:induction false} UnificarBytes(s: seq<Particion>, a: int, b: int, x: int, d: Option<int>)
    requires Tesela(s, a, b)
    ensures ByteDe(Unificar(s), x, d) <==> ByteDe(s, x, d)
  {
    if |s| > 1 {
      var t := s[1..];
      var r := Unificar(t);
      UnificarBytes(t, a + s[0].tamanio, b, x, d);
      UnificarTesela(t, a + s[0].tamanio, b);
      assert s == [s[0]] + t;
      assert r == [r[0]] + r[1..];
      ByteDeCabeza(s[0], t, x, d);
      ByteDeCabeza(r[0], r[1..], x, d);
      if Juntables(s[0], r[0]) {
        assert Tesela(r, a + s[0].tamanio, b);
        ByteDeCabeza(Juntar(s[0], r[0]), r[1..], x, d);
      } else {
        ByteDeCabeza(s[0], r, x, d);
      }
    }
  }

  lemma ByteDeCabeza(p: Particion, t: seq<Particion>, x: int, d: Option<int>)
    ensures ByteDe([p] + t, x, d) <==> (En(p, x) && p.dueno == d) || ByteDe(t, x, d)
  {
    if ByteDe(t, x, d) {
      var q :| q in t && En(q, x) && q.dueno == d;
      assert q in [p] + t;
    }
    if En(p, x) && p.dueno == d { assert p in [p] + t; }
  }

  /** Free partitions of a coalesced tiling and maximal runs of free bytes are the same thing. */
  lemma LibreEsCorrida(s: seq<Particion>, total: int, a: int, b: int)
    requires Tesela(s, 0, total) && SinJuntables(s)
    ensures CorridaMaxima(s, a, b) <==> exists p :: p in s && Libre(p) && p.base == a && p.limite == b
  {
    if CorridaMaxima(s, a, b) { CorridaEsLibre(s, total, a, b); }
    if p :| p in s && Libre(p) && p.base == a && p.limite == b {
      var i: nat :| i < |s| && s[i] == p;
      LibreEsMaxima(s, total, i);
    }
  }

  lemma CorridaEsLibre(s: seq<Particion>, total: int, a: int, b: int)
    requires Tesela(s, 0, total) && SinJuntables(s) && CorridaMaxima(s, a, b)
    ensures exists p :: p in s && Libre(p) && p.base == a && p.limite == b
  {
    CorridaEnUna(s, total, a, b - a + 1);
    var p :| p in s && Libre(p) && p.base <= a && b <= p.limite;
    assert !En(p, a - 1) && !En(p, b + 1);
  }

  lemma LibreEsMaxima(s: seq<Particion>, total: int, i: nat)
    requires Tesela(s, 0, total) && SinJuntables(s) && i < |s| && Libre(s[i])
    ensures CorridaMaxima(s, s[i].base, s[i].limite)
  {
    Pieza(s, 0, total, i);
    forall x | s[i].base <= x <= s[i].limite ensures ByteDe(s, x, None) {
      UnDueno(s, 0, total, i, x);
    }
    BordeIzquierdo(s, total, i);
    BordeDerecho(s, total, i);
  }

  lemma BordeIzquierdo(s: seq<Particion>, total: int, i: nat)
    requires Tesela(s, 0, total) && SinJuntables(s) && i < |s| && Libre(s[i])
    ensures !ByteDe(s, s[i].base - 1, None)
  {
    if i == 0 {
      FueraDe(s, total, s[0].base - 1);
    } else {
      Pieza(s, 0, total, i - 1);
      Sigue(s, 0, total, i - 1);
      assert !Juntables(s[i - 1], s[i]);
      UnDueno(s, 0, total, i - 1, s[i].base - 1);
    }
  }

  lemma BordeDerecho(s: seq<Particion>, total: int, i: nat)
    requires Tesela(s, 0, total) && SinJuntables(s) && i < |s| && Libre(s[i])
    ensures !ByteDe(s, s[i].limite + 1, None)
  {
    TeselaForma(s, 0, total);
    if i == |s| - 1 {
      FueraDe(s, total, s[i].limite + 1);
    } else {
      Pieza(s, 0, total, i + 1);
      Sigue(s, 0, total, i);
      assert !Juntables(s[i], s[i + 1]);
      UnDueno(s, 0, total, i + 1, s[i].limite + 1);
    }
  }

  lemma Pieza(s: seq<Particion>, a: int, b: int, i: nat)
    requires Tesela(s, a, b) && i < |s|
    ensures a <= s[i].base <= s[i].limite < b && s[i].tamanio >= 1 && s[i].limite == s[i].base + s[i].tamanio - 1
  {
    TeselaForma(s, a, b);
  }

  lemma Sigue(s: seq<Particion>, a: int, b: int, i: nat)
    requires Tesela(s, a, b) && i + 1 < |s|
    ensures s[i + 1].base == s[i].limite + 1
  {
    TeselaForma(s, a, b);
  }

  lemma FueraDe(s: seq<Particion>, total: int, x: int)
    requires Tesela(s, 0, total) && (x < 0 || x >= total)
    ensures forall d :: !ByteDe(s, x, d)
  {
    TeselaForma(s, 0, total);
  }

  /** A run of free bytes lies inside one free partition: this is what coalescing is for. */
  lemma CorridaEnUna(s: seq<Particion>, total: int, a: int, n: int)
    requires Tesela(s, 0, total) && SinJuntables(s) && n >= 1 && CorridaLibre(s, a, n)
    ensures exists p :: p in s && Libre(p) && p.base <= a && a + n - 1 <= p.limite
  {
    assert ByteDe(s, a, None);
    var p :| p in s && En(p, a) && Libre(p);
    var i: nat :| i < |s| && s[i] == p;
    if p.limite < a + n - 1 {
      assert ByteDe(s, p.limite + 1, None);
      BordeDerecho(s, total, i);
      assert false;
    }
  }
}
