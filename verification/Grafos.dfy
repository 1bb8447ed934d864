/** Chains and cycles of a relation, and what two kinds of change do to them. */
module Grafos {
  type Grafo<!T> = (T, T) -> bool

  /** Each element is related to the next. */
  ghost predicate Camino<T(!new)>(g: Grafo<T>, p: seq<T>) {
    p != [] && forall k :: 0 <= k < |p| - 1 ==> g(p[k], p[k + 1])
  }

  ghost predicate Une<T(!new)>(g: Grafo<T>, p: seq<T>, x: T, y: T) {
    Camino(g, p) && p[0] == x && p[|p| - 1] == y
  }

  /** A chain, possibly of no step, leads from x to y. */
  ghost predicate Llega<T(!new)>(g: Grafo<T>, x: T, y: T) {
    exists p :: Une(g, p, x, y)
  }

  ghost predicate EnCiclo<T(!new)>(g: Grafo<T>, x: T) {
    exists y :: g(x, y) && Llega(g, y, x)
  }

  ghost predicate SinCiclo<T(!new)>(g: Grafo<T>) {
    forall x :: !EnCiclo(g, x)
  }

  lemma LlegaASi<T(!new)>(g: Grafo<T>, x: T)
    ensures Llega(g, x, x)
  {
    assert Une(g, [x], x, x);
  }

  lemma PrimerPaso<T(!new)>(g: Grafo<T>, x: T, y: T, z: T)
    requires g(x, y) && Llega(g, y, z)
    ensures Llega(g, x, z)
  {
    var p :| Une(g, p, y, z);
    assert Une(g, [x] + p, x, z);
  }

  lemma UltimoPaso<T(!new)>(g: Grafo<T>, x: T, y: T, z: T)
    requires Llega(g, x, y) && g(y, z)
    ensures Llega(g, x, z)
  {
    var p :| Une(g, p, x, y);
    assert Une(g, p + [z], x, z);
  }

  lemma SinPrimero<T(!new)>(g: Grafo<T>, p: seq<T>)
    requires Camino(g, p) && |p| > 1
    ensures g(p[0], p[1]) && Une(g, p[1..], p[1], p[|p| - 1])
  {
    var q := p[1..];
    forall k | 0 <= k < |q| - 1 ensures g(q[k], q[k + 1]) { assert g(p[k + 1], p[k + 2]); }
  }

  /** A change whose new pairs all end where the new relation stops closes no cycle. */
  lemma CambioSinCiclo<T(!new)>(g: Grafo<T>, d: Grafo<T>)
    requires SinCiclo(g) && forall x, y, z :: d(x, y) && d(y, z) ==> g(x, y)
    ensures SinCiclo(d)
  {
    forall x ensures !EnCiclo(d, x) {
      if EnCiclo(d, x) { CicloViejo(g, d, x); }
    }
  }

  lemma CicloViejo<T(!new)>(g: Grafo<T>, d: Grafo<T>, x: T)
    requires EnCiclo(d, x) && forall a, b, c :: d(a, b) && d(b, c) ==> g(a, b)
    ensures EnCiclo(g, x)
  {
    var y :| d(x, y) && Llega(d, y, x);
    var p :| Une(d, p, y, x);
    forall k | 0 <= k < |p| - 1 ensures g(p[k], p[k + 1]) {
      assert d(p[k], p[k + 1]) && d(p[k + 1], if k + 2 < |p| then p[k + 2] else y);
    }
    assert d(y, if |p| > 1 then p[1] else y);
    assert Une(g, p, y, x);
  }

  /** One pair more, from an element that was related to nothing, closes a cycle exactly when its end
      already led back to its start. */
  lemma NuevoPar<T(!new)>(g: Grafo<T>, d: Grafo<T>, x: T, t: T)
    requires SinCiclo(g) && forall b :: !g(x, b)
    requires forall a, b :: d(a, b) <==> g(a, b) || (a == x && b == t)
    ensures SinCiclo(d) <==> !Llega(g, t, x)
  {
    if Llega(g, t, x) {
      var p :| Une(g, p, t, x);
      assert Une(d, p, t, x);
      assert d(x, t) && Llega(d, t, x);
      assert EnCiclo(d, x);
    } else {
      forall a ensures !EnCiclo(d, a) {
        if EnCiclo(d, a) { CicloNuevo(g, d, x, t, a); }
      }
    }
  }

  /** Any cycle of the larger relation, cut at the new pair, is a chain back to its start. */
  lemma CicloNuevo<T(!new)>(g: Grafo<T>, d: Grafo<T>, x: T, t: T, a: T)
    requires SinCiclo(g) && forall b :: !g(x, b)
    requires forall a, b :: d(a, b) <==> g(a, b) || (a == x && b == t)
    requires EnCiclo(d, a)
    ensures Llega(g, t, x)
  {
    var b :| d(a, b) && Llega(d, b, a);
    var p :| Une(d, p, b, a);
    if x in p {
      var k :| 0 <= k < |p| && p[k] == x;
      Rotado(d, p, k);
      HastaElPar(g, d, x, t, p[k + 1..] + p[..k + 1]);
    } else {
      assert Une(g, p, b, a);
      assert EnCiclo(g, a);
    }
  }

  lemma Rotado<T(!new)>(d: Grafo<T>, p: seq<T>, k: nat)
    requires Camino(d, p) && d(p[|p| - 1], p[0]) && k < |p|
    ensures var q := p[k + 1..] + p[..k + 1]; Camino(d, q) && q[|q| - 1] == p[k] && d(p[k], q[0])
  {
    var q := p[k + 1..] + p[..k + 1];
    var n := |p| - k - 1;
    forall j | 0 <= j < |q| - 1 ensures d(q[j], q[j + 1]) {
      if j + 1 < n {
        assert d(p[k + 1 + j], p[k + 2 + j]);
      } else if j >= n {
        assert d(p[j - n], p[j - n + 1]);
      }
    }
  }

  lemma {:induction false} HastaElPar<T(!new)>(g: Grafo<T>, d: Grafo<T>, x: T, t: T, p: seq<T>)
    requires Camino(d, p) && p[|p| - 1] == x
    requires forall a, b :: d(a, b) <==> g(a, b) || (a == x && b == t)
    ensures Llega(g, p[0], x)
    decreases |p|
  {
    if p[0] == x {
      LlegaASi(g, x);
    } else {
      SinPrimero(d, p);
      HastaElPar(g, d, x, t, p[1..]);
      PrimerPaso(g, p[0], p[1], x);
    }
  }

  /** Without cycles every chain in a finite set can be followed to an element that is related to nothing. */
  lemma {:induction false} Extremo<T(!new)>(g: Grafo<T>, todos: set<T>, resto: set<T>, x: T) returns (f: T)
    requires SinCiclo(g) && x in resto && forall a, b :: g(a, b) ==> b in todos
    requires forall v :: v in todos && v !in resto ==> Llega(g, v, x)
    ensures Llega(g, x, f) && forall b :: !g(f, b)
    decreases resto
  {
    LlegaASi(g, x);
    if y :| g(x, y) {
      assert !EnCiclo(g, x);
      assert y in resto && y != x;
      forall v | v in todos && v !in resto - {x} ensures Llega(g, v, y) { UltimoPaso(g, v, x, y); }
      f := Extremo(g, todos, resto - {x}, y);
      PrimerPaso(g, x, y, f);
    } else {
      f := x;
    }
  }

  /** With one successor each at most, whatever a cycle leads to leads back. */
  lemma {:induction false} CicloCerrado<T(!new)>(g: Grafo<T>, p: seq<T>)
    requires Camino(g, p) && EnCiclo(g, p[0]) && forall a, b, c :: g(a, b) && g(a, c) ==> b == c
    ensures EnCiclo(g, p[|p| - 1])
    decreases |p|
  {
    if |p| == 1 {
      // base case
    } else {
      SinPrimero(g, p);
      CicloAvanza(g, p[0], p[1]);
      CicloCerrado(g, p[1..]);
    }
  }

  lemma CicloAvanza<T(!new)>(g: Grafo<T>, x: T, y: T)
    requires EnCiclo(g, x) && g(x, y) && forall a, b, c :: g(a, b) && g(a, c) ==> b == c
    ensures EnCiclo(g, y)
  {
    var p :| Une(g, p, y, x);
    if |p| > 1 {
      SinPrimero(g, p);
      assert Llega(g, p[1], x);
      UltimoPaso(g, p[1], x, y);
    }
  }
}
