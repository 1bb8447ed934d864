/** The list operations that the kernel and the memory server share (the t_list of the commons library). */
module Listas {
  datatype Option<+T> = None | Some(value: T)

  ghost predicate SinRepetidos<T>(xs: seq<T>) {
    forall i, j :: 0 <= i < j < |xs| ==> xs[i] != xs[j]
  }

  /** list_remove_element: drops the first occurrence, keeps the order of the rest. */
  function Quitar<T(==)>(xs: seq<T>, x: T): seq<T> {
    if xs == [] then []
    else if xs[0] == x then xs[1..]
    else [xs[0]] + Quitar(xs[1..], x)
  }

  /** list_filter, for elements with a given key. */
  function Filtrar<T>(xs: seq<T>, clave: T -> int, k: int): seq<T> {
    if xs == [] then []
    else (if clave(xs[0]) == k then [xs[0]] else []) + Filtrar(xs[1..], clave, k)
  }

  lemma {:induction false} QuitarMiembros<T>(xs: seq<T>, x: T)
    requires SinRepetidos(xs)
    ensures SinRepetidos(Quitar(xs, x)) && x !in Quitar(xs, x)
    ensures forall y :: y in Quitar(xs, x) <==> y in xs && y != x
  {
    if xs == [] {
      // base case
    } else {
      var t := xs[1..];
      assert xs == [xs[0]] + t;
      assert xs[0] !in t;
      if xs[0] != x {
        QuitarMiembros(t, x);
        var q := Quitar(t, x);
        assert xs[0] !in q;
      }
    }
  }

  lemma {:induction false} QuitarAusente<T>(xs: seq<T>, x: T)
    requires x !in xs
    ensures Quitar(xs, x) == xs
  {
    if xs == [] {
      // base case
    } else {
      assert xs == [xs[0]] + xs[1..];
      QuitarAusente(xs[1..], x);
    }
  }

  /** Removing by position and removing by value agree on the position found first. */
  lemma {:induction false} QuitarEnPosicion<T>(xs: seq<T>, k: nat)
    requires k < |xs| && xs[k] !in xs[..k]
    ensures Quitar(xs, xs[k]) == xs[..k] + xs[k + 1..]
  {
    if k == 0 {
      // base case
    } else {
      assert xs[1..][..k - 1] == xs[..k][1..];
      assert xs[0] in xs[..k];
      QuitarEnPosicion(xs[1..], k - 1);
      assert xs[..k] == [xs[0]] + xs[1..][..k - 1];
    }
  }

  lemma {:induction false} QuitarIncluye<T>(xs: seq<T>, x: T)
    ensures forall y :: y in Quitar(xs, x) ==> y in xs
  {
    if xs == [] {
      // base case
    } else {
      QuitarIncluye(xs[1..], x);
      assert xs == [xs[0]] + xs[1..];
    }
  }

  lemma {:induction false} QuitarDeja<T>(xs: seq<T>, x: T)
    ensures forall y :: y in xs && y != x ==> y in Quitar(xs, x)
  {
    if xs == [] {
      // base case
    } else {
      QuitarDeja(xs[1..], x);
      assert xs == [xs[0]] + xs[1..];
    }
  }

  lemma AgregarSinRepetidos<T>(xs: seq<T>, x: T)
    requires SinRepetidos(xs) && x !in xs
    ensures SinRepetidos(xs + [x])
  {
  }

  lemma {:induction false} FiltrarMiembros<T>(xs: seq<T>, clave: T -> int, k: int)
    ensures forall y :: y in Filtrar(xs, clave, k) <==> y in xs && clave(y) == k
  {
    if xs == [] {
      // base case
    } else {
      FiltrarMiembros(xs[1..], clave, k);
      assert xs == [xs[0]] + xs[1..];
    }
  }

  lemma {:induction false} FiltrarSuma<T>(xs: seq<T>, ys: seq<T>, clave: T -> int, k: int)
    ensures Filtrar(xs + ys, clave, k) == Filtrar(xs, clave, k) + Filtrar(ys, clave, k)
  {
    if xs == [] {
      assert xs + ys == ys;
    } else {
      var h, t := xs[0], xs[1..];
      FiltrarSuma(t, ys, clave, k);
      assert (xs + ys)[0] == h && (xs + ys)[1..] == t + ys;
      FiltrarUnido(if clave(h) == k then [h] else [], Filtrar(t, clave, k), Filtrar(ys, clave, k));
    }
  }

  lemma FiltrarUnido<T>(a: seq<T>, b: seq<T>, c: seq<T>)
    ensures a + (b + c) == (a + b) + c
  {
  }

  /** Filtering commutes with removal of one element. */
  lemma {:induction false} FiltrarQuitar<T>(xs: seq<T>, x: T, clave: T -> int, k: int)
    ensures Filtrar(Quitar(xs, x), clave, k) ==
            if clave(x) == k then Quitar(Filtrar(xs, clave, k), x) else Filtrar(xs, clave, k)
  {
    if xs == [] {
      // base case
    } else {
      var h, t := xs[0], xs[1..];
      FiltrarQuitar(t, x, clave, k);
      FiltrarCabeza(h, t, clave, k);
      if h == x {
        assert xs == [h] + t;
      } else {
        FiltrarCabeza(h, Quitar(t, x), clave, k);
        assert xs == [h] + t && Quitar(xs, x) == [h] + Quitar(t, x);
      }
      if clave(h) == k {
        assert ([h] + Filtrar(t, clave, k))[1..] == Filtrar(t, clave, k);
      }
    }
  }

  lemma FiltrarCabeza<T>(h: T, t: seq<T>, clave: T -> int, k: int)
    ensures Filtrar([h] + t, clave, k) == if clave(h) == k then [h] + Filtrar(t, clave, k) else Filtrar(t, clave, k)
  {
    assert ([h] + t)[1..] == t;
  }
}
