/** Packets and buffers as the program has them: a stream and its size, extended in place by the writers and cut from
    the front by the readers. */
module Paquetes {
  import opened Bytes
  import opened Serializacion
  import Cpu

  /** t_buffer, of a packet being written or of one received. */
  class Buffer {
    var size: int
    var stream: seq<Byte>

    predicate Valid()
      reads this
    {
      size == |stream|
    }

    constructor (recibido: seq<Byte>)
      ensures Valid() && stream == recibido
    {
      size, stream := |recibido|, recibido;
    }

    // ---- Writers ----

    method Agregar(b: seq<Byte>)
      requires Valid()
      modifies this
      ensures Valid() && stream == old(stream) + b
    {
      if size == 0 {
        stream := b;
      } else {
        stream := stream[..size] + b;
      }
      size := size + |b|;
    }

    method CargarInt(i: int)
      requires Valid() && EsInt(i)
      modifies this
      ensures Valid() && stream == old(stream) + Escribir(Entero(i))
    {
      Agregar(LeInt(i));
    }

    method CargarGenerico(b: seq<Byte>)
      requires Valid() && |b| < DOS_A_31
      modifies this
      ensures Valid() && stream == old(stream) + Escribir(Generico(b))
    {
      Agregar(LeInt(|b|) + b);
    }

    method CargarString(s: seq<Byte>)
      requires Valid() && Representable(Cadena(s))
      modifies this
      ensures Valid() && stream == old(stream) + Escribir(Cadena(s))
    {
      var sizeString := |s| + 1;
      Agregar(LeInt(sizeString) + (s + [0]));
    }

    method CargarUint32(n: Cpu.U32)
      requires Valid()
      modifies this
      ensures Valid() && stream == old(stream) + Escribir(Uint32(n))
    {
      CargarGenerico(Le32(n));
    }

    method CargarSizeT(m: int)
      requires Valid() && EsSizeT(m)
      modifies this
      ensures Valid() && stream == old(stream) + Escribir(SizeT(m))
    {
      CargarGenerico(Le64(m));
    }

    method CargarContexto(c: Contexto)
      requires Valid() && ContextoOk(c)
      modifies this
      ensures Valid() && Representables(CamposContexto(c)) && stream == old(stream) + EscribirTodos(CamposContexto(c))
    {
      CamposContextoOk(c);
      var enteros, sinSigno := [c.pid, c.tid, c.maximoPC], SinSigno(c);
      CargarCampos(Enteros(enteros));
      CargarCampos(Uint32s(sinSigno));
      EscribirSuma(Enteros(enteros), Uint32s(sinSigno));
      Asociar(old(stream), EscribirTodos(Enteros(enteros)), EscribirTodos(Uint32s(sinSigno)));
    }

    /** One writer call after another. */
    method CargarCampos(cs: seq<Campo>)
      requires Valid() && Representables(cs)
      modifies this
      ensures Valid() && stream == old(stream) + EscribirTodos(cs)
    {
      for k := 0 to |cs|
        invariant Valid() && Escrito(cs, k, old(stream), stream)
      {
        UnoMas(cs, k, old(stream), stream);
        CargarCampo(cs[k]);
      }
      assert cs[..|cs|] == cs;
    }

    method CargarCampo(c: Campo)
      requires Valid() && Representable(c)
      modifies this
      ensures Valid() && stream == old(stream) + Escribir(c)
    {
      match c
      case Entero(i) => CargarInt(i);
      case Cadena(s) => CargarString(s);
      case Generico(b) => CargarGenerico(b);
      case Uint32(n) => CargarUint32(n);
      case SizeT(m) => CargarSizeT(m);
    }

    // ---- Readers ----

    /** The front of the stream is dropped and the rest moved down. */
    method Cortar(n: nat)
      requires Valid() && n <= size
      modifies this
      ensures Valid() && stream == old(stream)[n..]
    {
      var nuevoSize := size - n;
      if nuevoSize == 0 {
        stream := [];
      } else {
        stream := stream[n..n + nuevoSize];
      }
      size := nuevoSize;
    }

    method RecibirInt() returns (r: Leido<int>)
      requires Valid()
      modifies this
      ensures Valid() && r == LeerEntero(old(stream))
      ensures stream == if r.Bien? then r.resto else old(stream)
    {
      if size == 0 { return Mal(Vacio); }
      if size - 4 < 0 { return Mal(Negativo); }
      var v := DeInt(stream[..4]);
      Cortar(4);
      r := Bien(v, stream);
    }

    method RecibirGenerico() returns (r: Leido<seq<Byte>>)
      requires Valid()
      modifies this
      ensures Valid() && r == LeerGenerico(old(stream))
      ensures stream == if r.Bien? then r.resto else old(stream)
    {
      if size == 0 { return Mal(Vacio); }
      if size < 4 { return Mal(Negativo); }
      var sizeGenerico := DeInt(stream[..4]);
      if sizeGenerico < 0 { return Mal(FueraDelBuffer); }
      var nuevoSize := size - 4 - sizeGenerico;
      if nuevoSize < 0 { return Mal(Negativo); }
      var generico := stream[4..4 + sizeGenerico];
      assert generico == stream[4..][..sizeGenerico];
      assert stream[4 + sizeGenerico..] == stream[4..][sizeGenerico..];
      Cortar(4 + sizeGenerico);
      r := Bien(generico, stream);
    }

    method RecibirString() returns (r: Leido<seq<Byte>>)
      requires Valid()
      modifies this
      ensures Valid() && r == LeerCadena(old(stream))
      ensures r.Bien? ==> stream == r.resto
    {
      var g := RecibirGenerico();
      match g
      case Mal(e) => r := Mal(e);
      case Bien(s, q) => r := if 0 in s then Bien(HastaNul(s), q) else Mal(FueraDelBuffer);
    }

    method RecibirUint32() returns (r: Leido<Cpu.U32>)
      requires Valid()
      modifies this
      ensures Valid() && r == LeerUint32(old(stream))
      ensures r.Bien? ==> stream == r.resto
    {
      var g := RecibirGenerico();
      match g
      case Mal(e) => r := Mal(e);
      case Bien(s, q) => r := if |s| >= 4 then Bien(De32(s[..4]), q) else Mal(FueraDelBuffer);
    }

    method RecibirSizeT() returns (r: Leido<int>)
      requires Valid()
      modifies this
      ensures Valid() && r == LeerSizeT(old(stream))
      ensures r.Bien? ==> stream == r.resto
    {
      var g := RecibirGenerico();
      match g
      case Mal(e) => r := Mal(e);
      case Bien(s, q) => r := if |s| >= 8 then Bien(De64(s[..8]), q) else Mal(FueraDelBuffer);
    }

    /** The switch of recibir_mochila on a known tag. */
    method RecibirParametro(t: int) returns (r: Leido<Campo>)
      requires Valid() && 0 <= t <= 3
      modifies this
      ensures Valid() && r == LeerCampo(TipoDeEtiqueta(t), old(stream))
      ensures r.Bien? ==> stream == r.resto
    {
      if t == 0 {
        var v := RecibirInt();
        match v case Bien(i, q) => r := Bien(Entero(i), q); case Mal(e) => r := Mal(e);
      } else if t == 1 {
        var v := RecibirString();
        match v case Bien(s, q) => r := Bien(Cadena(s), q); case Mal(e) => r := Mal(e);
      } else if t == 2 {
        var v := RecibirSizeT();
        match v case Bien(m, q) => r := Bien(SizeT(m), q); case Mal(e) => r := Mal(e);
      } else {
        var v := RecibirUint32();
        match v case Bien(n, q) => r := Bien(Uint32(n), q); case Mal(e) => r := Mal(e);
      }
    }

    method RecibirMochila() returns (r: Leido<Mochila>)
      requires Valid()
      modifies this
      ensures Valid() && r == LeerMochila(old(stream))
      ensures r.Bien? ==> stream == r.resto
    {
      var instruccion := RecibirInt();
      if instruccion.Mal? { return Mal(instruccion.error); }
      var cantidad := RecibirInt();
      if cantidad.Mal? { return Mal(cantidad.error); }
      var parametros := RecibirParametros(cantidad.valor);
      match parametros
      case Mal(e) => r := Mal(e);
      case Bien(ps, q) => r := Bien(Mochila(instruccion.valor, ps), q);
    }

    /** recibir_contexto, field after field in the order of the packet. */
    method RecibirContexto() returns (r: Leido<Contexto>)
      requires Valid()
      modifies this
      ensures Valid() && r == LeerContexto(old(stream))
      ensures r.Bien? ==> stream == r.resto
    {
      var enteros := RecibirEnteros(3);
      if enteros.Mal? { return Mal(enteros.error); }
      var sinSigno := RecibirUint32s(11);
      if sinSigno.Mal? { return Mal(sinSigno.error); }
      var i, v := enteros.valor, sinSigno.valor;
      var regs := Cpu.Registros(v[2], v[3], v[4], v[5], v[6], v[7], v[8], v[9], v[10]);
      r := Bien(Contexto(i[0], i[1], i[2], v[0], v[1], regs), stream);
    }

    method RecibirEnteros(n: nat) returns (r: Leido<seq<int>>)
      requires Valid()
      modifies this
      ensures Valid() && r == LeerEnteros(n, old(stream))
      ensures r.Bien? ==> stream == r.resto
    {
      var vs: seq<int> := [];
      for i := 0 to n
        invariant Valid() && Antepuesto(vs, LeerEnteros(n - i, stream)) == LeerEnteros(n, old(stream))
      {
        EnteroPaso(vs, n - i, stream);
        var v := RecibirInt();
        if v.Mal? { return Mal(v.error); }
        vs := vs + [v.valor];
      }
      r := Bien(vs, stream);
    }

    method RecibirUint32s(n: nat) returns (r: Leido<seq<Cpu.U32>>)
      requires Valid()
      modifies this
      ensures Valid() && r == LeerUint32s(n, old(stream))
      ensures r.Bien? ==> stream == r.resto
    {
      var vs: seq<Cpu.U32> := [];
      for i := 0 to n
        invariant Valid() && Antepuesto(vs, LeerUint32s(n - i, stream)) == LeerUint32s(n, old(stream))
      {
        Uint32Paso(vs, n - i, stream);
        var v := RecibirUint32();
        if v.Mal? { return Mal(v.error); }
        vs := vs + [v.valor];
      }
      r := Bien(vs, stream);
    }

    method RecibirParametros(n: int) returns (r: Leido<seq<Campo>>)
      requires Valid()
      modifies this
      ensures Valid() && r == LeerParametros(n, old(stream))
      ensures r.Bien? ==> stream == r.resto
    {
      ghost var meta := LeerParametros(n, stream);
      var parametros: seq<Campo> := [];
      var i := 0;
      while i < n
        invariant Valid() && 0 <= i && (n >= 0 ==> i <= n)
        invariant Leyendo(parametros, n - i, stream, meta)
        decreases n - i
      {
        LeyendoPaso(parametros, n - i, stream, meta);
        var tipoDato := RecibirInt();
        if tipoDato.Mal? { return Mal(tipoDato.error); }
        if 0 <= tipoDato.valor <= 3 {
          var p := RecibirParametro(tipoDato.valor);
          if p.Mal? { return Mal(p.error); }
          parametros := parametros + [p.valor];
        }
        i := i + 1;
      }
      r := Bien(parametros, stream);
    }
  }

  function Antepuesto<T>(cs: seq<T>, l: Leido<seq<T>>): (r: Leido<seq<T>>)
    ensures cs == [] ==> r == l
    ensures l.Bien? && l.valor == [] ==> r == Bien(cs, l.resto)
  {
    match l
    case Mal(e) => Mal(e)
    case Bien(ds, s) =>
      assert cs == [] ==> cs + ds == ds;
      assert ds == [] ==> cs + ds == cs;
      Bien(cs + ds, s)
  }

  lemma ParametroPaso(cs: seq<Campo>, n: int, b: seq<Byte>)
    requires n > 0
    ensures Antepuesto(cs, LeerParametros(n, b)) ==
            match LeerEntero(b)
            case Mal(e) => Mal(e)
            case Bien(t, r) =>
              if !(0 <= t <= 3) then Antepuesto(cs, LeerParametros(n - 1, r))
              else
                match LeerCampo(TipoDeEtiqueta(t), r)
                case Mal(e) => Mal(e)
                case Bien(c, q) => Antepuesto(cs + [c], LeerParametros(n - 1, q))
  {
    match LeerEntero(b)
    case Mal(_) =>
    case Bien(t, r) =>
      if 0 <= t <= 3 {
        match LeerCampo(TipoDeEtiqueta(t), r)
        case Mal(_) =>
        case Bien(c, q) =>
          match LeerParametros(n - 1, q)
          case Mal(_) =>
          case Bien(ds, s) => assert cs + ([c] + ds) == cs + [c] + ds;
      }
  }

  /** n parameters more, after cs, make the result. */
  predicate Leyendo(cs: seq<Campo>, n: int, b: seq<Byte>, meta: Leido<seq<Campo>>) {
    Antepuesto(cs, LeerParametros(n, b)) == meta
  }

  lemma LeyendoPaso(cs: seq<Campo>, n: int, b: seq<Byte>, meta: Leido<seq<Campo>>)
    requires n > 0 && Leyendo(cs, n, b, meta)
    ensures match LeerEntero(b)
            case Mal(e) => meta == Mal(e)
            case Bien(t, r) =>
              if !(0 <= t <= 3) then Leyendo(cs, n - 1, r, meta)
              else
                match LeerCampo(TipoDeEtiqueta(t), r)
                case Mal(e) => meta == Mal(e)
                case Bien(c, q) => Leyendo(cs + [c], n - 1, q, meta)
  {
    ParametroPaso(cs, n, b);
  }

  lemma EnteroPaso(cs: seq<int>, n: nat, b: seq<Byte>)
    requires n > 0
    ensures Antepuesto(cs, LeerEnteros(n, b)) ==
            match LeerEntero(b)
            case Mal(e) => Mal(e)
            case Bien(v, q) => Antepuesto(cs + [v], LeerEnteros(n - 1, q))
  {
    match LeerEntero(b)
    case Mal(_) =>
    case Bien(v, q) =>
      match LeerEnteros(n - 1, q)
      case Mal(_) =>
      case Bien(ds, s) => assert cs + ([v] + ds) == cs + [v] + ds;
  }

  lemma Uint32Paso(cs: seq<Cpu.U32>, n: nat, b: seq<Byte>)
    requires n > 0
    ensures Antepuesto(cs, LeerUint32s(n, b)) ==
            match LeerUint32(b)
            case Mal(e) => Mal(e)
            case Bien(v, q) => Antepuesto(cs + [v], LeerUint32s(n - 1, q))
  {
    match LeerUint32(b)
    case Mal(_) =>
    case Bien(v, q) =>
      match LeerUint32s(n - 1, q)
      case Mal(_) =>
      case Bien(ds, s) => assert cs + ([v] + ds) == cs + [v] + ds;
  }

  /** `despues` is `antes` and then the first k fields. */
  predicate Escrito(cs: seq<Campo>, k: nat, antes: seq<Byte>, despues: seq<Byte>)
    requires k <= |cs| && Representables(cs)
  {
    despues == antes + EscribirTodos(cs[..k])
  }

  lemma UnoMas(cs: seq<Campo>, k: nat, antes: seq<Byte>, despues: seq<Byte>)
    requires k < |cs| && Representables(cs) && Escrito(cs, k, antes, despues)
    ensures Escrito(cs, k + 1, antes, despues + Escribir(cs[k]))
  {
    assert cs[..k + 1] == cs[..k] + [cs[k]];
    EscribirSuma(cs[..k], [cs[k]]);
    assert [cs[k]][1..] == [];
    assert EscribirTodos([cs[k]]) == Escribir(cs[k]);
    Asociar(antes, EscribirTodos(cs[..k]), Escribir(cs[k]));
  }
}
