/** The wire format: writers that append fields to a packet and readers that take them from the front of a buffer. */
module Serializacion {
  import opened Bytes
  import Cpu

  datatype Campo =
    | Entero(i: int)
    | Cadena(s: seq<Byte>)
    | Generico(b: seq<Byte>)
    | Uint32(n: int)
    | SizeT(m: int)

  datatype Tipo = TEntero | TCadena | TGenerico | TUint32 | TSizeT

  /** The program ends on an empty buffer and when a field takes more bytes than are left. A length below zero, a
      string without terminator and a number in a generic too short for it are reads outside the buffer. */
  datatype Error = Vacio | Negativo | FueraDelBuffer

  datatype Leido<+T> = Bien(valor: T, resto: seq<Byte>) | Mal(error: Error)

  function TipoDe(c: Campo): Tipo {
    match c
    case Entero(_) => TEntero
    case Cadena(_) => TCadena
    case Generico(_) => TGenerico
    case Uint32(_) => TUint32
    case SizeT(_) => TSizeT
  }

  /** The values that the C types of the writers can have. A string has no NUL inside. */
  predicate Representable(c: Campo) {
    match c
    case Entero(i) => EsInt(i)
    case Cadena(s) => |s| + 1 < DOS_A_31 && 0 !in s
    case Generico(b) => |b| < DOS_A_31
    case Uint32(n) => 0 <= n < DOS_A_32
    case SizeT(m) => EsSizeT(m)
  }

  // ---- Writers ----

  /** The length as an int and then the bytes. */
  function ConTamanio(b: seq<Byte>): seq<Byte>
    requires |b| < DOS_A_31
  {
    LeInt(|b|) + b
  }

  function Escribir(c: Campo): (r: seq<Byte>)
    requires Representable(c)
    ensures |r| >= 4
  {
    match c
    case Entero(i) => LeInt(i)
    case Cadena(s) => ConTamanio(s + [0])
    case Generico(b) => ConTamanio(b)
    case Uint32(n) => ConTamanio(Le32(n))
    case SizeT(m) => ConTamanio(Le64(m))
  }

  /** The bytes of a field: an int modulo 2^32; of the others, the length and then the contents, numbers lowest byte
      first and strings with their NUL. */
  lemma FormaCampo(c: Campo)
    requires Representable(c)
    ensures var w := Escribir(c);
            match c
            case Entero(i) => |w| == 4 && De32(w) == i % DOS_A_32
            case Cadena(s) => |w| == 4 + |s| + 1 && De32(w[..4]) == |s| + 1 && w[4..] == s + [0]
            case Generico(b) => |w| == 4 + |b| && De32(w[..4]) == |b| && w[4..] == b
            case Uint32(n) => |w| == 8 && De32(w[..4]) == 4 && De32(w[4..]) == n
            case SizeT(m) => |w| == 12 && De32(w[..4]) == 8 && De32(w[4..8]) + DOS_A_32 * De32(w[8..]) == m
  {
    var w := Escribir(c);
    match c
    case Entero(i) => FormaNumeros(i, 0);
    case Cadena(s) => FormaConTamanio(s + [0]);
    case Generico(b) => FormaConTamanio(b);
    case Uint32(n) => FormaConTamanio(Le32(n)); Ida32(n);
    case SizeT(m) => FormaSizeT(m);
  }

  lemma FormaConTamanio(b: seq<Byte>)
    requires |b| < DOS_A_31
    ensures var w := ConTamanio(b); |w| == 4 + |b| && De32(w[..4]) == |b| && w[4..] == b
  {
    FormaNumeros(|b|, 0);
    assert ConTamanio(b)[..4] == LeInt(|b|);
  }

  lemma FormaSizeT(m: int)
    requires EsSizeT(m)
    ensures var w := Escribir(SizeT(m));
            |w| == 12 && De32(w[..4]) == 8 && De32(w[4..8]) + DOS_A_32 * De32(w[8..]) == m
  {
    var w := Escribir(SizeT(m));
    FormaConTamanio(Le64(m));
    Ida64(m);
    assert w[4..] == Le64(m) && w[4..8] == Le64(m)[..4] && w[8..] == Le64(m)[4..];
  }

  predicate Representables(cs: seq<Campo>) {
    forall k :: 0 <= k < |cs| ==> Representable(cs[k])
  }

  function EscribirTodos(cs: seq<Campo>): seq<Byte>
    requires Representables(cs)
  {
    if cs == [] then [] else Escribir(cs[0]) + EscribirTodos(cs[1..])
  }

  // ---- Readers ----

  function LeerEntero(b: seq<Byte>): (r: Leido<int>)
    ensures r.Bien? ==> EsInt(r.valor)
  {
    if |b| == 0 then Mal(Vacio)
    else if |b| < 4 then Mal(Negativo)
    else Bien(DeInt(b[..4]), b[4..])
  }

  function LeerGenerico(b: seq<Byte>): (r: Leido<seq<Byte>>)
    ensures r.Bien? ==> |r.valor| < DOS_A_31
  {
    match LeerEntero(b)
    case Mal(e) => Mal(e)
    case Bien(n, r) =>
      if n < 0 then Mal(FueraDelBuffer)
      else if n > |r| then Mal(Negativo)
      else Bien(r[..n], r[n..])
  }

  /** The C string at the front: the bytes before the first NUL. */
  function HastaNul(b: seq<Byte>): (r: seq<Byte>)
    requires 0 in b
    ensures |r| < |b| && r == b[..|r|] && b[|r|] == 0 && 0 !in r
  {
    if b[0] == 0 then [] else [b[0]] + HastaNul(b[1..])
  }

  function LeerCadena(b: seq<Byte>): Leido<seq<Byte>> {
    match LeerGenerico(b)
    case Mal(e) => Mal(e)
    case Bien(s, r) => if 0 in s then Bien(HastaNul(s), r) else Mal(FueraDelBuffer)
  }

  /** A number is read from the first bytes of a generic, whatever its length says. */
  function LeerUint32(b: seq<Byte>): (r: Leido<Cpu.U32>) {
    match LeerGenerico(b)
    case Mal(e) => Mal(e)
    case Bien(s, r) => if |s| >= 4 then Bien(De32(s[..4]), r) else Mal(FueraDelBuffer)
  }

  function LeerSizeT(b: seq<Byte>): Leido<int> {
    match LeerGenerico(b)
    case Mal(e) => Mal(e)
    case Bien(s, r) => if |s| >= 8 then Bien(De64(s[..8]), r) else Mal(FueraDelBuffer)
  }

  function LeerCampo(t: Tipo, b: seq<Byte>): (r: Leido<Campo>)
    ensures r.Bien? ==> TipoDe(r.valor) == t && Representable(r.valor)
  {
    match t
    case TEntero => (match LeerEntero(b) case Bien(v, r) => Bien(Entero(v), r) case Mal(e) => Mal(e))
    case TCadena => (match LeerCadena(b) case Bien(v, r) => Bien(Cadena(v), r) case Mal(e) => Mal(e))
    case TGenerico => (match LeerGenerico(b) case Bien(v, r) => Bien(Generico(v), r) case Mal(e) => Mal(e))
    case TUint32 => (match LeerUint32(b) case Bien(v, r) => Bien(Uint32(v), r) case Mal(e) => Mal(e))
    case TSizeT => (match LeerSizeT(b) case Bien(v, r) => Bien(SizeT(v), r) case Mal(e) => Mal(e))
  }

  function LeerTodos(ts: seq<Tipo>, b: seq<Byte>): (r: Leido<seq<Campo>>)
    ensures r.Bien? ==> |r.valor| == |ts| && Representables(r.valor)
    ensures r.Bien? ==> forall k :: 0 <= k < |ts| ==> TipoDe(r.valor[k]) == ts[k]
    decreases |ts|
  {
    if ts == [] then Bien([], b)
    else
      match LeerCampo(ts[0], b)
      case Mal(e) => Mal(e)
      case Bien(c, r) =>
        match LeerTodos(ts[1..], r)
        case Mal(e) => Mal(e)
        case Bien(cs, s) => Bien([c] + cs, s)
  }

  function Tipos(cs: seq<Campo>): seq<Tipo> {
    seq(|cs|, k requires 0 <= k < |cs| => TipoDe(cs[k]))
  }

  // ---- Round trips ----

  lemma IdaEntero(i: int, resto: seq<Byte>)
    requires EsInt(i)
    ensures LeerEntero(LeInt(i) + resto) == Bien(i, resto)
  {
    var b := LeInt(i) + resto;
    assert b[..4] == LeInt(i) && b[4..] == resto;
    IdaInt(i);
  }

  lemma IdaGenerico(g: seq<Byte>, resto: seq<Byte>)
    requires |g| < DOS_A_31
    ensures LeerGenerico(ConTamanio(g) + resto) == Bien(g, resto)
  {
    IdaEntero(|g|, g + resto);
    assert ConTamanio(g) + resto == LeInt(|g|) + (g + resto);
    assert (g + resto)[..|g|] == g && (g + resto)[|g|..] == resto;
  }

  lemma {:induction false} HastaNulCadena(s: seq<Byte>)
    requires 0 !in s
    ensures HastaNul(s + [0]) == s
  {
    if s == [] {
      // base case
    } else {
      assert (s + [0])[1..] == s[1..] + [0];
      HastaNulCadena(s[1..]);
    }
  }

  /** Reading undoes writing, and leaves what came after. */
  lemma IdaCampo(c: Campo, resto: seq<Byte>)
    requires Representable(c)
    ensures LeerCampo(TipoDe(c), Escribir(c) + resto) == Bien(c, resto)
  {
    match c
    case Entero(i) => IdaEntero(i, resto);
    case Cadena(s) => IdaGenerico(s + [0], resto); HastaNulCadena(s);
    case Generico(b) => IdaGenerico(b, resto);
    case Uint32(n) => IdaGenerico(Le32(n), resto); Ida32(n); assert Le32(n)[..4] == Le32(n);
    case SizeT(m) => IdaGenerico(Le64(m), resto); Ida64(m); assert Le64(m)[..8] == Le64(m);
  }

  /** Any sequence of fields comes back in order; with nothing after it, the buffer is left empty. */
  lemma {:induction false} IdaTodos(cs: seq<Campo>, resto: seq<Byte>)
    requires Representables(cs)
    ensures LeerTodos(Tipos(cs), EscribirTodos(cs) + resto) == Bien(cs, resto)
    decreases |cs|
  {
    if cs == [] {
      assert EscribirTodos(cs) + resto == resto;
    } else {
      UnCampo(cs, resto);
      IdaCampo(cs[0], EscribirTodos(cs[1..]) + resto);
      IdaTodos(cs[1..], resto);
      TodosDesde(cs, EscribirTodos(cs) + resto, EscribirTodos(cs[1..]) + resto, resto);
    }
  }

  lemma UnCampo(cs: seq<Campo>, resto: seq<Byte>)
    requires cs != [] && Representables(cs)
    ensures EscribirTodos(cs) + resto == Escribir(cs[0]) + (EscribirTodos(cs[1..]) + resto)
  {
  }

  lemma TodosDesde(cs: seq<Campo>, b: seq<Byte>, q: seq<Byte>, resto: seq<Byte>)
    requires cs != [] && LeerCampo(TipoDe(cs[0]), b) == Bien(cs[0], q)
    requires LeerTodos(Tipos(cs[1..]), q) == Bien(cs[1..], resto)
    ensures LeerTodos(Tipos(cs), b) == Bien(cs, resto)
  {
    assert Tipos(cs)[1..] == Tipos(cs[1..]);
    assert [cs[0]] + cs[1..] == cs;
  }

  /** Two field sequences of the same types with the same bytes are the same. */
  lemma Inyectiva(cs: seq<Campo>, ds: seq<Campo>)
    requires Representables(cs) && Representables(ds) && Tipos(cs) == Tipos(ds)
    requires EscribirTodos(cs) == EscribirTodos(ds)
    ensures cs == ds
  {
    IdaTodos(cs, []);
    IdaTodos(ds, []);
  }

  /** A packet cut short inside a field is never taken for a whole one. */
  lemma CortadoSeRechaza(c: Campo, k: nat)
    requires Representable(c) && k < |Escribir(c)|
    ensures LeerCampo(TipoDe(c), Escribir(c)[..k]).Mal?
  {
    if !c.Entero? {
      var g := match c
        case Cadena(s) => s + [0]
        case Generico(b) => b
        case Uint32(n) => Le32(n)
        case SizeT(m) => Le64(m)
        case Entero(_) => [];
      var b := ConTamanio(g)[..k];
      if k >= 4 {
        assert b[..4] == LeInt(|g|);
        IdaInt(|g|);
        assert |b[4..]| < |g|;
      }
      assert LeerGenerico(b).Mal?;
    }
  }

  // ---- Writing back what was read ----

  /** The length in front of the field is the one that its writer gives: the readers of strings and numbers accept
      any that is long enough. */
  predicate Ajustado(t: Tipo, b: seq<Byte>)
    requires LeerCampo(t, b).Bien?
  {
    match t
    case TEntero => true
    case TGenerico => true
    case TCadena => var s := LeerGenerico(b).valor; 0 !in s[..|s| - 1]
    case TUint32 => |LeerGenerico(b).valor| == 4
    case TSizeT => |LeerGenerico(b).valor| == 8
  }

  lemma VueltaEntero(b: seq<Byte>)
    requires LeerEntero(b).Bien?
    ensures LeInt(LeerEntero(b).valor) + LeerEntero(b).resto == b
  {
    VueltaInt(b[..4]);
    assert b == b[..4] + b[4..];
  }

  lemma VueltaGenerico(b: seq<Byte>)
    requires LeerGenerico(b).Bien?
    ensures ConTamanio(LeerGenerico(b).valor) + LeerGenerico(b).resto == b
  {
    VueltaEntero(b);
    var n, r := LeerEntero(b).valor, LeerEntero(b).resto;
    assert r == r[..n] + r[n..];
    assert LeInt(n) + (r[..n] + r[n..]) == (LeInt(n) + r[..n]) + r[n..];
  }

  /** A field other than an int is written back as a generic; it is the one read when the contents agree. */
  lemma VueltaContenido(b: seq<Byte>, g: seq<Byte>)
    requires LeerGenerico(b).Bien? && |g| < DOS_A_31
    ensures ConTamanio(g) + LeerGenerico(b).resto == b <==> g == LeerGenerico(b).valor
  {
    VueltaGenerico(b);
    var resto := LeerGenerico(b).resto;
    if ConTamanio(g) + resto == b { IdaGenerico(g, resto); }
  }

  lemma VueltaNul(s: seq<Byte>)
    requires 0 in s
    ensures HastaNul(s) + [0] == s <==> 0 !in s[..|s| - 1]
  {
    var h := HastaNul(s);
    assert |h| < |s| - 1 ==> s[..|s| - 1][|h|] == 0;
    if |h| == |s| - 1 { assert s == s[..|h|] + [s[|h|]]; }
  }

  /** Writing back a field that was read gives the bytes it was read from exactly when its length was the writer's. */
  lemma VueltaCampo(t: Tipo, b: seq<Byte>)
    requires LeerCampo(t, b).Bien?
    ensures Escribir(LeerCampo(t, b).valor) + LeerCampo(t, b).resto == b <==> Ajustado(t, b)
  {
    match t
    case TEntero => VueltaEntero(b);
    case TGenerico => VueltaGenerico(b);
    case TCadena =>
      VueltaNul(LeerGenerico(b).valor);
      VueltaContenido(b, HastaNul(LeerGenerico(b).valor) + [0]);
    case TUint32 =>
      var s := LeerGenerico(b).valor;
      Vuelta32(s[..4]);
      VueltaContenido(b, s[..4]);
    case TSizeT =>
      var s := LeerGenerico(b).valor;
      Vuelta64(s[..8]);
      VueltaContenido(b, s[..8]);
  }

  predicate Ajustados(ts: seq<Tipo>, b: seq<Byte>)
    decreases |ts|
  {
    ts == [] || (LeerCampo(ts[0], b).Bien? && Ajustado(ts[0], b) && Ajustados(ts[1..], LeerCampo(ts[0], b).resto))
  }

  /** The same for a sequence of fields: together with IdaTodos, the readers and the writers are inverse of each other
      on the packets with the writers' lengths. */
  lemma {:induction false} VueltaTodos(ts: seq<Tipo>, b: seq<Byte>)
    requires LeerTodos(ts, b).Bien?
    ensures EscribirTodos(LeerTodos(ts, b).valor) + LeerTodos(ts, b).resto == b <==> Ajustados(ts, b)
    decreases |ts|
  {
    if ts == [] {
      assert EscribirTodos([]) + b == b;
    } else {
      var c, r := LeerCampo(ts[0], b).valor, LeerCampo(ts[0], b).resto;
      var cs, resto := LeerTodos(ts, b).valor, LeerTodos(ts, b).resto;
      assert cs[1..] == LeerTodos(ts[1..], r).valor;
      UnCampo(cs, resto);
      VueltaCampo(ts[0], b);
      VueltaTodos(ts[1..], r);
      if EscribirTodos(cs) + resto == b { IdaCampo(c, EscribirTodos(cs[1..]) + resto); }
    }
  }

  // ---- The parameter bag ----

  datatype Mochila = Mochila(instruccion: int, parametros: seq<Campo>)

  function Etiqueta(c: Campo): int {
    match c
    case Entero(_) => 0
    case Cadena(_) => 1
    case SizeT(_) => 2
    case Uint32(_) => 3
    case Generico(_) => 4
  }

  /** A bag holds ints, strings, size_ts and uint32s. */
  predicate MochilaOk(m: Mochila) {
    && EsInt(m.instruccion) && |m.parametros| < DOS_A_31
    && (forall k :: 0 <= k < |m.parametros| ==> Representable(m.parametros[k]) && !m.parametros[k].Generico?)
  }

  function Etiquetados(ps: seq<Campo>): seq<Campo> {
    if ps == [] then [] else [Entero(Etiqueta(ps[0])), ps[0]] + Etiquetados(ps[1..])
  }

  /** As the CPU sends it: instruction, count, and each parameter after its tag. */
  function CamposMochila(m: Mochila): seq<Campo> {
    [Entero(m.instruccion), Entero(|m.parametros|)] + Etiquetados(m.parametros)
  }

  /** The tag of each type on the wire: T_INT, T_STRING, T_SIZE_T and T_UINT32 in the order of their enumeration. */
  predicate EtiquetaDe(t: Campo, c: Campo) {
    t == Entero(if c.Entero? then 0 else if c.Cadena? then 1 else if c.SizeT? then 2 else if c.Uint32? then 3 else 4)
  }

  /** The fields of a bag, one by one. */
  lemma {:induction false} FormaEtiquetados(ps: seq<Campo>)
    ensures |Etiquetados(ps)| == 2 * |ps|
    ensures forall k :: 0 <= k < |ps| ==> EtiquetaDe(Etiquetados(ps)[2 * k], ps[k]) && Etiquetados(ps)[2 * k + 1] == ps[k]
  {
    if ps == [] {
      // base case
    } else {
      FormaEtiquetados(ps[1..]);
      var es := Etiquetados(ps[1..]);
      forall k | 0 <= k < |ps| ensures EtiquetaDe(Etiquetados(ps)[2 * k], ps[k]) && Etiquetados(ps)[2 * k + 1] == ps[k] {
        if k > 0 { assert ps[1..][k - 1] == ps[k]; }
      }
    }
  }

  lemma FormaMochila(m: Mochila)
    ensures var cs := CamposMochila(m);
            && |cs| == 2 + 2 * |m.parametros| && cs[0] == Entero(m.instruccion) && cs[1] == Entero(|m.parametros|)
            && forall k :: 0 <= k < |m.parametros| ==>
                 EtiquetaDe(cs[2 + 2 * k], m.parametros[k]) && cs[2 + 2 * k + 1] == m.parametros[k]
  {
    FormaEtiquetados(m.parametros);
  }

  function TipoDeEtiqueta(t: int): Tipo
    requires 0 <= t <= 3
  {
    if t == 0 then TEntero else if t == 1 then TCadena else if t == 2 then TSizeT else TUint32
  }

  /** The loop of recibir_mochila: an unknown tag is logged and skipped, and its value stays in the buffer. */
  function LeerParametros(n: int, b: seq<Byte>): Leido<seq<Campo>>
    decreases n
  {
    if n <= 0 then Bien([], b)
    else
      match LeerEntero(b)
      case Mal(e) => Mal(e)
      case Bien(t, r) =>
        if !(0 <= t <= 3) then LeerParametros(n - 1, r)
        else
          match LeerCampo(TipoDeEtiqueta(t), r)
          case Mal(e) => Mal(e)
          case Bien(c, q) =>
            match LeerParametros(n - 1, q)
            case Mal(e) => Mal(e)
            case Bien(cs, s) => Bien([c] + cs, s)
  }

  function LeerMochila(b: seq<Byte>): Leido<Mochila> {
    match LeerEntero(b)
    case Mal(e) => Mal(e)
    case Bien(i, r) =>
      match LeerEntero(r)
      case Mal(e) => Mal(e)
      case Bien(n, q) =>
        match LeerParametros(n, q)
        case Mal(e) => Mal(e)
        case Bien(cs, s) => Bien(Mochila(i, cs), s)
  }

  predicate ParametrosOk(ps: seq<Campo>) {
    forall k :: 0 <= k < |ps| ==> Representable(ps[k]) && !ps[k].Generico?
  }

  lemma {:induction false} EtiquetadosOk(ps: seq<Campo>)
    requires ParametrosOk(ps)
    ensures Representables(Etiquetados(ps))
  {
    if ps == [] {
      // base case
    } else {
      EtiquetadosOk(ps[1..]);
    }
  }

  lemma {:induction false} IdaParametros(ps: seq<Campo>, resto: seq<Byte>)
    requires ParametrosOk(ps)
    ensures Representables(Etiquetados(ps))
    ensures LeerParametros(|ps|, EscribirTodos(Etiquetados(ps)) + resto) == Bien(ps, resto)
    decreases |ps|
  {
    EtiquetadosOk(ps);
    if ps == [] {
      assert EscribirTodos([]) + resto == resto;
    } else {
      var t := Etiqueta(ps[0]);
      EtiquetadosOk(ps[1..]);
      var cola := EscribirTodos(Etiquetados(ps[1..])) + resto;
      DosCampos(Entero(t), ps[0], Etiquetados(ps[1..]), resto);
      IdaEntero(t, Escribir(ps[0]) + cola);
      IdaCampo(ps[0], cola);
      IdaParametros(ps[1..], resto);
      UnParametro(ps, LeInt(t) + (Escribir(ps[0]) + cola), Escribir(ps[0]) + cola, cola, resto);
    }
  }

  lemma UnParametro(ps: seq<Campo>, b: seq<Byte>, q: seq<Byte>, cola: seq<Byte>, resto: seq<Byte>)
    requires ps != [] && !ps[0].Generico? && LeerEntero(b) == Bien(Etiqueta(ps[0]), q)
    requires LeerCampo(TipoDe(ps[0]), q) == Bien(ps[0], cola)
    requires LeerParametros(|ps| - 1, cola) == Bien(ps[1..], resto)
    ensures LeerParametros(|ps|, b) == Bien(ps, resto)
  {
    var t := Etiqueta(ps[0]);
    assert 0 <= t <= 3 && TipoDeEtiqueta(t) == TipoDe(ps[0]);
    assert [ps[0]] + ps[1..] == ps;
  }

  lemma DosCampos(c: Campo, d: Campo, cs: seq<Campo>, resto: seq<Byte>)
    requires Representable(c) && Representable(d) && Representables(cs)
    ensures Representables([c, d] + cs)
    ensures EscribirTodos([c, d] + cs) + resto == Escribir(c) + (Escribir(d) + (EscribirTodos(cs) + resto))
  {
    var ds := [d] + cs;
    assert ds[1..] == cs && ([c, d] + cs)[1..] == ds;
    UnCampo(ds, resto);
    UnCampo([c, d] + cs, resto);
  }

  /** The bag arrives as it was sent. */
  lemma IdaMochila(m: Mochila, resto: seq<Byte>)
    requires MochilaOk(m)
    ensures Representables(CamposMochila(m))
    ensures LeerMochila(EscribirTodos(CamposMochila(m)) + resto) == Bien(m, resto)
  {
    EtiquetadosOk(m.parametros);
    var n := |m.parametros|;
    var cola := EscribirTodos(Etiquetados(m.parametros)) + resto;
    DosCampos(Entero(m.instruccion), Entero(n), Etiquetados(m.parametros), resto);
    IdaEntero(m.instruccion, LeInt(n) + cola);
    IdaEntero(n, cola);
    IdaParametros(m.parametros, resto);
  }

  // ---- The thread context ----

  datatype Contexto = Contexto(pid: int, tid: int, maximoPC: int, base: Cpu.U32, limite: Cpu.U32, regs: Cpu.Registros)

  predicate ContextoOk(c: Contexto) {
    EsInt(c.pid) && EsInt(c.tid) && EsInt(c.maximoPC)
  }

  function Enteros(xs: seq<int>): seq<Campo> {
    seq(|xs|, k requires 0 <= k < |xs| => Entero(xs[k]))
  }

  function Uint32s(xs: seq<Cpu.U32>): seq<Campo> {
    seq(|xs|, k requires 0 <= k < |xs| => Uint32(xs[k]))
  }

  /** The unsigned fields in the order of the packet. */
  function SinSigno(c: Contexto): seq<Cpu.U32> {
    var r := c.regs;
    [c.base, c.limite, r.pc, r.ax, r.bx, r.cx, r.dx, r.ex, r.fx, r.gx, r.hx]
  }

  /** cargar_contexto_al_paquete. */
  function CamposContexto(c: Contexto): seq<Campo> {
    Enteros([c.pid, c.tid, c.maximoPC]) + Uint32s(SinSigno(c))
  }

  function LeerEnteros(n: nat, b: seq<Byte>): (r: Leido<seq<int>>)
    ensures r.Bien? ==> |r.valor| == n
  {
    if n == 0 then Bien([], b)
    else
      match LeerEntero(b)
      case Mal(e) => Mal(e)
      case Bien(v, q) =>
        match LeerEnteros(n - 1, q)
        case Mal(e) => Mal(e)
        case Bien(vs, s) => Bien([v] + vs, s)
  }

  function LeerUint32s(n: nat, b: seq<Byte>): (r: Leido<seq<Cpu.U32>>)
    ensures r.Bien? ==> |r.valor| == n
  {
    if n == 0 then Bien([], b)
    else
      match LeerUint32(b)
      case Mal(e) => Mal(e)
      case Bien(v, q) =>
        match LeerUint32s(n - 1, q)
        case Mal(e) => Mal(e)
        case Bien(vs, s) => Bien([v] + vs, s)
  }

  /** recibir_contexto: three ints, the base and the limit, and recibir_registros. */
  function LeerContexto(b: seq<Byte>): Leido<Contexto> {
    match LeerEnteros(3, b)
    case Mal(e) => Mal(e)
    case Bien(i, q) =>
      match LeerUint32s(11, q)
      case Mal(e) => Mal(e)
      case Bien(v, s) =>
        Bien(Contexto(i[0], i[1], i[2], v[0], v[1], Cpu.Registros(v[2], v[3], v[4], v[5], v[6], v[7], v[8], v[9], v[10])), s)
  }

  lemma {:induction false} IdaEnteros(xs: seq<int>, resto: seq<Byte>)
    requires forall k :: 0 <= k < |xs| ==> EsInt(xs[k])
    ensures Representables(Enteros(xs)) && LeerEnteros(|xs|, EscribirTodos(Enteros(xs)) + resto) == Bien(xs, resto)
    decreases |xs|
  {
    if xs == [] {
      assert EscribirTodos(Enteros(xs)) + resto == resto;
    } else {
      IdaEnteros(xs[1..], resto);
      assert Enteros(xs)[1..] == Enteros(xs[1..]);
      UnCampo(Enteros(xs), resto);
      IdaEntero(xs[0], EscribirTodos(Enteros(xs[1..])) + resto);
      assert [xs[0]] + xs[1..] == xs;
    }
  }

  lemma IdaUint32s(xs: seq<Cpu.U32>, resto: seq<Byte>)
    ensures Representables(Uint32s(xs)) && LeerUint32s(|xs|, EscribirTodos(Uint32s(xs)) + resto) == Bien(xs, resto)
  {
    LeerEscritos(xs, EscribirTodos(Uint32s(xs)) + resto, resto);
  }

  lemma {:induction false} LeerEscritos(xs: seq<Cpu.U32>, b: seq<Byte>, resto: seq<Byte>)
    requires Representables(Uint32s(xs)) && b == EscribirTodos(Uint32s(xs)) + resto
    ensures LeerUint32s(|xs|, b) == Bien(xs, resto)
    decreases |xs|
  {
    if xs == [] {
      assert Uint32s(xs) == [] && b == resto;
    } else {
      ColaUint32s(xs);
      var cs := Uint32s(xs);
      var q := EscribirTodos(cs[1..]) + resto;
      LeerEscritos(xs[1..], q, resto);
      UnCampo(cs, resto);
      IdaUint32(xs[0], q);
      Uint32Desde(xs, b, q, resto);
    }
  }

  lemma ColaUint32s(xs: seq<Cpu.U32>)
    requires xs != []
    ensures Representables(Uint32s(xs)) && Uint32s(xs)[0] == Uint32(xs[0]) && Uint32s(xs)[1..] == Uint32s(xs[1..])
  {
  }

  lemma IdaUint32(n: Cpu.U32, resto: seq<Byte>)
    ensures LeerUint32(Escribir(Uint32(n)) + resto) == Bien(n, resto)
  {
    IdaCampo(Uint32(n), resto);
  }

  lemma Uint32Desde(xs: seq<Cpu.U32>, b: seq<Byte>, q: seq<Byte>, resto: seq<Byte>)
    requires xs != [] && LeerUint32(b) == Bien(xs[0], q) && LeerUint32s(|xs| - 1, q) == Bien(xs[1..], resto)
    ensures LeerUint32s(|xs|, b) == Bien(xs, resto)
  {
    assert [xs[0]] + xs[1..] == xs;
  }

  lemma {:induction false} EscribirSuma(cs: seq<Campo>, ds: seq<Campo>)
    requires Representables(cs) && Representables(ds)
    ensures EscribirTodos(cs + ds) == EscribirTodos(cs) + EscribirTodos(ds)
    decreases |cs|
  {
    if cs == [] {
      assert cs + ds == ds;
    } else {
      assert (cs + ds)[1..] == cs[1..] + ds;
      EscribirSuma(cs[1..], ds);
    }
  }

  lemma CamposContextoOk(c: Contexto)
    requires ContextoOk(c)
    ensures Representables(CamposContexto(c))
    ensures Representables(Enteros([c.pid, c.tid, c.maximoPC])) && Representables(Uint32s(SinSigno(c)))
  {
  }

  /** The context arrives as it was sent, register by register. */
  lemma IdaContexto(c: Contexto, resto: seq<Byte>)
    requires ContextoOk(c)
    ensures Representables(CamposContexto(c))
    ensures LeerContexto(EscribirTodos(CamposContexto(c)) + resto) == Bien(c, resto)
  {
    var xs, v := [c.pid, c.tid, c.maximoPC], SinSigno(c);
    IdaUint32s(v, resto);
    IdaEnteros(xs, EscribirTodos(Uint32s(v)) + resto);
    BytesContexto(Enteros(xs), Uint32s(v), resto);
    ContextoDe(c, EscribirTodos(CamposContexto(c)) + resto, EscribirTodos(Uint32s(v)) + resto, resto);
  }

  /** The fields of the context, one by one. */
  lemma FormaContexto(c: Contexto)
    ensures CamposContexto(c) ==
            [Entero(c.pid), Entero(c.tid), Entero(c.maximoPC), Uint32(c.base), Uint32(c.limite), Uint32(c.regs.pc),
             Uint32(c.regs.ax), Uint32(c.regs.bx), Uint32(c.regs.cx), Uint32(c.regs.dx), Uint32(c.regs.ex),
             Uint32(c.regs.fx), Uint32(c.regs.gx), Uint32(c.regs.hx)]
  {
  }

  lemma BytesContexto(cs: seq<Campo>, ds: seq<Campo>, resto: seq<Byte>)
    requires Representables(cs) && Representables(ds)
    ensures Representables(cs + ds)
    ensures EscribirTodos(cs + ds) + resto == EscribirTodos(cs) + (EscribirTodos(ds) + resto)
  {
    EscribirSuma(cs, ds);
    Asociar(EscribirTodos(cs), EscribirTodos(ds), resto);
  }

  lemma Asociar(a: seq<Byte>, b: seq<Byte>, c: seq<Byte>)
    ensures (a + b) + c == a + (b + c)
  {
  }

  lemma ContextoDe(c: Contexto, b: seq<Byte>, q: seq<Byte>, s: seq<Byte>)
    requires LeerEnteros(3, b) == Bien([c.pid, c.tid, c.maximoPC], q) && LeerUint32s(11, q) == Bien(SinSigno(c), s)
    ensures LeerContexto(b) == Bien(c, s)
  {
  }
}
