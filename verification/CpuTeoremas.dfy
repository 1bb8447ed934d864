/** What the bounds of the MMU do and do not give, and where the partitions come from. */
module CpuTeoremas {
  import opened Listas
  import opened Bytes
  import opened Cpu
  import Particiones
  import Memoria

  /** The address that an instruction asks for, if it is one that accesses memory. */
  function Accede(e: Estado, i: Instr): Option<U32> {
    match i
    case READ_MEM(_, x) => Some(Valor(Siguiente(e.regs), x))
    case WRITE_MEM(x, _) => Some(Valor(Siguiente(e.regs), x))
    case _ => None
  }

  /** Alone on its own bytes a process goes out of them exactly at the two or three addresses whose first byte is
      accepted and whose word does not fit. */
  lemma SaleDeRango(tam: nat, e: Estado, i: Instr)
    requires 1 <= tam == |e.mem| <= DOS_A_31
    ensures Ejecutar(0, tam - 1, e, i).None?
            <==> Accede(e, i).Some? && Accede(e, i).value < tam - 1 && Accede(e, i).value + 4 > tam
  {
    match i
    case READ_MEM(d, x) => MmuRelocado(0, tam, Valor(Siguiente(e.regs), x));
    case WRITE_MEM(x, d) => MmuRelocado(0, tam, Valor(Siguiente(e.regs), x));
    case _ =>
  }

  /** Every word inside the partition is accepted; the first-byte test alone keeps words inside only in a partition
      of one byte. */
  lemma MmuPorPalabra(base: U32, limite: U32)
    requires base <= limite < DOS_A_31
    ensures forall p: U32 :: base + p + 3 <= limite ==> Mmu(base, limite, p) == Some(base + p)
    ensures (forall p: U32 :: Mmu(base, limite, p).Some? ==> base + p + 3 <= limite) <==> base == limite
  {
    var tam := limite - base + 1;
    forall p: U32 ensures Mmu(base, limite, p) == if p < tam - 1 then Some(base + p) else None {
      MmuRelocado(base, tam, p);
    }
    if tam > 1 {
      assert Mmu(base, limite, tam - 2).Some?;
    }
  }

  /** A write followed by a read of the same address gives the value back unless it is all ones, which the CPU takes
      for a segmentation fault. */
  lemma EscribirYLeer(base: U32, limite: U32, e: Estado, dir: Reg, dato: Reg, otro: Reg)
    requires dir != PC && dato != PC && !e.fin
    requires Ejecutar(base, limite, e, WRITE_MEM(dir, dato)).Some?
    requires !Ejecutar(base, limite, e, WRITE_MEM(dir, dato)).value.fin
    ensures var f := Ejecutar(base, limite, e, WRITE_MEM(dir, dato)).value;
            var g := Ejecutar(base, limite, f, READ_MEM(otro, dir));
            g.Some? && g.value.mem == f.mem
            && (!g.value.fin <==> Valor(e.regs, dato) != DOS_A_32 - 1)
            && (!g.value.fin ==> Valor(g.value.regs, otro) == Valor(e.regs, dato))
  {
    var f, p := EscribePalabra(base, limite, e, dir, dato);
    LeePalabra(base, limite, f, dir, otro, p, Valor(e.regs, dato));
  }

  lemma EscribePalabra(base: U32, limite: U32, e: Estado, dir: Reg, dato: Reg) returns (f: Estado, p: nat)
    requires dir != PC && dato != PC && !e.fin
    requires Ejecutar(base, limite, e, WRITE_MEM(dir, dato)).Some?
    requires !Ejecutar(base, limite, e, WRITE_MEM(dir, dato)).value.fin
    ensures Ejecutar(base, limite, e, WRITE_MEM(dir, dato)) == Some(f) && !f.fin
    ensures Mmu(base, limite, Valor(f.regs, dir)) == Some(p) && p + 4 <= |f.mem|
    ensures Palabra(f.mem, p) == Valor(e.regs, dato)
  {
    ValorSiguiente(e.regs, dir);
    ValorSiguiente(e.regs, dato);
    f := Ejecutar(base, limite, e, WRITE_MEM(dir, dato)).value;
    p := Mmu(base, limite, Valor(e.regs, dir)).value;
    LoCopiado(e.mem, p, Le32(Valor(e.regs, dato)));
    Ida32(Valor(e.regs, dato));
  }

  lemma LeePalabra(base: U32, limite: U32, f: Estado, dir: Reg, otro: Reg, p: nat, v: U32)
    requires dir != PC && !f.fin && Mmu(base, limite, Valor(f.regs, dir)) == Some(p) && p + 4 <= |f.mem|
    requires Palabra(f.mem, p) == v
    ensures var g := Ejecutar(base, limite, f, READ_MEM(otro, dir));
            && g.Some? && g.value.mem == f.mem && (!g.value.fin <==> v != DOS_A_32 - 1)
            && (!g.value.fin ==> Valor(g.value.regs, otro) == v)
  {
    ValorSiguiente(f.regs, dir);
    PonerValor(Siguiente(f.regs), otro, otro, v);
  }

  lemma LoCopiado(d: seq<Byte>, dir: nat, valor: seq<Byte>)
    requires dir + |valor| <= |d|
    ensures Copiar(d, dir, valor)[dir..dir + |valor|] == valor
  {
    var r := Copiar(d, dir, valor)[dir..dir + |valor|];
    forall y | 0 <= y < |valor| ensures r[y] == valor[y] {}
  }

  /** All ones, stored at address 0 of a partition of eight bytes and read back: a segmentation fault. */
  lemma TodosUnos()
    ensures var e := Estado(CEROS.(bx := DOS_A_32 - 1), [0, 0, 0, 0, 0, 0, 0, 0], false);
            var f := Ejecutar(0, 7, e, WRITE_MEM(AX, BX));
            && f.Some? && !f.value.fin
            && var g := Ejecutar(0, 7, f.value, READ_MEM(CX, AX));
            g.Some? && g.value.fin
  {
    var e := Estado(CEROS.(bx := DOS_A_32 - 1), [0, 0, 0, 0, 0, 0, 0, 0], false);
    assert Mmu(0, 7, 0) == Some(0);
    EscribirYLeer(0, 7, e, AX, BX, CX);
  }

  /** SUB undoes SUM modulo 2^32, overflow included, and only the program counter tells that anything was run. */
  lemma SumarYRestar(base: U32, limite: U32, e: Estado, a: Reg, b: Reg, y: Reg)
    requires a != b && a != PC && b != PC && y != PC
    ensures var f := Ejecutar(base, limite, e, SUM(a, b)).value;
            var g := Ejecutar(base, limite, f, SUB(a, b)).value;
            g.mem == e.mem && g.fin == e.fin && Valor(g.regs, y) == Valor(e.regs, y)
            && g.regs.pc == AU32(e.regs.pc + 2)
  {
    var f := Ejecutar(base, limite, e, SUM(a, b));
    EfectoSuma(base, limite, e, a, b);
    EfectoResta(base, limite, f.value, a, b);
    SumadoYRestado(e, f, Ejecutar(base, limite, f.value, SUB(a, b)), a, b, y);
  }

  lemma SumadoYRestado(e: Estado, f: Option<Estado>, g: Option<Estado>, a: Reg, b: Reg, y: Reg)
    requires a != b && a != PC && b != PC && y != PC
    requires Pone(e, f, a, (Operando(e, a) as int + Operando(e, b)) % DOS_A_32)
    requires Pone(f.value, g, a, (Operando(f.value, a) as int - Operando(f.value, b)) % DOS_A_32)
    ensures g.value.mem == e.mem && g.value.fin == e.fin && Valor(g.value.regs, y) == Valor(e.regs, y)
    ensures g.value.regs.pc == AU32(e.regs.pc + 2)
  {
    SumaResta(Valor(e.regs, a), Valor(e.regs, b));
    DosPasos(e.regs.pc);
  }

  lemma DosPasos(pc: U32)
    ensures AU32(AU32(pc as int + 1) as int + 1) == AU32(pc as int + 2)
  {
  }

  /** Memory and status are as they were, and so are the registers other than the program counter and `x`. */
  predicate SoloRegistro(e: Estado, f: Estado, x: Reg) {
    f.mem == e.mem && f.fin == e.fin && forall y :: y != PC && y != x ==> Valor(f.regs, y) == Valor(e.regs, y)
  }

  /** What an instruction finds in a register: the program counter is already at the next one. */
  function Operando(e: Estado, x: Reg): U32 {
    if x == PC then (e.regs.pc + 1) % DOS_A_32 else Valor(e.regs, x)
  }

  /** x holds v, which for the program counter is a jump; the rest is as it was. */
  predicate Pone(e: Estado, f: Option<Estado>, x: Reg, v: int) {
    && f.Some? && SoloRegistro(e, f.value, x) && Valor(f.value.regs, x) == v
    && (x != PC ==> f.value.regs.pc == (e.regs.pc + 1) % DOS_A_32)
  }

  lemma EfectoPoner(e: Estado, x: Reg, v: U32)
    ensures Pone(e, Some(e.(regs := Poner(Siguiente(e.regs), x, v))), x, v)
  {
    forall y ensures Valor(Poner(Siguiente(e.regs), x, v), y) == if y == x then v else Valor(Siguiente(e.regs), y) {
      PonerValor(Siguiente(e.regs), x, y, v);
    }
  }

  lemma EfectoSuma(base: U32, limite: U32, e: Estado, a: Reg, b: Reg)
    ensures Pone(e, Ejecutar(base, limite, e, SUM(a, b)), a, (Operando(e, a) as int + Operando(e, b)) % DOS_A_32)
  {
    ValorSiguiente(e.regs, a);
    ValorSiguiente(e.regs, b);
    EfectoPoner(e, a, AU32(Operando(e, a) as int + Operando(e, b)));
  }

  lemma EfectoResta(base: U32, limite: U32, e: Estado, a: Reg, b: Reg)
    ensures Pone(e, Ejecutar(base, limite, e, SUB(a, b)), a, (Operando(e, a) as int - Operando(e, b)) % DOS_A_32)
  {
    ValorSiguiente(e.regs, a);
    ValorSiguiente(e.regs, b);
    EfectoPoner(e, a, AU32(Operando(e, a) as int - Operando(e, b)));
  }

  /** SET of a register; of the program counter, it is a jump. */
  lemma EfectoSet(base: U32, limite: U32, e: Estado, x: Reg, v: int)
    ensures Pone(e, Ejecutar(base, limite, e, SET(x, v)), x, v % DOS_A_32)
  {
    EfectoPoner(e, x, AU32(v));
  }

  /** JNZ jumps exactly when the register is not zero. */
  lemma EfectoJnz(base: U32, limite: U32, e: Estado, x: Reg, v: int)
    ensures var f := Ejecutar(base, limite, e, JNZ(x, v));
            && f.Some? && SoloRegistro(e, f.value, PC)
            && f.value.regs.pc == (if Operando(e, x) != 0 then v % DOS_A_32 else (e.regs.pc + 1) % DOS_A_32)
  {
    ValorSiguiente(e.regs, x);
  }

  lemma EfectoLog(base: U32, limite: U32, e: Estado, x: Reg)
    ensures var f := Ejecutar(base, limite, e, LOG(x));
            f.Some? && SoloRegistro(e, f.value, PC) && f.value.regs.pc == (e.regs.pc + 1) % DOS_A_32
  {
  }

  /** The little-endian word at p. */
  function PalabraEn(mem: seq<Byte>, p: nat): int
    requires p + 4 <= |mem|
  {
    mem[p] as int + 0x100 * mem[p + 1] as int + 0x1_0000 * mem[p + 2] as int + 0x100_0000 * mem[p + 3] as int
  }

  lemma PalabraLeida(mem: seq<Byte>, p: nat)
    requires p + 4 <= |mem|
    ensures Palabra(mem, p) == PalabraEn(mem, p)
  {
  }

  /** READ_MEM: the word at base plus address; the end of the process if the address is not below limit minus base or
      the word is all ones. */
  lemma EfectoLeer(base: U32, limite: U32, e: Estado, d: Reg, x: Reg)
    requires base <= limite
    ensures var f := Ejecutar(base, limite, e, READ_MEM(d, x));
            var p := base + Operando(e, x);
            if p >= limite then f == Some(e.(regs := Siguiente(e.regs), fin := true))
            else if p + 4 > |e.mem| then f == None
            else if PalabraEn(e.mem, p) == DOS_A_32 - 1 then f == Some(e.(regs := Siguiente(e.regs), fin := true))
            else Pone(e, f, d, PalabraEn(e.mem, p))
  {
    ValorSiguiente(e.regs, x);
    var p := base + Operando(e, x);
    if p < limite && p + 4 <= |e.mem| {
      var v := Palabra(e.mem, p);
      PalabraLeida(e.mem, p);
      EfectoPoner(e, d, v);
    }
  }

  /** WRITE_MEM: the four bytes of the register at base plus address, lowest first, and no other byte; the end of the
      process, with nothing written, if the address is not below limit minus base. */
  lemma EfectoEscribir(base: U32, limite: U32, e: Estado, x: Reg, d: Reg)
    requires base <= limite
    ensures var f := Ejecutar(base, limite, e, WRITE_MEM(x, d));
            var p := base + Operando(e, x);
            if p >= limite then f == Some(e.(regs := Siguiente(e.regs), fin := true))
            else if p + 4 > |e.mem| then f == None
            else && f.Some? && f.value.regs == Siguiente(e.regs) && f.value.fin == e.fin && |f.value.mem| == |e.mem|
                 && PalabraEn(f.value.mem, p) == Operando(e, d)
                 && (forall y :: 0 <= y < |e.mem| && !(p <= y < p + 4) ==> f.value.mem[y] == e.mem[y])
  {
    ValorSiguiente(e.regs, x);
    ValorSiguiente(e.regs, d);
    var p := base + Operando(e, x);
    if p < limite && p + 4 <= |e.mem| { PalabraCopiada(e.mem, p, Operando(e, d)); }
  }

  lemma PalabraCopiada(mem: seq<Byte>, p: nat, v: U32)
    requires p + 4 <= |mem|
    ensures PalabraEn(Copiar(mem, p, Le32(v)), p) == v
  {
    Ida32(v);
    assert PalabraEn(Copiar(mem, p, Le32(v)), p) == De32(Le32(v));
  }

  /** What a countdown leaves: its register at zero and the program counter past the loop. */
  function TrasCuenta(e: Estado, a: Reg, p: U32): Estado
    requires p + 2 < DOS_A_32
  {
    e.(regs := Poner(e.regs, a, 0).(pc := p + 2))
  }

  /** A loop SUB; JNZ on a register that holds n >= 1, with a step of one, ends after 2n cycles and not before. */
  lemma {:induction false} CuentaRegresiva(prog: seq<Instr>, base: U32, limite: U32, e: Estado, a: Reg, b: Reg, p: U32,
                                           n: nat)
    requires a != b && a != PC && b != PC && p + 1 < |prog| && p + 2 < DOS_A_32
    requires prog[p] == SUB(a, b) && prog[p + 1] == JNZ(a, p)
    requires n >= 1 && e.regs.pc == p && Valor(e.regs, a) == n && Valor(e.regs, b) == 1 && !e.fin
    ensures Correr(prog, base, limite, e, 2 * n) == Some(TrasCuenta(e, a, p))
    ensures forall k: nat :: k < 2 * n ==>
      Correr(prog, base, limite, e, k).Some? && p <= Correr(prog, base, limite, e, k).value.regs.pc <= p + 1
    decreases n
  {
    var g := UnaVuelta(prog, base, limite, e, a, b, p, n);
    if n == 1 {
      // base case
    } else {
      CuentaRegresiva(prog, base, limite, g, a, b, p, n - 1);
      assert TrasCuenta(g, a, p) == TrasCuenta(e, a, p);
    }
    forall k: nat | k < 2 * n
      ensures Correr(prog, base, limite, e, k).Some? && p <= Correr(prog, base, limite, e, k).value.regs.pc <= p + 1
    {
      if k >= 2 { assert Correr(prog, base, limite, e, k) == Correr(prog, base, limite, g, k - 2); }
    }
  }

  /** One turn of the loop: the register is one less, and the program counter is past the loop if that is zero. */
  lemma UnaVuelta(prog: seq<Instr>, base: U32, limite: U32, e: Estado, a: Reg, b: Reg, p: U32, n: nat) returns (g: Estado)
    requires a != b && a != PC && b != PC && p + 1 < |prog| && p + 2 < DOS_A_32
    requires prog[p] == SUB(a, b) && prog[p + 1] == JNZ(a, p)
    requires n >= 1 && e.regs.pc == p && Valor(e.regs, a) == n && Valor(e.regs, b) == 1 && !e.fin
    ensures g == e.(regs := Poner(e.regs, a, n - 1).(pc := if n == 1 then p + 2 else p))
    ensures Valor(g.regs, a) == n - 1 && Valor(g.regs, b) == 1 && TrasCuenta(g, a, p) == TrasCuenta(e, a, p)
    ensures n == 1 ==> g == TrasCuenta(e, a, p)
    ensures forall k: nat :: k >= 2 ==> Correr(prog, base, limite, e, k) == Correr(prog, base, limite, g, k - 2)
    ensures Correr(prog, base, limite, e, 1).Some? && Correr(prog, base, limite, e, 1).value.regs.pc == p + 1
  {
    PonerValor(e.regs, a, a, n - 1);
    PonerValor(e.regs, a, b, n - 1);
    var f := UnaResta(prog, base, limite, e, a, b, p, n);
    assert Correr(prog, base, limite, e, 1) == Correr(prog, base, limite, f, 0);
    g := UnSalto(prog, base, limite, f, a, p, n - 1);
  }

  lemma UnaResta(prog: seq<Instr>, base: U32, limite: U32, e: Estado, a: Reg, b: Reg, p: U32, n: int) returns (f: Estado)
    requires a != b && a != PC && b != PC && p < |prog| && p + 2 < DOS_A_32 && prog[p] == SUB(a, b)
    requires 1 <= n < DOS_A_32 && e.regs.pc == p && Valor(e.regs, a) == n && Valor(e.regs, b) == 1 && !e.fin
    ensures f == e.(regs := Poner(e.regs, a, n - 1).(pc := p + 1))
    ensures forall k: nat :: k >= 1 ==> Correr(prog, base, limite, e, k) == Correr(prog, base, limite, f, k - 1)
  {
    ValorSiguiente(e.regs, a);
    ValorSiguiente(e.regs, b);
    f := Ejecutar(base, limite, e, prog[p]).value;
  }

  lemma UnSalto(prog: seq<Instr>, base: U32, limite: U32, e: Estado, a: Reg, p: U32, n: int) returns (f: Estado)
    requires a != PC && p + 1 < |prog| && p + 2 < DOS_A_32 && prog[p + 1] == JNZ(a, p)
    requires 0 <= n < DOS_A_32 && e.regs.pc == p + 1 && Valor(e.regs, a) == n && !e.fin
    ensures f == e.(regs := e.regs.(pc := if n == 0 then p + 2 else p))
    ensures forall k: nat :: k >= 1 ==> Correr(prog, base, limite, e, k) == Correr(prog, base, limite, f, k - 1)
  {
    ValorSiguiente(e.regs, a);
    f := Ejecutar(base, limite, e, prog[p + 1]).value;
  }

  lemma ValorSiguiente(r: Registros, z: Reg)
    ensures Valor(Siguiente(r), z) == if z == PC then AU32(r.pc + 1) else Valor(r, z)
  {
  }

  lemma SumaResta(va: int, vb: int)
    requires 0 <= va < DOS_A_32 && 0 <= vb < DOS_A_32
    ensures AU32(AU32(va + vb) as int - vb) == va
  {
  }

  /** The order of the dispatches does not matter: only how many cycles each process got. */
  lemma Confluencia(w: Mundo, a: Agenda, b: Agenda)
    requires Valido(w) && TodosSolos(w, a)
    requires forall t :: 0 <= t < |a| ==> a[t].0 < |w.hilos|
    requires forall t :: 0 <= t < |b| ==> b[t].0 < |w.hilos|
    requires forall i :: 0 <= i < |w.hilos| ==> Ciclos(a, i) == Ciclos(b, i)
    ensures Planificar(w, a).Some? && Planificar(w, b).Some?
    ensures var u, v := Planificar(w, a).value, Planificar(w, b).value;
            Valido(u) && Valido(v) && |u.hilos| == |v.hilos|
            && forall i :: 0 <= i < |u.hilos| ==> Vista(u, i) == Vista(v, i)
  {
    forall i | 0 <= i < |w.hilos| ensures Solo(w, i, Ciclos(b, i)).Some? {
      assert Ciclos(a, i) == Ciclos(b, i);
    }
    NoInterferencia(w, a);
    NoInterferencia(w, b);
  }

  // ---- The hypothesis is needed ----

  const CEROS: Registros := Registros(0, 0, 0, 0, 0, 0, 0, 0, 0)

  /** Two partitions of four bytes, side by side; the first process writes the word at its address 2. */
  const VECINOS: Mundo := Mundo(
    [0, 0, 0, 0, 0, 0, 0, 0],
    [Hilo(CEROS, 0, 3, [SET(AX, 2), SET(BX, 0x01010101), WRITE_MEM(AX, BX)], false), Hilo(CEROS, 4, 7, [], false)])

  lemma CorrerPaso(prog: seq<Instr>, base: U32, limite: U32, e: Estado, k: nat)
    requires k > 0 && !e.fin && e.regs.pc < |prog| && Ejecutar(base, limite, e, prog[e.regs.pc]).Some?
    ensures Correr(prog, base, limite, e, k)
            == Correr(prog, base, limite, Ejecutar(base, limite, e, prog[e.regs.pc]).value, k - 1)
  {
  }

  lemma VecinoEscribe()
    ensures Correr(VECINOS.hilos[0].programa, 0, 3, Estado(CEROS, VECINOS.mem, false), 3)
            == Some(Estado(CEROS.(pc := 3, ax := 2, bx := 0x01010101), Copiar(VECINOS.mem, 2, [1, 1, 1, 1]), false))
  {
    var h := VECINOS.hilos[0];
    var e0 := Estado(CEROS, VECINOS.mem, false);
    var e1 := e0.(regs := CEROS.(pc := 1, ax := 2));
    var e2 := e0.(regs := CEROS.(pc := 2, ax := 2, bx := 0x01010101));
    assert Le32(0x01010101) == [1, 1, 1, 1];
    CorrerPaso(h.programa, 0, 3, e0, 3);
    CorrerPaso(h.programa, 0, 3, e1, 2);
    CorrerPaso(h.programa, 0, 3, e2, 1);
  }

  /** Without the word-in-bounds hypothesis a process changes its neighbour's bytes. */
  lemma Interferencia()
    ensures Valido(VECINOS) && !TodosSolos(VECINOS, [(0, 3)])
    ensures Planificar(VECINOS, [(0, 3)]).Some?
    ensures var v := Planificar(VECINOS, [(0, 3)]).value; Valido(v) && |v.hilos| == 2 && Vista(v, 1) != Vista(VECINOS, 1)
  {
    VecinoEscribe();
    var v := Turno(VECINOS, 0, 3).value;
    assert [(0, 3)][1..] == [];
    assert Planificar(VECINOS, [(0, 3)]) == Some(v);
    assert Vista(v, 1).mem[0] == v.mem[4] == 1;
    assert Vista(VECINOS, 1).mem[0] == VECINOS.mem[4] == 0;
    SoloSale();
  }

  lemma SoloSale()
    ensures Valido(VECINOS) && !TodosSolos(VECINOS, [(0, 3)])
  {
    var h := VECINOS.hilos[0];
    var s0 := Vista(VECINOS, 0);
    assert s0.mem == [0, 0, 0, 0];
    var s1 := s0.(regs := CEROS.(pc := 1, ax := 2));
    var s2 := s0.(regs := CEROS.(pc := 2, ax := 2, bx := 0x01010101));
    CorrerPaso(h.programa, 0, 3, s0, 3);
    CorrerPaso(h.programa, 0, 3, s1, 2);
    assert Ejecutar(0, 3, s2, h.programa[2]).None?;
    assert Correr(h.programa, 0, 3, s2, 1).None?;
    assert Correr(h.programa, 0, 3, s0, 3).None?;
    assert [(0, 3)][1..] == [];
    assert Ciclos([(0, 3)], 0) == 3;
    assert Solo(VECINOS, 0, Ciclos([(0, 3)], 0)).None?;
  }

  // ---- The allocator ----

  /** Two residents of the memory server are in separate places of user memory. */
  lemma ResidentesSeparados(m: Memoria.Mem, total: int, j: nat, k: nat)
    requires Memoria.Inv(m, total) && j < |m.procs| && k < |m.procs|
    ensures 0 <= m.procs[j].base <= m.procs[j].limite < total
    ensures j != k ==> m.procs[j].limite < m.procs[k].base || m.procs[k].limite < m.procs[j].base
  {
    var s := Particiones.Ordenar(m.parts);
    Particiones.TeselaForma(s, 0, total);
    assert m.procs[j] in m.procs && m.procs[k] in m.procs;
    var p :| p in s && Memoria.Corresponde(p, m.procs[j]);
    var q :| q in s && Memoria.Corresponde(q, m.procs[k]);
    var a: nat :| a < |s| && s[a] == p;
    var b: nat :| b < |s| && s[b] == q;
    if j != k {
      assert m.procs[j].pid != m.procs[k].pid;
      assert a != b;
    }
  }

  /** So the machine whose processes sit where the allocator put them is one to which NoInterferencia applies. */
  lemma MundoValido(m: Memoria.Mem, total: nat, w: Mundo)
    requires Memoria.Inv(m, total) && total <= |w.mem| <= DOS_A_31 && |w.hilos| == |m.procs|
    requires forall i :: 0 <= i < |w.hilos| ==> w.hilos[i].base == m.procs[i].base && w.hilos[i].limite == m.procs[i].limite
    ensures Valido(w)
  {
    forall i | 0 <= i < |w.hilos| ensures w.hilos[i].base <= w.hilos[i].limite < |w.mem| {
      ResidentesSeparados(m, total, i, i);
    }
    forall i, j | 0 <= i < j < |w.hilos| ensures Separados(w.hilos[i], w.hilos[j]) {
      ResidentesSeparados(m, total, i, j);
    }
  }
}
