/** The CPU's instruction cycle over relocated memory, and what its interleavings leave of each process. */
module Cpu {
  import opened Listas
  import opened Bytes

  type U32 = x: int | 0 <= x < DOS_A_32

  datatype Reg = PC | AX | BX | CX | DX | EX | FX | GX | HX

  datatype Registros = Registros(pc: U32, ax: U32, bx: U32, cx: U32, dx: U32, ex: U32, fx: U32, gx: U32, hx: U32)

  datatype Instr =
    | SET(r: Reg, v: int)
    | SUM(a: Reg, b: Reg)
    | SUB(a: Reg, b: Reg)
    | JNZ(r: Reg, v: int)
    | READ_MEM(dato: Reg, dir: Reg)
    | WRITE_MEM(dir: Reg, dato: Reg)
    | LOG(r: Reg)

  /** detectar_registro. */
  function Valor(r: Registros, x: Reg): U32 {
    match x
    case PC => r.pc
    case AX => r.ax
    case BX => r.bx
    case CX => r.cx
    case DX => r.dx
    case EX => r.ex
    case FX => r.fx
    case GX => r.gx
    case HX => r.hx
  }

  function Poner(r: Registros, x: Reg, v: U32): Registros {
    match x
    case PC => r.(pc := v)
    case AX => r.(ax := v)
    case BX => r.(bx := v)
    case CX => r.(cx := v)
    case DX => r.(dx := v)
    case EX => r.(ex := v)
    case FX => r.(fx := v)
    case GX => r.(gx := v)
    case HX => r.(hx := v)
  }

  lemma PonerValor(r: Registros, x: Reg, y: Reg, v: U32)
    ensures Valor(Poner(r, x, v), y) == if x == y then v else Valor(r, y)
  {
  }

  function AU32(v: int): U32 {
    v % DOS_A_32
  }

  /** The unsigned comparison bounds only the first byte of the word. */
  function Mmu(base: U32, limite: U32, dir: U32): Option<int> {
    if dir < AU32(limite - base) then Some(base + dir) else None
  }

  function Palabra(mem: seq<Byte>, dir: nat): U32
    requires dir + 4 <= |mem|
  {
    De32(mem[dir..dir + 4])
  }

  /** What the CPU and the memory hold while one thread runs; `fin` is hay_exit. */
  datatype Estado = Estado(regs: Registros, mem: seq<Byte>, fin: bool)

  function Siguiente(r: Registros): Registros {
    r.(pc := AU32(r.pc + 1))
  }

  /** execute, one instruction. None is an access past the end of user memory. */
  function Ejecutar(base: U32, limite: U32, e: Estado, i: Instr): Option<Estado> {
    var r := Siguiente(e.regs);
    match i
    case SET(x, v) => Some(e.(regs := Poner(r, x, AU32(v))))
    case SUM(a, b) => Some(e.(regs := Poner(r, a, AU32(Valor(r, a) + Valor(r, b)))))
    case SUB(a, b) => Some(e.(regs := Poner(r, a, AU32(Valor(r, a) - Valor(r, b)))))
    case JNZ(x, v) => Some(e.(regs := if Valor(r, x) != 0 then r.(pc := AU32(v)) else r))
    case LOG(x) => Some(e.(regs := r))
    case READ_MEM(d, x) =>
      (match Mmu(base, limite, Valor(r, x))
       case None => Some(e.(regs := r, fin := true))
       case Some(p) =>
         if p + 4 > |e.mem| then None
         else if Palabra(e.mem, p) == DOS_A_32 - 1 then Some(e.(regs := r, fin := true))
         else Some(e.(regs := Poner(r, d, Palabra(e.mem, p)))))
    case WRITE_MEM(x, d) =>
      (match Mmu(base, limite, Valor(r, x))
       case None => Some(e.(regs := r, fin := true))
       case Some(p) =>
         if p + 4 > |e.mem| then None
         else Some(e.(regs := r, mem := Copiar(e.mem, p, Le32(Valor(r, d))))))
  }

  /** One cycle: fetch only below the end of the program, past which the CPU waits for ever. */
  function Ciclo(prog: seq<Instr>, base: U32, limite: U32, e: Estado): Option<Estado> {
    if e.regs.pc < |prog| then Ejecutar(base, limite, e, prog[e.regs.pc]) else None
  }

  /** The run loop: k cycles, or fewer if the thread ends. */
  function Correr(prog: seq<Instr>, base: U32, limite: U32, e: Estado, k: nat): Option<Estado>
    decreases k
  {
    if k == 0 || e.fin then Some(e)
    else
      match Ciclo(prog, base, limite, e)
      case None => None
      case Some(f) => Correr(prog, base, limite, f, k - 1)
  }

  // ---- Relocation ----

  /** mem with the bytes from base on replaced. */
  function Con(mem: seq<Byte>, base: nat, propia: seq<Byte>): (r: seq<Byte>)
    requires base + |propia| <= |mem|
    ensures |r| == |mem|
  {
    Copiar(mem, base, propia)
  }

  /** Running at a base is running at address zero on one's own bytes, and no other byte changes. */
  lemma EjecutarRelocado(base: U32, tam: nat, e: Estado, mem: seq<Byte>, i: Instr)
    requires 1 <= tam == |e.mem| && base + tam <= |mem| <= DOS_A_31 && mem == Con(mem, base, e.mem)
    requires Ejecutar(0, tam - 1, e, i).Some?
    ensures base + tam - 1 < DOS_A_32 && |Ejecutar(0, tam - 1, e, i).value.mem| == tam
    ensures var f := Ejecutar(0, tam - 1, e, i).value;
            Ejecutar(base, base + tam - 1, e.(mem := mem), i) == Some(f.(mem := Con(mem, base, f.mem)))
  {
    match i {
      case READ_MEM(d, x) => LeerRelocado(base, tam, e, mem, d, x);
      case WRITE_MEM(x, d) => EscribirRelocado(base, tam, e, mem, x, d);
      case _ =>
    }
  }

  lemma LeerRelocado(base: U32, tam: nat, e: Estado, mem: seq<Byte>, d: Reg, x: Reg)
    requires 1 <= tam == |e.mem| && base + tam <= |mem| <= DOS_A_31 && mem == Con(mem, base, e.mem)
    requires Ejecutar(0, tam - 1, e, READ_MEM(d, x)).Some?
    ensures base + tam - 1 < DOS_A_32
    ensures var f := Ejecutar(0, tam - 1, e, READ_MEM(d, x)).value;
            f.mem == e.mem && Ejecutar(base, base + tam - 1, e.(mem := mem), READ_MEM(d, x)) == Some(f.(mem := mem))
  {
    var p := Valor(Siguiente(e.regs), x);
    MmuRelocado(base, tam, p);
    if p < tam - 1 { PalabraRelocada(base, e.mem, mem, p); }
  }

  lemma EscribirRelocado(base: U32, tam: nat, e: Estado, mem: seq<Byte>, x: Reg, d: Reg)
    requires 1 <= tam == |e.mem| && base + tam <= |mem| <= DOS_A_31 && mem == Con(mem, base, e.mem)
    requires Ejecutar(0, tam - 1, e, WRITE_MEM(x, d)).Some?
    ensures base + tam - 1 < DOS_A_32 && |Ejecutar(0, tam - 1, e, WRITE_MEM(x, d)).value.mem| == tam
    ensures var f := Ejecutar(0, tam - 1, e, WRITE_MEM(x, d)).value;
            Ejecutar(base, base + tam - 1, e.(mem := mem), WRITE_MEM(x, d)) == Some(f.(mem := Con(mem, base, f.mem)))
  {
    var p := Valor(Siguiente(e.regs), x);
    MmuRelocado(base, tam, p);
    if p < tam - 1 { EscrituraRelocada(base, e.mem, mem, p, Le32(Valor(Siguiente(e.regs), d))); }
  }

  lemma MmuRelocado(base: U32, tam: nat, p: U32)
    requires 1 <= tam && base + tam <= DOS_A_31
    ensures Mmu(0, tam - 1, p) == if p < tam - 1 then Some(p) else None
    ensures Mmu(base, base + tam - 1, p) == if p < tam - 1 then Some(base + p) else None
  {
  }

  lemma PalabraRelocada(base: nat, propia: seq<Byte>, mem: seq<Byte>, p: nat)
    requires base + |propia| <= |mem| && mem == Con(mem, base, propia) && p + 4 <= |propia|
    ensures Palabra(mem, base + p) == Palabra(propia, p)
  {
    assert mem[base + p..base + p + 4] == propia[p..p + 4];
  }

  lemma EscrituraRelocada(base: nat, propia: seq<Byte>, mem: seq<Byte>, p: nat, v: seq<Byte>)
    requires base + |propia| <= |mem| && mem == Con(mem, base, propia) && p + |v| <= |propia|
    ensures Copiar(mem, base + p, v) == Con(mem, base, Copiar(propia, p, v))
  {
  }

  lemma {:induction false} CorrerRelocado(prog: seq<Instr>, base: U32, tam: nat, e: Estado, mem: seq<Byte>, k: nat)
    requires 1 <= tam == |e.mem| && base + tam <= |mem| <= DOS_A_31 && mem == Con(mem, base, e.mem)
    requires Correr(prog, 0, tam - 1, e, k).Some?
    ensures base + tam - 1 < DOS_A_32 && |Correr(prog, 0, tam - 1, e, k).value.mem| == tam
    ensures var f := Correr(prog, 0, tam - 1, e, k).value;
            Correr(prog, base, base + tam - 1, e.(mem := mem), k) == Some(f.(mem := Con(mem, base, f.mem)))
    decreases k
  {
    if k == 0 || e.fin {
      // base case
    } else {
      EjecutarRelocado(base, tam, e, mem, prog[e.regs.pc]);
      var f := Ejecutar(0, tam - 1, e, prog[e.regs.pc]).value;
      var m := Con(mem, base, f.mem);
      assert m == Con(m, base, f.mem);
      CorrerRelocado(prog, base, tam, f, m, k - 1);
      var g := Correr(prog, 0, tam - 1, f, k - 1).value;
      assert Con(m, base, g.mem) == Con(mem, base, g.mem);
    }
  }

  /** Stopping between instructions, saving and loading changes nothing. */
  lemma {:induction false} CorrerSuma(prog: seq<Instr>, base: U32, limite: U32, e: Estado, j: nat, k: nat)
    ensures Correr(prog, base, limite, e, j + k) ==
            match Correr(prog, base, limite, e, j)
            case None => None
            case Some(f) => Correr(prog, base, limite, f, k)
    decreases j
  {
    if j == 0 || e.fin {
      // base case
    } else {
      match Ciclo(prog, base, limite, e)
      case None =>
      case Some(f) => CorrerSuma(prog, base, limite, f, j - 1, k);
    }
  }

  // ---- Many processes ----

  /** A resident process with one thread: saved registers, partition and program. */
  datatype Hilo = Hilo(regs: Registros, base: U32, limite: U32, programa: seq<Instr>, fin: bool)

  datatype Mundo = Mundo(mem: seq<Byte>, hilos: seq<Hilo>)

  function Tam(h: Hilo): int {
    h.limite - h.base + 1
  }

  predicate Separados(a: Hilo, b: Hilo) {
    a.limite < b.base || b.limite < a.base
  }

  predicate Valido(w: Mundo) {
    && |w.mem| <= DOS_A_31
    && (forall i :: 0 <= i < |w.hilos| ==> w.hilos[i].base <= w.hilos[i].limite < |w.mem|)
    && (forall i, j :: 0 <= i < j < |w.hilos| ==> Separados(w.hilos[i], w.hilos[j]))
  }

  /** What process i can see: its registers and its partition, from address zero. */
  function Vista(w: Mundo, i: nat): (e: Estado)
    requires Valido(w) && i < |w.hilos|
    ensures |e.mem| == Tam(w.hilos[i])
  {
    var h := w.hilos[i];
    Estado(h.regs, w.mem[h.base..h.limite + 1], h.fin)
  }

  /** atender_hilo_kernel: load the context, run until the interrupt, save. A finished thread is not dispatched. */
  function Turno(w: Mundo, i: nat, k: nat): Option<Mundo>
    requires i < |w.hilos|
  {
    var h := w.hilos[i];
    match Correr(h.programa, h.base, h.limite, Estado(h.regs, w.mem, h.fin), k)
    case None => None
    case Some(e) => Some(Mundo(e.mem, w.hilos[i := h.(regs := e.regs, fin := e.fin)]))
  }

  /** Dispatches in order: which process, and after how many cycles the interrupt is seen. */
  type Agenda = seq<(nat, nat)>

  function Planificar(w: Mundo, a: Agenda): Option<Mundo>
    decreases |a|
  {
    if a == [] then Some(w)
    else if a[0].0 >= |w.hilos| then None
    else
      match Turno(w, a[0].0, a[0].1)
      case None => None
      case Some(v) => Planificar(v, a[1..])
  }

  /** The cycles an agenda gives to process i. */
  function Ciclos(a: Agenda, i: nat): nat {
    if a == [] then 0 else (if a[0].0 == i then a[0].1 else 0) + Ciclos(a[1..], i)
  }

  /** Process i alone, at address zero, on memory of its own, for that many cycles. */
  function Solo(w: Mundo, i: nat, k: nat): Option<Estado>
    requires Valido(w) && i < |w.hilos|
  {
    var h := w.hilos[i];
    Correr(h.programa, 0, Tam(h) - 1, Vista(w, i), k)
  }

  predicate MismoLugar(a: Hilo, b: Hilo) {
    a.base == b.base && a.limite == b.limite && a.programa == b.programa
  }

  /** One dispatch: the process's view moves as it does alone, and nobody else's moves. */
  lemma TurnoAislado(w: Mundo, i: nat, k: nat)
    requires Valido(w) && i < |w.hilos| && Solo(w, i, k).Some?
    ensures Turno(w, i, k).Some?
    ensures var v := Turno(w, i, k).value;
            && Valido(v) && |v.hilos| == |w.hilos|
            && Vista(v, i) == Solo(w, i, k).value
            && (forall j :: 0 <= j < |w.hilos| ==> MismoLugar(v.hilos[j], w.hilos[j]))
            && (forall j :: 0 <= j < |w.hilos| && j != i ==> Vista(v, j) == Vista(w, j))
  {
    var h := w.hilos[i];
    var e := Vista(w, i);
    assert w.mem == Con(w.mem, h.base, e.mem);
    CorrerRelocado(h.programa, h.base, Tam(h), e, w.mem, k);
    var v := Turno(w, i, k).value;
    var f := Solo(w, i, k).value;
    assert v.mem == Con(w.mem, h.base, f.mem);
    assert Vista(v, i).mem == f.mem;
    MismosLugares(w, v, i);
    VistasAjenas(w, v, i, f.mem);
  }

  lemma MismosLugares(w: Mundo, v: Mundo, i: nat)
    requires Valido(w) && i < |w.hilos| == |v.hilos| && |v.mem| == |w.mem| && MismoLugar(v.hilos[i], w.hilos[i])
    requires forall j :: 0 <= j < |w.hilos| && j != i ==> v.hilos[j] == w.hilos[j]
    ensures Valido(v) && forall j :: 0 <= j < |w.hilos| ==> MismoLugar(v.hilos[j], w.hilos[j])
  {
    forall j | 0 <= j < |w.hilos| ensures MismoLugar(v.hilos[j], w.hilos[j]) {}
    forall j, k | 0 <= j < k < |w.hilos| ensures Separados(v.hilos[j], v.hilos[k]) {
      assert MismoLugar(v.hilos[j], w.hilos[j]) && MismoLugar(v.hilos[k], w.hilos[k]);
      assert Separados(w.hilos[j], w.hilos[k]);
    }
  }

  lemma VistasAjenas(w: Mundo, v: Mundo, i: nat, propia: seq<Byte>)
    requires Valido(w) && Valido(v) && i < |w.hilos| == |v.hilos|
    requires |propia| == Tam(w.hilos[i]) && v.mem == Con(w.mem, w.hilos[i].base, propia)
    requires forall j :: 0 <= j < |w.hilos| && j != i ==> v.hilos[j] == w.hilos[j]
    ensures forall j :: 0 <= j < |w.hilos| && j != i ==> Vista(v, j) == Vista(w, j)
  {
    forall j | 0 <= j < |w.hilos| && j != i ensures Vista(v, j) == Vista(w, j) {
      assert i < j ==> Separados(w.hilos[i], w.hilos[j]);
      assert j < i ==> Separados(w.hilos[j], w.hilos[i]);
      OtraVista(w.mem, w.hilos[i].base, propia, w.hilos[j].base, w.hilos[j].limite + 1);
    }
  }

  lemma OtraVista(mem: seq<Byte>, base: nat, propia: seq<Byte>, a: nat, b: nat)
    requires base + |propia| <= |mem| && a <= b <= |mem| && (b <= base || base + |propia| <= a)
    ensures Con(mem, base, propia)[a..b] == mem[a..b]
  {
  }

  /** Every process alone stays inside its partition for the cycles that the agenda gives it. */
  predicate TodosSolos(w: Mundo, a: Agenda)
    requires Valido(w)
  {
    forall i :: 0 <= i < |w.hilos| ==> Solo(w, i, Ciclos(a, i)).Some?
  }

  /** Non-interference: after any interleaving every process has the registers, the partition bytes and the status it
      has after running alone for as many cycles. */
  lemma {:induction false} NoInterferencia(w: Mundo, a: Agenda)
    requires Valido(w) && TodosSolos(w, a) && (forall t :: 0 <= t < |a| ==> a[t].0 < |w.hilos|)
    ensures Planificar(w, a).Some?
    ensures var v := Planificar(w, a).value;
            && Valido(v) && |v.hilos| == |w.hilos|
            && (forall i :: 0 <= i < |w.hilos| ==> Vista(v, i) == Solo(w, i, Ciclos(a, i)).value)
    decreases |a|
  {
    if a == [] {
      forall i | 0 <= i < |w.hilos| ensures Solo(w, i, 0) == Some(Vista(w, i)) {}
    } else {
      var (i, k) := a[0];
      PrimerTurno(w, a, i);
      TurnoAislado(w, i, k);
      var v := Turno(w, i, k).value;
      forall j | 0 <= j < |w.hilos| ensures Solo(v, j, Ciclos(a[1..], j)) == Solo(w, j, Ciclos(a, j)) {
        QuedaIgual(w, a, v, j);
      }
      NoInterferencia(v, a[1..]);
    }
  }

  /** What process j has still to do after the first dispatch. */
  lemma QuedaIgual(w: Mundo, a: Agenda, v: Mundo, j: nat)
    requires Valido(w) && Valido(v) && a != [] && j < |w.hilos| == |v.hilos| && Solo(w, j, Ciclos(a, j)).Some?
    requires MismoLugar(v.hilos[j], w.hilos[j])
    requires if j == a[0].0 then Some(Vista(v, j)) == Solo(w, j, a[0].1) else Vista(v, j) == Vista(w, j)
    ensures Solo(v, j, Ciclos(a[1..], j)) == Solo(w, j, Ciclos(a, j))
  {
    PrimerTurno(w, a, j);
  }

  lemma PrimerTurno(w: Mundo, a: Agenda, j: nat)
    requires Valido(w) && a != [] && j < |w.hilos| && Solo(w, j, Ciclos(a, j)).Some?
    ensures a[0].0 == j ==> Solo(w, j, a[0].1).Some?
    ensures a[0].0 == j ==>
      var h := w.hilos[j];
      Correr(h.programa, 0, Tam(h) - 1, Solo(w, j, a[0].1).value, Ciclos(a[1..], j)) == Solo(w, j, Ciclos(a, j))
    ensures a[0].0 != j ==> Ciclos(a, j) == Ciclos(a[1..], j)
  {
    var h := w.hilos[j];
    if a[0].0 == j { CorrerSuma(h.programa, 0, Tam(h) - 1, Vista(w, j), a[0].1, Ciclos(a[1..], j)); }
  }
}
