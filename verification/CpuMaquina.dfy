/** The CPU and the memory server's side of it as the program has them: one context loaded, changed in place by the
    instruction cycle and saved, over one array of user memory. */
module CpuMaquina {
  import opened Listas
  import opened Bytes
  import opened Cpu

  class Maquina {
    const espacio: array<Byte>
    var hilos: seq<Hilo>
    /** un_contexto and hay_exit. */
    var regs: Registros
    var base: U32
    var limite: U32
    var programa: seq<Instr>
    var hayExit: bool

    ghost function MundoActual(): Mundo
      reads this, espacio
    {
      Mundo(espacio[..], hilos)
    }

    ghost function EnCurso(): Estado
      reads this, espacio
    {
      Estado(regs, espacio[..], hayExit)
    }

    constructor (tam: nat, hs: seq<Hilo>)
      ensures fresh(espacio) && espacio.Length == tam && hilos == hs && !hayExit
      ensures forall x :: 0 <= x < tam ==> espacio[x] == 0
    {
      espacio := new Byte[tam](_ => 0);
      hilos := hs;
      regs := Registros(0, 0, 0, 0, 0, 0, 0, 0, 0);
      base, limite, programa, hayExit := 0, 0, [], false;
    }

    // ---- User memory ----

    method LeerUint32(dir: nat) returns (v: U32)
      requires dir + 4 <= espacio.Length
      ensures v == Palabra(espacio[..], dir)
    {
      v := De32(espacio[dir..dir + 4]);
      assert espacio[dir..dir + 4] == espacio[..][dir..dir + 4];
    }

    method EscribirUint32(dir: nat, v: U32)
      requires dir + 4 <= espacio.Length
      modifies espacio
      ensures espacio[..] == Copiar(old(espacio[..]), dir, Le32(v))
    {
      var b := Le32(v);
      forall i | 0 <= i < 4 {
        espacio[dir + i] := b[i];
      }
    }

    // ---- Accesses of the CPU ----

    /** MMU; -1 is the fault. */
    method Mmu(dir: U32) returns (fisica: int)
      ensures fisica == if Cpu.Mmu(base, limite, dir).Some? then Cpu.Mmu(base, limite, dir).value else -1
    {
      if dir < AU32(limite - base) {
        fisica := base + dir;
      } else {
        fisica := -1;
      }
    }

    /** The value read, or all ones if there was a fault: the caller cannot tell them apart. */
    method SolicitarMemoria(dir: U32) returns (v: U32)
      requires var p := Cpu.Mmu(base, limite, dir); p.Some? ==> p.value + 4 <= espacio.Length
      ensures var p := Cpu.Mmu(base, limite, dir);
              v == if p.Some? then Palabra(espacio[..], p.value) else DOS_A_32 - 1
    {
      var fisica := Mmu(dir);
      if fisica == -1 {
        v := DOS_A_32 - 1;
      } else {
        v := LeerUint32(fisica);
      }
    }

    method EscribirValorMemoria(dir: U32, valor: U32) returns (r: int)
      requires var p := Cpu.Mmu(base, limite, dir); p.Some? ==> p.value + 4 <= espacio.Length
      modifies espacio
      ensures var p := Cpu.Mmu(base, limite, dir);
              && r == (if p.Some? then 0 else -1)
              && espacio[..] == if p.Some? then Copiar(old(espacio[..]), p.value, Le32(valor)) else old(espacio[..])
    {
      var fisica := Mmu(dir);
      if fisica != -1 {
        EscribirUint32(fisica, valor);
        r := 0;
      } else {
        r := -1;
      }
    }

    method Execute(i: Instr)
      requires Ejecutar(base, limite, EnCurso(), i).Some?
      modifies this`regs, this`hayExit, espacio
      ensures Ejecutar(base, limite, old(EnCurso()), i) == Some(EnCurso())
    {
      regs := regs.(pc := AU32(regs.pc + 1));
      match i
      case SET(x, v) => regs := Poner(regs, x, AU32(v));
      case READ_MEM(d, x) =>
        var v := SolicitarMemoria(Valor(regs, x));
        if v == DOS_A_32 - 1 { hayExit := true; } else { regs := Poner(regs, d, v); }
      case WRITE_MEM(x, d) =>
        var r := EscribirValorMemoria(Valor(regs, x), Valor(regs, d));
        if r == -1 { hayExit := true; }
      case SUM(a, b) => regs := Poner(regs, a, AU32(Valor(regs, a) + Valor(regs, b)));
      case SUB(a, b) => regs := Poner(regs, a, AU32(Valor(regs, a) - Valor(regs, b)));
      case JNZ(x, v) => if Valor(regs, x) != 0 { regs := regs.(pc := AU32(v)); }
      case LOG(_) =>
    }

    // ---- Contexts ----

    /** atender_peticion_contexto: base and limit from the process, the nine registers from the thread. */
    method CargarContexto(i: nat)
      requires i < |hilos|
      modifies this`regs, this`base, this`limite, this`programa, this`hayExit
      ensures regs == hilos[i].regs && base == hilos[i].base && limite == hilos[i].limite
      ensures programa == hilos[i].programa && hayExit == hilos[i].fin
    {
      var r := hilos[i].regs;
      base, limite, programa, hayExit := hilos[i].base, hilos[i].limite, hilos[i].programa, hilos[i].fin;
      regs := Registros(r.pc, r.ax, r.bx, r.cx, r.dx, r.ex, r.fx, r.gx, r.hx);
    }

    /** actualizar_contexto_hilo, register by register. */
    method ActualizarContexto(i: nat)
      requires i < |hilos|
      modifies this`hilos
      ensures hilos == old(hilos)[i := old(hilos)[i].(regs := regs, fin := hayExit)]
    {
      var r := hilos[i].regs;
      r := r.(ax := regs.ax);
      r := r.(bx := regs.bx);
      r := r.(cx := regs.cx);
      r := r.(dx := regs.dx);
      r := r.(ex := regs.ex);
      r := r.(fx := regs.fx);
      r := r.(gx := regs.gx);
      r := r.(hx := regs.hx);
      r := r.(pc := regs.pc);
      hilos := hilos[i := hilos[i].(regs := r, fin := hayExit)];
    }

    /** One dispatch, with the interrupt seen after k cycles. */
    method AtenderHiloKernel(i: nat, k: nat)
      requires i < |hilos| && Turno(MundoActual(), i, k).Some?
      modifies this, espacio
      ensures Turno(old(MundoActual()), i, k) == Some(MundoActual())
    {
      CargarContexto(i);
      ghost var meta := Correr(programa, base, limite, EnCurso(), k);
      var n := 0;
      while n < k && !hayExit
        invariant n <= k && hilos == old(hilos)
        invariant programa == hilos[i].programa && base == hilos[i].base && limite == hilos[i].limite
        invariant Correr(programa, base, limite, EnCurso(), k - n) == meta
        decreases k - n
      {
        Execute(programa[regs.pc]);
        n := n + 1;
      }
      assert meta == Some(EnCurso());
      ActualizarContexto(i);
    }
  }
}
