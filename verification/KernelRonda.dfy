/** The round-robin bound in the messages that take the CPU from the running thread: evictions, blocks and ends. */
module KernelRonda {
  import opened Listas
  import opened KernelEstado
  import opened KernelInvariante
  import opened KernelPasos
  import opened KernelTurnos
  import opened KernelEfectos

  /** The message evicts, blocks or ends the running thread. */
  predicate Cede(s: State, op: Op) {
    || (op.Desaloja? && op.hilo in s.exec)
    || Bloqueo(s, op).Some?
    || (Finado(s, op).Some? && Finado(s, op).value in s.exec)
  }

  /** With a thread READY that nobody precedes by priority, such a message always changes hands. */
  lemma CedeReleva(s: State, op: Op, t: HiloId)
    requires Inv(s) && Guarda(s, op) && !s.algoritmo.FIFO? && t in s.ready && Cede(s, op)
    requires t in Paso(s, op).ready && NadieMejor(Paso(s, op), t)
    ensures Paso(s, op).exec != s.exec
  {
    if op.Desaloja? {
      DesalojaReleva(s, op.hilo, t);
    } else if Bloqueo(s, op).Some? {
      BloqueoEfecto(s, op);
      PasoInv(s, op);
      assert op.hilo in Paso(s, op).blocked && op.hilo in s.exec;
    } else {
      FinEfecto(s, op);
    }
  }

  lemma DesalojaReleva(s: State, x: HiloId, t: HiloId)
    requires Inv(s) && !s.algoritmo.FIFO? && t in s.ready && x in s.exec
    requires t in Paso(s, Desaloja(x)).ready && NadieMejor(Paso(s, Desaloja(x)), t)
    ensures Paso(s, Desaloja(x)).exec != s.exec
  {
    DesalojaEfecto(s, x);
    assert Activo(Paso(s, Desaloja(x)), x);
  }

  /** How many messages of the run take the CPU from the running thread. */
  function Cesiones(s: State, ops: seq<Op>): nat
    decreases |ops|
  {
    if ops == [] || !Formado(s) then 0
    else (if Cede(s, ops[0]) then 1 else 0) + Cesiones(Paso(s, ops[0]), ops[1..])
  }

  /** A thread with i threads of its own priority before it has the CPU, or has been ended, after i + 1 messages that
      evict, block or end the running thread. */
  lemma {:induction false} TurnoEnCesiones(s: State, ops: seq<Op>, t: HiloId)
    requires Inv(s) && Correr(s, ops).Some? && !s.algoritmo.FIFO? && t in s.ready && SinMejores(s, ops, t)
    requires Cesiones(s, ops) > Delante(s, s.ready, t)
    ensures Llega(s, ops, t)
    decreases |ops|
  {
    var r := Paso(s, ops[0]);
    PasoInv(s, ops[0]);
    if t !in r.ready {
      // base case
      SalioDeReady(s, ops[0], t);
    } else {
      PasoTurno(s, ops[0], t);
      if Cede(s, ops[0]) { CedeReleva(s, ops[0], t); }
      TurnoEnCesiones(r, ops[1..], t);
    }
  }
}
