# Verified models of the operating system servers

Dafny models of the five stateful parts of the system, with proofs of what they keep over every run. Each part has two
layers: functions on values that follow the C functions branch by branch, on which the theorems are proved, and
classes whose methods update lists, arrays and buffers in place with the loops of the C code and are proved to compute
those functions.

* **Kernel thread machine.** `KernelEstado` (state and steps), `Reparto` (waiting, abstractly), `KernelInvariante` and
  `KernelPasos` (the invariant and its proof for every message), `KernelTeoremas` (what it means; ownership; FIFO
  handover; the exact condition for THREAD_CANCEL), `KernelCiclos` (deadlock: which messages close a cycle of waiting
  threads, on the chains of `Grafos`), `KernelEfectos` and `KernelFila` (what each message does), `KernelTurnos` and
  `KernelRonda` (round-robin bound), `KernelQuantum` (quantum timers), `KernelTestigos` (runs on which a property fails),
  `Multinivel` (the multilevel queue refines one ready list), `KernelMaquina` (the class).
* **Partition allocator.** `Particiones` (searches, order, tilings, coalescing), `Memoria` (creation and end of
  processes, invariant), `MemoriaTeoremas` (acceptance, canonical form, round trip, lookups), `MemoriaMaquina` (the class).
* **Long-term admission.** `Admision` (NEW list against the allocator) and `LargoPlazo` (the class, on top of the memory
  server's class, and the loop that ends a process's threads).
* **Dump store.** `FileSystem`, `FileSystemTeoremas`, `FileSystemMaquina`.
* **CPU.** `Cpu` (instructions, relocation, interleavings), `CpuTeoremas`, `CpuMaquina`.
* **Wire format.** `Serializacion` (writers, readers, round trips) and `Paquetes` (the buffer class).

`Listas` and `Bytes` hold what several parts share. One message or one instruction is one atomic step; a thread that
a handler detaches is folded into the step that starts it.

## What the proofs found

* A thread ended from outside while it is queued on a mutex that another thread holds stays in that queue after its end
  (`kernel/src/mutex.c:109-114` visits only held mutexes). `KernelTeoremas.FinalizarSiYSoloSi` and
  `KernelTeoremas.PasoSiYSoloSi` are the exact condition; `KernelTestigos.CancelarUnaEspera` is a run that gets there.
* Nothing keeps threads from waiting for each other in a cycle: a thread may join itself, two may join each other or lock
  each other's mutex, and then nobody in the cycle ever wakes. `KernelCiclos.CicloSiYSoloSi` says exactly which messages
  close a cycle, `KernelCiclos.NadieParaSiempre` what a run without them keeps; `KernelTestigos.EsperarseASiMismo` and
  `KernelTestigos.EsperarseMutuamente` are runs that get there.
* Ending a process does not end all its threads: the index advances over a list that each end shortens
  (`kernel/src/planificador_largo_plazo.c:187-190`). `LargoPlazo.HilosDeProceso.EliminarHilos` and `LargoPlazo.TodosTerminan`
  state who is skipped and when nobody is; `LargoPlazo.UnoSobrevive` is an instance.
* The MMU bounds the first byte of a word only (`cpu/src/mmu.c:11`). `CpuTeoremas.MmuPorPalabra`,
  `CpuTeoremas.SaleDeRango` and `CpuTeoremas.Interferencia` say exactly what escapes, and `Cpu.NoInterferencia` has the
  word-in-bounds hypothesis, as runs alone that stay inside.
* A stored 0xFFFFFFFF cannot be read back: the CPU takes it for a fault (`CpuTeoremas.EscribirYLeer`, `CpuTeoremas.TodosUnos`).
* The memory server accepts sizes below one, which leave a partition without bytes (`MemoriaTeoremas.TamanioMinimo`,
  `MemoriaTeoremas.TamanioCero`).
* The data loop of the filesystem writes whole blocks when the message has no remainder, and then reads past a message
  that does not fill them all (`FileSystem.LecturaEnRango`, `FileSystem.LecturaFuera`).

## Model

| member | source | states |
|---|---|---|
| `KernelTeoremas.PasoSiYSoloSi` | kernel/src/kernel_cpu_dispatch.c:11-349 | From any state satisfying the invariant (each thread in one state list, each blocked thread in one wait list, the two directions of mutex ownership, work conservation), a message leaves a state satisfying it if and only if it ends no thread from outside that is queued on a mutex somebody else holds |
| `KernelTeoremas.CorrerSiYSoloSi` | kernel/src/kernel_cpu_dispatch.c:11-349 | A run keeps the invariant at every point if and only if each of its messages meets that condition |
| `KernelTeoremas.FinalizarSiYSoloSi` | kernel/src/planificador_largo_plazo.c:42-98 | Ending any thread, with its two loops that call the dispatcher from inside, keeps the whole invariant if and only if the thread is not queued on a mutex it does not hold |
| `KernelPasos.LiberarRecursosInv` | kernel/src/planificador_corto_plazo.c:238-240 | The loop over held mutexes keeps an invariant in which the ending thread is in no list and still owns the mutexes not yet visited |
| `KernelPasos.LiberarJoinInv` | kernel/src/planificador_corto_plazo.c:234-236 | The loop over joiners keeps it too, entries of threads that ended meanwhile included |
| `KernelInvariante.ProtocoloInv` | kernel/src/mutex.c:116-139 | The release protocol turns a state with one mutex out of its owner's list into one that satisfies the invariant: the mutex is free with nobody queued, or its first waiter is awake and owns it |
| `KernelPasos.LiberacionInv` | kernel/src/mutex.c:141-163 | A release by the owner keeps the invariant, and the removal by name takes out exactly that mutex |
| `KernelPasos.LockInv` | kernel/src/kernel_cpu_dispatch.c:208-246 | MUTEX_LOCK keeps the invariant in its three outcomes: taken, queued, thread ended because the mutex does not exist |
| `KernelPasos.JoinInv` | kernel/src/kernel_cpu_dispatch.c:146-175 | THREAD_JOIN keeps it: the caller waits in the list of a live thread, or does not wait |
| `KernelPasos.IoInv` | kernel/src/kernel_cpu_dispatch.c:351-370 | IO keeps it: the caller is blocked and last in the device queue |
| `KernelPasos.FinIoInv` | kernel/src/kernel_cpu_dispatch.c:372-411 | The end of a sleep keeps it, also when the thread was ended while it slept |
| `KernelInvariante.BloquearInv` | kernel/src/planificador_corto_plazo.c:198-216 | Blocking the running thread leaves it BLOCKED and in no wait list, and everything else in order with a new thread dispatched |
| `KernelInvariante.DesbloquearInv` | kernel/src/planificador_corto_plazo.c:218-232 | Waking a thread that has left its queue restores the invariant; waking one that ended does nothing |
| `KernelInvariante.PlanificarInv` | kernel/src/planificador_corto_plazo.c:8-44 | The dispatcher keeps the invariant and ends with nothing READY unless somebody is in EXEC |
| `KernelTeoremas.BloqueadoEsperaUnaVez` | kernel/src/kernel_cpu_dispatch.c:146-297 | In every reachable state each BLOCKED thread sits in exactly one wait list, once, and waits there for exactly one live thread, or for the device or the memory server; no READY or EXEC thread sits in any |
| `KernelCiclos.CicloSiYSoloSi` | kernel/src/kernel_cpu_dispatch.c:146-246 | From a state with the invariant and no cycle of waiting threads, a message that meets the guard (it ends no thread from outside that is queued on a mutex somebody else holds) leaves no cycle if and only if it is not a THREAD_JOIN of a live thread, or a MUTEX_LOCK of a taken mutex, whose target is the caller or already waits, through any chain, for the caller |
| `KernelCiclos.SinCicloSiYSoloSi` | kernel/src/kernel_cpu_dispatch.c:146-297 | There is no cycle if and only if every BLOCKED thread has, at the end of the chain of who waits for whom, a thread that is READY or in EXEC or that the device or the memory server will wake |
| `KernelCiclos.PasoSano` | kernel/src/kernel_cpu_dispatch.c:11-349 | A message keeps the invariant and leaves every BLOCKED thread with somebody able to act at the end of its chain if and only if it meets the guard and closes no cycle |
| `KernelCiclos.NadieParaSiempre` | kernel/src/kernel_cpu_dispatch.c:11-349 | From the start of the kernel, a run keeps both at every point if and only if each of its messages, when its turn comes, meets the guard and closes no cycle |
| `KernelCiclos.NuncaParada` | kernel/src/kernel_cpu_dispatch.c:146-297 | Without a cycle, if somebody is BLOCKED then somebody is in EXEC, in the device queue or waiting for a dump |
| `KernelTeoremas.DuenoSiYSoloSi` | kernel/src/mutex.c:62-163 | In every reachable state a mutex is owned by x if and only if x is live and has it in its list; a free mutex has an empty queue; a finished thread owns and waits for nothing |
| `KernelTeoremas.UnaListaPorHilo` | kernel/src/planificador_corto_plazo.c:8-232 | In every reachable state, under the three algorithms, each thread is in exactly one of READY, EXEC, BLOCKED, EXIT, at most one is in EXEC, and EXEC is empty only if READY is |
| `KernelTeoremas.CancelSiYSoloSi` | kernel/src/kernel_cpu_dispatch.c:176-193 | THREAD_CANCEL keeps the invariant if and only if its target is not queued on a mutex it does not hold |
| `KernelTestigos.CancelarUnaEspera` | kernel/src/mutex.c:109-114 | A run of six messages from the start of the kernel after which the running thread can cancel a waiter of its mutex, and the invariant is lost |
| `KernelTestigos.EsperarseASiMismo` | kernel/src/kernel_cpu_dispatch.c:146-175 | Two messages after the start, a thread that joins itself waits for its own end |
| `KernelTestigos.EsperarseMutuamente` | kernel/src/kernel_cpu_dispatch.c:146-175 | Four messages after the start, two threads have joined each other: each waits for a live thread other than itself, nothing is READY, in EXEC, in the device queue or in a dump, and the last message is the one that closes the cycle |
| `KernelEfectos.DesalojaEfecto` | kernel/src/kernel_cpu_interrupt.c:31-61 | An eviction: if somebody READY has a priority number no greater than the running thread's (under FIFO, if READY is not empty), the earliest of the lowest priority numbers in READY (the first, under FIFO) is in EXEC and the evicted thread is last of READY with its flag up; otherwise it has the CPU again, under a new verifier in CMN |
| `KernelEfectos.FinEfecto` | kernel/src/kernel_cpu_dispatch.c:176-273 | Each message that ends a thread (THREAD_EXIT, THREAD_CANCEL of a live thread, MUTEX_LOCK or MUTEX_UNLOCK of a missing mutex, an end from the long-term scheduler): the thread is in EXIT and nowhere else; of the BLOCKED exactly those wake that had joined it or were next for one of its mutexes; each of its mutexes goes to the first of its queue or to nobody, and no other changes; somebody else has the CPU if anybody could, and a thread that was running goes on |
| `KernelEfectos.FinSiYSoloSi` | kernel/src/kernel_cpu_dispatch.c:11-349 | EXIT grows if and only if the message is one of those |
| `KernelFila.FinEnOrden` | kernel/src/planificador_corto_plazo.c:218-240 | Who wakes when: with the CPU and READY taken as one line, under FIFO or while another thread runs, the end of a thread puts behind it the first waiters of its mutexes in the order in which it took them, and then the threads that joined it in the order in which they did |
| `KernelEfectos.BloqueoEfecto` | kernel/src/kernel_cpu_dispatch.c:146-370 | THREAD_JOIN of a live thread, MUTEX_LOCK of a taken mutex, DUMP_MEMORY and IO: the caller is last of BLOCKED with its flag up and last in that one list; no other list and no owner changes; the ready thread whose turn it is runs |
| `KernelEfectos.UnlockEfecto` | kernel/src/kernel_cpu_dispatch.c:247-273 | MUTEX_UNLOCK by the owner: the mutex leaves its list and is the first waiter's, awake, or nobody's; no other mutex changes and the caller goes on |
| `KernelEfectos.UnlockAjeno` | kernel/src/kernel_cpu_dispatch.c:247-273 | MUTEX_UNLOCK by another thread only raises the flag of the caller |
| `KernelEfectos.LockLibreEfecto` | kernel/src/kernel_cpu_dispatch.c:208-246 | MUTEX_LOCK of a free mutex: the caller owns it, nothing else changes and nobody moves |
| `KernelEfectos.FinIoEfecto` | kernel/src/kernel_cpu_dispatch.c:372-411 | The end of a sleep: the head leaves the device queue and, if it is still BLOCKED, goes to the end of READY, or to the CPU if nobody runs |
| `KernelEfectos.FinDumpEfecto` | kernel/src/kernel_cpu_dispatch.c:413-439 | The same for a dump that is answered |
| `KernelEfectos.CreaHiloEfecto` | kernel/src/tcb.c:9-57 | THREAD_CREATE: one thread more, with the next tid and the priority asked for, last of READY; nothing else changes |
| `KernelEfectos.CreaProcesoEfecto` | kernel/src/pcb.c:47-96 | Thread 0 of a new process has the priority asked for and runs at once if nobody does |
| `KernelEfectos.CreaMutexEfecto` | kernel/src/kernel_cpu_dispatch.c:200-207 | MUTEX_CREATE: one free mutex more, of that process and name |
| `KernelEfectos.AusenteSinEfecto` | kernel/src/kernel_cpu_dispatch.c:146-193 | A join or a cancel of a thread that is not live only raises the flag of the caller |
| `KernelEfectos.PlanificarEfecto` | kernel/src/planificador_corto_plazo.c:8-156 | A dispatch with EXEC empty: the first of READY under FIFO, else the earliest of the lowest priority numbers; the others keep their order; under CMN the thread and a new timer carry a new verifier |
| `KernelTeoremas.FinalizarMutexes` | kernel/src/mutex.c:109-139 | Ending a thread passes on each mutex it held, to the head of its queue or to nobody, and changes no other mutex |
| `KernelTeoremas.PasoOrden` | kernel/src/kernel_cpu_dispatch.c:208-273 | One message: the queue before followed by the request made is the grant made followed by the queue after |
| `KernelTeoremas.OrdenDeEntrega` | kernel/src/kernel_cpu_dispatch.c:208-273 | The same over any run in which no waiter of the mutex is cancelled |
| `KernelTeoremas.EntregaFifo` | kernel/src/mutex.c:116-139 | From the start of the kernel, the history of lock requests for a mutex is the history of grants followed by its queue |
| `KernelTurnos.ElegirTurno` | kernel/src/planificador_corto_plazo.c:78-119 | PRIORIDADES and CMN dispatch the longest waiting of the threads with the lowest priority number |
| `KernelTurnos.PasoTurno` | kernel/src/kernel_cpu_interrupt.c:31-61 | While nobody better can run, each message that moves the CPU to another thread brings a ready thread one place forward among its equals, and no message sends it back |
| `KernelTurnos.TurnoLlega` | kernel/src/cola_multinivel.c:56-100 | Round-robin bound: a thread with i threads of its priority before it gets the CPU (or is ended) by the time the CPU has changed hands i + 1 times, in any run where no smaller priority number runs or becomes ready |
| `KernelRonda.CedeReleva` | kernel/src/kernel_cpu_interrupt.c:31-61 | With a thread READY that nobody precedes by priority, each message that evicts, blocks or ends the running thread puts another one in EXEC |
| `KernelRonda.TurnoEnCesiones` | kernel/src/cola_multinivel.c:56-100 | Round-robin bound in messages: a thread with i threads of its priority before it has had the CPU, or been ended, after i + 1 messages that evict, block or end the running thread |
| `KernelQuantum.PasoReloj` | kernel/src/planificador_corto_plazo.c:121-196 | Every message keeps the clock: verifiers never go back, a raised flag stays up under the same verifier, new timers carry new verifiers |
| `KernelQuantum.TimerVigente` | kernel/src/planificador_corto_plazo.c:158-196 | In every reachable state a pending timer that passes its check watches the very thread in EXEC, under that dispatch's verifier |
| `KernelQuantum.TimerDelDespachoActual` | kernel/src/planificador_corto_plazo.c:158-196 | A timer that passes its check at the end of a run has had its thread in EXEC at every step since, under one verifier |
| `KernelQuantum.TimerNuevo` | kernel/src/servicios_kernel.c:6-13 | Each new timer carries a verifier greater than every pending one |
| `Multinivel.MismaEleccion` | kernel/src/cola_multinivel.c:56-100 | The multilevel queue hands out the thread that PRIORIDADES takes from the single ready list |
| `Multinivel.MismosTurnos` | kernel/src/servicios_kernel.c:76-98 | For any sequence of additions, removals by id and choices the two hand out the same threads in the same order |
| `Multinivel.RefinaCrear` | kernel/src/cola_multinivel.c:4-33 | Creating the queue of a priority, existing or not, leaves one queue for that priority and the meaning of all of them |
| `Multinivel.RefinaAgregar` | kernel/src/cola_multinivel.c:41-54 | Adding to the queue of the thread's priority is appending to the single list |
| `Multinivel.RefinaRemover` | kernel/src/cola_multinivel.c:118-136 | Removing by id from the first queue that holds the thread is removing it from the single list |
| `Multinivel.EstaEnSuCola` | kernel/src/cola_multinivel.c:138-162 | A thread stands in the queue of its priority if and only if it is ready, and in no other |
| `KernelMaquina.Kernel.Atender` | kernel/src/kernel_cpu_dispatch.c:11-349 | The class with the program's own lists: from a state with the invariant a message leaves exactly the state of the step function, and the invariant with it if and only if the message meets the condition of the step |
| `KernelMaquina.Kernel.AtenderSyscall` | kernel/src/kernel_cpu_dispatch.c:100-309 | The switch over system calls |
| `KernelMaquina.Kernel.FinalizarHilo` | kernel/src/planificador_largo_plazo.c:42-98 | The ordered effects of finalizar_hilo, with its loops and the dispatches inside them; nothing if the thread is not live |
| `KernelMaquina.Kernel.LiberarRecursosTcb` | kernel/src/planificador_corto_plazo.c:238-240 | The loop of releases |
| `KernelMaquina.Kernel.LiberarTcbsEnEsperaPorJoin` | kernel/src/planificador_corto_plazo.c:234-236 | The loop of wake-ups |
| `KernelMaquina.Kernel.DesocuparMutex` | kernel/src/mutex.c:95-114 | The loop that takes the thread out of the queues of the mutexes it holds, and of no other |
| `KernelMaquina.Kernel.ProtocoloLiberacionRecurso` | kernel/src/mutex.c:116-139 | Release: no owner, or the first waiter awake and owner |
| `KernelMaquina.Kernel.AtenderLiberacionDeRecurso` | kernel/src/mutex.c:159-163 | Removal from the releaser's list, then the protocol |
| `KernelMaquina.Kernel.PcpPlanificadorCortoPlazo` | kernel/src/planificador_corto_plazo.c:8-44 | Under the three algorithms, the dispatch of the single-list specification |
| `KernelMaquina.Kernel.AtenderPRIORIDADES` | kernel/src/planificador_corto_plazo.c:78-112 | The scan for the maximum finds the specification's choice |
| `KernelMaquina.Kernel.AtenderCMN` | kernel/src/planificador_corto_plazo.c:121-156 | Choice, verifier, flag and timer of a CMN dispatch |
| `KernelMaquina.Kernel.ObtenerSiguienteEnCMN` | kernel/src/cola_multinivel.c:56-100 | The pass over the queues returns the choice of the single list and removes it there |
| `KernelMaquina.Kernel.BuscarYRemoverDeColas` | kernel/src/cola_multinivel.c:118-136 | Found if and only if ready, and then removed from the single list too |
| `KernelMaquina.Kernel.AgregarHiloAListaReady` | kernel/src/servicios_kernel.c:76-98 | One thread more at the end of READY, whatever the algorithm |
| `KernelMaquina.Kernel.BuscarYRemoverTcb` | kernel/src/tcb.c:129-156 | Removal from READY, else EXEC, else BLOCKED |
| `KernelMaquina.Kernel.ExisteHilo` | kernel/src/tcb.c:189-193 | True if and only if the thread is in READY, EXEC or BLOCKED |
| `KernelMaquina.Kernel.BloquearHiloEnEjecucion` | kernel/src/planificador_corto_plazo.c:198-216 | EXEC to BLOCKED with the flag up, then a dispatch; nothing for a thread that is not in EXEC |
| `KernelMaquina.Kernel.DesbloquearHilo` | kernel/src/planificador_corto_plazo.c:218-232 | BLOCKED to the end of READY, then a dispatch; nothing for a thread that is not BLOCKED |
| `KernelMaquina.Kernel.CrearHilo` | kernel/src/tcb.c:9-57 | The next tid of the process, READY with empty lists, then a dispatch |
| `KernelMaquina.Kernel.AtenderJoin` | kernel/src/kernel_cpu_dispatch.c:146-175 | The caller blocked and last in the target's list, or nothing if the target is not live |
| `KernelMaquina.Kernel.AtenderLock` | kernel/src/kernel_cpu_dispatch.c:208-246 | Taken, queued behind the others, or thread ended |
| `KernelMaquina.Kernel.AtenderUnlock` | kernel/src/kernel_cpu_dispatch.c:247-273 | Released by its owner, ignored from another, thread ended if the mutex does not exist |
| `KernelMaquina.Kernel.AtenderDesalojo` | kernel/src/kernel_cpu_interrupt.c:31-61 | EXEC to the end of READY with the flag up, then a dispatch |
| `KernelMaquina.Kernel.ManejarSleep` | kernel/src/kernel_cpu_dispatch.c:372-411 | The head of the device queue leaves it and wakes |
| `MemoriaTeoremas.AceptaSiYSoloSi` | memoria/src/particion.c:55-121 | In every DINAMICAS state satisfying the invariant a request of n >= 1 bytes is accepted if and only if n consecutive free bytes exist, under any search |
| `MemoriaTeoremas.AceptacionSinPolitica` | memoria/src/particion.c:105-121 | FIRST, BEST and WORST accept the same requests |
| `MemoriaTeoremas.DondeVa` | memoria/src/particion.c:55-121 | Where each search puts the process: first fit, smallest fit, largest fit, the earliest on a tie; a refusal changes nothing |
| `MemoriaTeoremas.IdaYVuelta` | memoria/src/proceso.c:24-81 | A process that is created and ended gives back every partition as it was, ids included: the same list under FIJAS, the same list in address order under DINAMICAS |
| `MemoriaTeoremas.LiberarCanonico` | memoria/src/particion.c:147-172 | After a process ends the free partitions are exactly the maximal runs of free bytes, and no byte changes owner but the process's own |
| `MemoriaTeoremas.FormaCanonica` | memoria/src/particion.c:147-172 | Coalescing is canonical: two lists over the same memory with the same free bytes, in any order and however cut, end with free partitions at the same addresses |
| `MemoriaTeoremas.OcupadasIntactas` | memoria/src/particion.c:147-172 | Every other occupied partition comes through with all its fields |
| `MemoriaTeoremas.CorrerInv` | memoria/src/memoria_kernel.c:63-140 | Over every run of creations and ends, with no accepted size below one where partitions are cut to size: the partitions tile memory with no gap or overlap, no two free ones touch (DINAMICAS), ids are unique, and occupied partitions and residents correspond one for one at the same addresses |
| `Memoria.FinalizacionInv` | memoria/src/memoria_kernel.c:113-140 | The end of a resident process keeps it |
| `MemoriaTeoremas.InicialFijaInv` | memoria/src/inicializar_memoria.c:101-122 | The FIJAS start satisfies it, for any positive sizes, with one free partition of each size in order |
| `MemoriaTeoremas.InicialDinamicaInv` | memoria/src/inicializar_memoria.c:122-133 | The DINAMICAS start satisfies it |
| `MemoriaTeoremas.BusquedasCoinciden` | memoria/src/particion.c:23-53 | For a resident process the lookup by id and the lookup by base and limit find the same partition, its own |
| `MemoriaTeoremas.HuecosAcotados` | memoria/src/particion.c:147-172 | Under DINAMICAS the holes are at most one more than the processes |
| `MemoriaTeoremas.TamanioMinimo` | memoria/src/proceso.c:24-60 | A creation keeps the invariant if and only if the size is at least 1, the scheme is FIJAS or no partition is free |
| `MemoriaTeoremas.TamanioCero` | memoria/src/proceso.c:24-60 | The first process of all, with size 0, is accepted and breaks the layout |
| `MemoriaTeoremas.CreacionBytes` | memoria/src/proceso.c:4-60 | An accepted creation: the process is the last of the list and sits at the base of a free partition, with as many bytes as asked for under DINAMICAS and the whole partition under FIJAS; those bytes become its own and no other byte changes hands |
| `MemoriaTeoremas.FinalizacionBytes` | memoria/src/proceso.c:62-81 | The end of a resident, under either scheme: it is resident no more, its bytes are free, and no other byte changes hands |
| `Particiones.OrdenUnico` | memoria/src/particion.c:123-129 | Any list with the same partitions sorts to the same list, so the sorting algorithm does not matter |
| `Particiones.UnificarJuntarEn` | memoria/src/particion.c:152-168 | One round of the merging loop does not change what the loop reaches |
| `Particiones.UnificarTesela` | memoria/src/particion.c:147-172 | Coalescing a tiling gives a tiling of the same addresses with no two free neighbours |
| `Particiones.UnificarBytes` | memoria/src/particion.c:147-172 | and every byte keeps its owner |
| `Particiones.LibreEsCorrida` | memoria/src/particion.c:147-172 | In such a tiling the free partitions are the maximal free runs, both ways |
| `MemoriaMaquina.ObtenerPrimeraParticionLibre` | memoria/src/particion.c:55-69 | The first partition that fits, or none fits |
| `MemoriaMaquina.ObtenerPeorParticionLibre` | memoria/src/particion.c:71-86 | The first of the largest that fit, or none fits |
| `MemoriaMaquina.ObtenerMejorParticionLibre` | memoria/src/particion.c:88-103 | The first of the smallest that fit, or none fits |
| `MemoriaMaquina.BuscarParticionPorId` | memoria/src/particion.c:23-37 | The loop finds the first partition with the id |
| `MemoriaMaquina.BuscarParticionPorBaseYLimite` | memoria/src/particion.c:39-53 | The loop finds the first partition with that base and limit |
| `MemoriaMaquina.MemoriaServidor.UnificarParticionesLibresContiguas` | memoria/src/particion.c:147-172 | The rounds of sort, merge and restart end, in the coalesced sorted list |
| `MemoriaMaquina.MemoriaServidor.CrearProcesoEsquemaFijo` | memoria/src/proceso.c:4-21 | The process record and the partition taken |
| `MemoriaMaquina.MemoriaServidor.CrearProcesoEsquemaDinamico` | memoria/src/proceso.c:24-60 | The process record, the partition cut to size, and the rest as a new free partition at the end of the list |
| `MemoriaMaquina.MemoriaServidor.FinalizarProceso` | memoria/src/proceso.c:62-81 | The partition freed and the process forgotten |
| `MemoriaMaquina.MemoriaServidor.AtenderCreacionProceso` | memoria/src/memoria_kernel.c:63-93 | The handler is its step function, answer included |
| `MemoriaMaquina.MemoriaServidor.AtenderFinalizacionProceso` | memoria/src/memoria_kernel.c:113-140 | The handler is its step function and keeps the invariant |
| `MemoriaMaquina.MemoriaServidor.Fija` | memoria/src/inicializar_memoria.c:101-122 | The loop that accumulates bases builds the FIJAS start |
| `Admision.OrdenDeAdmision` | kernel/src/pcb.c:47-115 | In every reachable state NEW holds consecutive pids up to the last one created, the admitted pids are exactly those before its head, and the residents in memory are exactly the processes of the in-memory list |
| `Admision.EsperaJustificada` | kernel/src/planificador_largo_plazo.c:20-40 | Whenever NEW is not empty no free partition fits its head; under DINAMICAS, nowhere are there that many consecutive free bytes |
| `Admision.NingunaEsperaEterna` | kernel/src/planificador_largo_plazo.c:20-40 | With no process left in memory only a head larger than the whole memory can still be waiting |
| `Admision.CrearProcesoInv` | kernel/src/pcb.c:98-115 | Creation keeps the admission invariant, for any size under FIJAS and for positive ones under DINAMICAS |
| `Admision.ReplanificarInv` | kernel/src/planificador_largo_plazo.c:20-40 | The replanning loop keeps it while the PCB of the ending process is still in the in-memory list, and stops with a head that does not fit |
| `Admision.FinalizarProcesoInv` | kernel/src/planificador_largo_plazo.c:100-176 | The end of a process keeps it |
| `Admision.FinalizarProcesoEfecto` | kernel/src/planificador_largo_plazo.c:100-176 | The end of a process: it is last of EXIT, not in memory, not resident and without a byte; a prefix of NEW is admitted in order, not empty exactly when the head fits in what is left; under DINAMICAS, when there are enough free bytes in a row, those of the ended process included |
| `Admision.ReplanificarEfecto` | kernel/src/planificador_largo_plazo.c:20-40 | The replanning loop admits a prefix of NEW in order, and nobody if and only if its head fits nowhere |
| `Admision.CrearProcesoEfecto` | kernel/src/pcb.c:98-115 | A new process is admitted at once if nobody waits before it and some partition fits it, and is otherwise last of NEW with its size |
| `LargoPlazo.PlanificadorLargoPlazo.PreguntarAMemoriaParaInicializacion` | kernel/src/pcb.c:47-96 | One question about the head of NEW and, if accepted, its move |
| `LargoPlazo.PlanificadorLargoPlazo.CrearProceso` | kernel/src/pcb.c:98-115 | Kernel and memory together take the admission step |
| `LargoPlazo.PlanificadorLargoPlazo.ReplanificarCreacionProceso` | kernel/src/planificador_largo_plazo.c:20-40 | The loop ends, by the length of NEW, in the specified state |
| `LargoPlazo.PlanificadorLargoPlazo.FinalizarProceso` | kernel/src/planificador_largo_plazo.c:100-176 | Release, replanning and the move to EXIT, in that order |
| `LargoPlazo.HilosDeProceso.EliminarHilos` | kernel/src/planificador_largo_plazo.c:178-193 | The threads ended are those at even positions of the list without thread 0, then thread 0; those at odd positions survive; without thread 0 in the list the last end dereferences null |
| `LargoPlazo.ImparesMiembros` | kernel/src/planificador_largo_plazo.c:187-190 | Who survives the shrinking loop: the threads at odd positions, and no other |
| `LargoPlazo.UnoSobrevive` | kernel/src/planificador_largo_plazo.c:187-190 | Of the threads 0, 1 and 2 the last survives its process |
| `LargoPlazo.TodosTerminan` | kernel/src/planificador_largo_plazo.c:178-193 | Nobody survives exactly when the process has at most one thread besides thread 0 |
| `FileSystemTeoremas.TodoSeLee` | filesystem/src/filesystem_memoria.c:51-96 | After any run of dumps every accepted one reads back, byte for byte, through its index block, whatever the memory holds past the messages |
| `FileSystemTeoremas.BitsDeArchivos` | filesystem/src/bitmap.c:22-64 | After any run a bit is set if and only if it was set at the start or its block belongs to a file, and then to one only |
| `FileSystemTeoremas.DumpExacto` | filesystem/src/filesystem_memoria.c:57-90 | Accepted if and only if n + 1 blocks are free; then exactly n + 1 are taken; a refusal changes nothing |
| `FileSystemTeoremas.DumpInv` | filesystem/src/filesystem_memoria.c:51-96 | A dump keeps the ownership of blocks and every index block |
| `FileSystemTeoremas.SiempreCompacto` | filesystem/src/bitmap.c:22-33 | From an empty bitmap the used blocks are always a prefix, file after file, data blocks ascending and the index block last |
| `FileSystem.AsignarMenores` | filesystem/src/bloques.c:34-59 | The blocks taken are the lowest clear ones, ascending; exactly their bits change |
| `FileSystem.ReservarForma` | filesystem/src/bloques.c:34-70 | Data blocks and then the index block: ascending, all clear before, nothing clear below the index block |
| `FileSystem.TamanioEnBloques` | filesystem/src/bloques.c:6-11 | The least number of blocks that holds the size, and one for size 0 |
| `FileSystem.LecturaEnRango` | filesystem/src/bloques.c:141-183 | The data loop reads inside the memory it is given if and only if the message has a remainder or that memory fills all the blocks; with nothing past the message, if and only if the message has a remainder or fills all the blocks |
| `FileSystem.LecturaFuera` | filesystem/src/bloques.c:171 | A message of one block from a partition of two, acceptable otherwise: the second block is written from past the message's end |
| `FileSystem.EscritoSeLee` | filesystem/src/bloques.c:116-186 | What was written reads back through the index block |
| `FileSystem.EscritoByte` | filesystem/src/bloques.c:116-186 | Each byte of each data block of a dump: the byte of the message; past the message, what the memory holds if the message has no remainder and what the disk held if it has one |
| `FileSystem.OtroSeLeeIgual` | filesystem/src/bloques.c:116-186 | A file with no block in common with the new one reads the same after it |
| `FileSystem.EscritoIndice` | filesystem/src/bloques.c:72-114 | The index block still names the data blocks after the data is written |
| `FileSystemMaquina.FileSystemServidor.EncontrarPrimerBitLibre` | filesystem/src/bitmap.c:22-33 | The first clear bit, or -1 if there is none |
| `FileSystemMaquina.FileSystemServidor.CantidadBloquesLibres` | filesystem/src/bitmap.c:35-48 | The number of clear bits |
| `FileSystemMaquina.FileSystemServidor.AsignarBloquesDeDatos` | filesystem/src/bloques.c:34-59 | The loop takes the specified blocks, in order |
| `FileSystemMaquina.FileSystemServidor.AsignarBloqueDeIndice` | filesystem/src/bloques.c:61-70 | One more block |
| `FileSystemMaquina.FileSystemServidor.EscribirBloqueDeIndice` | filesystem/src/bloques.c:72-114 | The indices, four bytes each, at the start of the index block |
| `FileSystemMaquina.FileSystemServidor.LeerIndices` | filesystem/src/bloques.c:116-128 | The index block read from disk gives the file's data blocks |
| `FileSystemMaquina.FileSystemServidor.PartesDelMensaje` | filesystem/src/bloques.c:141-151 | The division and modf give the full blocks and the bytes after them |
| `FileSystemMaquina.FileSystemServidor.EscribirBloquesDeDatos` | filesystem/src/bloques.c:116-186 | The loop leaves the block array of the specification |
| `FileSystemMaquina.FileSystemServidor.CrearFcb` | filesystem/src/filesystem_memoria.c:59-70 | The record of the new file, with the blocks that the reservation gives it |
| `FileSystemMaquina.FileSystemServidor.AtenderMemoryDump` | filesystem/src/filesystem_memoria.c:51-96 | The handler is its transaction, answer included, and keeps the invariant |
| `Cpu.NoInterferencia` | cpu/src/cpu_kernel_dispatch.c:196-298 | Any interleaving of any resident processes, with context save and load between instructions, leaves each with the registers, partition bytes and status it has after running alone at address zero for as many cycles, provided each alone stays inside its partition |
| `Cpu.TurnoAislado` | cpu/src/cpu_kernel_dispatch.c:196-298 | One dispatch moves the view of its process as it moves alone, and nobody else's |
| `Cpu.CorrerRelocado` | cpu/src/ciclo_instruccion.c:103-226 | Running at a base is running at address zero on one's own bytes; no other byte changes |
| `Cpu.CorrerSuma` | cpu/src/cpu_kernel_dispatch.c:220-263 | Stopping between instructions and going on is running without stopping |
| `CpuTeoremas.Confluencia` | cpu/src/cpu_kernel_dispatch.c:196-298 | Two schedules that give each process the same cycles leave each process the same |
| `CpuTeoremas.Interferencia` | cpu/src/mmu.c:11-17 | Without the word-in-bounds hypothesis: a concrete pair of neighbours where one changes the other's bytes |
| `CpuTeoremas.SaleDeRango` | cpu/src/ciclo_instruccion.c:122-171 | Alone, an instruction leaves the partition if and only if its address is accepted and its word does not fit |
| `CpuTeoremas.MmuPorPalabra` | cpu/src/mmu.c:4-26 | Every word inside the partition is accepted and translated to base plus address; all accepted words are inside only in a partition of one byte |
| `CpuTeoremas.EscribirYLeer` | cpu/src/ciclo_instruccion.c:122-171 | A value written and read back arrives if and only if it is not 0xFFFFFFFF, which ends the process instead |
| `CpuTeoremas.TodosUnos` | cpu/src/ciclo_instruccion.c:122-171 | 0xFFFFFFFF stored at address 0 and read back ends the process |
| `CpuTeoremas.SumarYRestar` | cpu/src/ciclo_instruccion.c:178-210 | SUB undoes SUM on every register but the program counter, overflow included, and touches no memory |
| `CpuTeoremas.EfectoSet` | cpu/src/ciclo_instruccion.c:122-134 | SET: that register has the value modulo 2^32, the program counter is at the next instruction, nothing else changes |
| `CpuTeoremas.EfectoSuma` | cpu/src/ciclo_instruccion.c:178-194 | SUM: the register has the sum modulo 2^32, nothing else changes but the program counter |
| `CpuTeoremas.EfectoResta` | cpu/src/ciclo_instruccion.c:195-209 | SUB: the register has the difference modulo 2^32, nothing else changes but the program counter |
| `CpuTeoremas.EfectoJnz` | cpu/src/ciclo_instruccion.c:210-226 | JNZ jumps if and only if the register is not zero, and changes nothing but the program counter |
| `CpuTeoremas.EfectoLog` | cpu/src/ciclo_instruccion.c:227-240 | LOG changes nothing but the program counter |
| `CpuTeoremas.EfectoLeer` | cpu/src/ciclo_instruccion.c:135-155 | READ_MEM: the little-endian word at base plus address; the process ends if the address is not below limit minus base or the word is all ones |
| `CpuTeoremas.EfectoEscribir` | cpu/src/ciclo_instruccion.c:156-177 | WRITE_MEM: that word is the register and no other byte changes; the process ends, with nothing written, if the address is not below limit minus base |
| `CpuTeoremas.CuentaRegresiva` | cpu/src/ciclo_instruccion.c:195-226 | A loop SUB; JNZ with step one on a register that holds n >= 1 leaves it at 0, past the loop, after exactly 2n cycles, with everything else as it was |
| `CpuTeoremas.ResidentesSeparados` | memoria/src/memoria_kernel.c:63-140 | Two residents of the memory server never overlap and stay inside memory |
| `CpuTeoremas.MundoValido` | memoria/src/memoria_kernel.c:63-140 | So wherever the allocator put the processes, non-interference applies |
| `CpuMaquina.Maquina.Mmu` | cpu/src/mmu.c:4-26 | Translation, -1 for the fault |
| `CpuMaquina.Maquina.SolicitarMemoria` | cpu/src/ciclo_instruccion.c:48-75 | The word read, or all ones on a fault |
| `CpuMaquina.Maquina.EscribirValorMemoria` | cpu/src/ciclo_instruccion.c:77-101 | The word written and 0, or nothing written and -1 |
| `CpuMaquina.Maquina.Execute` | cpu/src/ciclo_instruccion.c:103-226 | SET, SUM, SUB, JNZ, READ_MEM, WRITE_MEM and LOG on the loaded context and user memory |
| `CpuMaquina.Maquina.CargarContexto` | memoria/src/memoria_cpu.c:67-102 | Base and limit of the process and the nine registers of the thread |
| `CpuMaquina.Maquina.ActualizarContexto` | memoria/src/hilo.c:57-67 | The nine registers copied back, one by one, and nothing else |
| `CpuMaquina.Maquina.AtenderHiloKernel` | cpu/src/cpu_kernel_dispatch.c:196-298 | Load, run until the interrupt or the end, save: the specified dispatch |
| `CpuMaquina.Maquina.LeerUint32` | memoria/src/espacio_usuario.c:14-36 | The four bytes at the address, as a little-endian integer |
| `CpuMaquina.Maquina.EscribirUint32` | memoria/src/espacio_usuario.c:3-12 | The four bytes at the address change, no other |
| `Serializacion.IdaTodos` | utils/src/shared.c:205-361 | Any sequence of int, string, generic, uint32 and size_t fields reads back in order and leaves exactly what followed; with nothing after it, an empty buffer |
| `Serializacion.IdaCampo` | utils/src/shared.c:465-541 | One field: reading undoes writing |
| `Serializacion.Inyectiva` | utils/src/shared.c:465-541 | Two field sequences of the same types with the same bytes are equal |
| `Serializacion.CortadoSeRechaza` | utils/src/shared.c:205-338 | A packet cut inside a field is rejected |
| `Serializacion.VueltaCampo` | utils/src/shared.c:205-361 | Writing back a field that was read gives the bytes it was read from if and only if their length prefix is the one its writer puts: the readers of strings and numbers take any that is long enough |
| `Serializacion.VueltaTodos` | utils/src/shared.c:205-361 | The same for a sequence of fields, whatever the bytes |
| `Serializacion.FormaCampo` | utils/src/shared.c:465-541 | The bytes of each field: an int modulo 2^32; else the length and then the contents, numbers lowest byte first and strings with their NUL |
| `Serializacion.FormaMochila` | utils/src/shared.c:395-453 | The fields of the bag in order: instruction, count, and each parameter after the tag of its type |
| `Serializacion.FormaContexto` | utils/src/shared.c:543-564 | The fourteen fields of the context in order |
| `Serializacion.IdaMochila` | utils/src/shared.c:395-453 | The parameter bag arrives as it was sent |
| `Serializacion.IdaContexto` | utils/src/shared.c:374-393 | The thread context arrives as it was sent, register by register |
| `Serializacion.LeerTodos` | utils/src/shared.c:205-361 | Whatever the bytes, the fields read have the types asked for and values those types can hold |
| `Paquetes.Buffer.CargarInt` | utils/src/shared.c:482-495 | Four bytes more |
| `Paquetes.Buffer.CargarString` | utils/src/shared.c:511-529 | Length with the NUL, and the bytes |
| `Paquetes.Buffer.CargarGenerico` | utils/src/shared.c:465-480 | Length and bytes |
| `Paquetes.Buffer.CargarUint32` | utils/src/shared.c:535-537 | A generic of four bytes |
| `Paquetes.Buffer.CargarSizeT` | utils/src/shared.c:539-541 | A generic of eight bytes |
| `Paquetes.Buffer.CargarContexto` | utils/src/shared.c:543-564 | The fourteen fields of the context, in order |
| `Paquetes.Buffer.RecibirInt` | utils/src/shared.c:245-286 | The value and the rest, or the error; the buffer keeps the rest |
| `Paquetes.Buffer.RecibirGenerico` | utils/src/shared.c:205-243 | The bytes and the rest, or the error |
| `Paquetes.Buffer.RecibirString` | utils/src/shared.c:288-338 | The string and the rest, or the error |
| `Paquetes.Buffer.RecibirUint32` | utils/src/shared.c:351-361 | The number and the rest, or the error |
| `Paquetes.Buffer.RecibirSizeT` | utils/src/shared.c:340-349 | The number and the rest, or the error |
| `Paquetes.Buffer.RecibirMochila` | utils/src/shared.c:395-453 | The loop over tags reads the specified bag; an unknown tag is skipped without its value |
| `Paquetes.Buffer.RecibirContexto` | utils/src/shared.c:374-393 | The specified context, or the error |

## Left out

- Sockets, configuration, logging, sleeps, signals, mmap, allocation and freeing of C memory.
- Interleavings of pthreads inside one handler: list mutexes are passed by value (`kernel/src/tcb.c:196`) and check-then-act pairs are not locked, so the results are about atomic handlers.
- Aliasing of records: a TCB, mutex, partition or FCB is a value in a list or map of the model, where the program has pointers to one record.
- Integer width, except registers, addresses and the wire format: counters, ids and verifiers are unbounded, and memory, disk and buffers are taken to be under 2 GiB.
- The field `estado` of threads and processes, which only logs and prints use, and the texts of messages.
- A memory server that refuses to end a thread: its answer is always OK, so the other branch of finalizar_hilo does nothing in a run.
- A message about a thread that is not in EXEC is dropped; in IO and DUMP_MEMORY the program would dereference null.
- The verifier in the eviction message: the CPU sends back the one it was given, so storing it again changes nothing.
- KernelTeoremas.CorrerSiYSoloSi: what the program does after the invariant is lost; the release of a mutex to a waiter that has ended dereferences null.
- KernelMaquina.Kernel.AtenderSyscall: PROCESS_CREATE and PROCESS_EXIT only raise the caller's flag here; what the long-term scheduler then does comes as the messages NuevoProceso and Termina.
- A PROCESS_EXIT of a process already finished, which the handler drops before it raises the flag (`kernel/src/kernel_cpu_dispatch.c:50-54`): it changes nothing, and the model has no message for it.
- Mutexes with a name that the process has used before: they are created and never found, as in the program.
- The answer to a failed dump: the thread is woken or its process ended by the messages FinDump and Termina, whichever comes.
- LargoPlazo.PlanificadorLargoPlazo.FinalizarProceso: ending a process still in NEW, for which the memory server dereferences null; and the ends of its threads, which are the messages Termina of the thread machine.
- LargoPlazo.PlanificadorLargoPlazo.PreguntarAMemoriaParaInicializacion: the creation of thread 0 on acceptance, which is the message NuevoProceso of the thread machine.
- LargoPlazo.PlanificadorLargoPlazo.CrearProceso: a size below one under DINAMICAS, which breaks the layout once accepted.
- Admision.CrearProcesoInv: the same sizes.
- MemoriaTeoremas.CorrerInv: accepted sizes below one under DINAMICAS, after which the invariant is lost (MemoriaTeoremas.TamanioMinimo).
- MemoriaTeoremas.IdaYVuelta: accepted sizes below one under DINAMICAS.
- MemoriaMaquina.MemoriaServidor.AtenderFinalizacionProceso: a process that is not resident, for which the program dereferences null.
- Repeated pids in creations: the kernel numbers processes itself.
- FileSystemMaquina.FileSystemServidor.AtenderMemoryDump: a name already used (its blocks would be appended to the old record), a file whose index does not fit one block, and a message longer than its partition.
- FileSystemTeoremas.TodoSeLee: the same requests, when they are accepted.
- FileSystemTeoremas.BitsDeArchivos: the same requests, when they are accepted.
- FileSystemTeoremas.DumpExacto: the same accepted requests, but for the reused name.
- FileSystemTeoremas.DumpInv: the same accepted requests, but for the reused name.
- FileSystemMaquina.FileSystemServidor.EscribirBloquesDeDatos: where the bytes past the message come from; they are given with it, as many as are read.
- FileSystemMaquina.FileSystemServidor.PartesDelMensaje: rounding of the float division, which is exact when BLOCK_SIZE is a power of two and the message is under 2^24 bytes.
- A BLOCK_COUNT that is not a multiple of 8: the bitmap of the program then has bits past the last block (`filesystem/src/inicializar_filesystem.c:107`).
- The metadata files of the filesystem, which repeat the size and the index block.
- The highest written address and the length of a dump computed from it.
- Cpu.NoInterferencia: processes that alone leave their partition, for which it fails (CpuTeoremas.Interferencia); several threads of one process, which share its partition; system calls; and a fetch past the end of the program, on which the CPU waits for ever.
- Cpu.TurnoAislado: the same processes.
- Cpu.CorrerRelocado: the same processes.
- CpuTeoremas.Confluencia: the same processes.
- CpuMaquina.Maquina.SolicitarMemoria: words past the end of user memory, which the program reads from its own heap.
- CpuMaquina.Maquina.EscribirValorMemoria: words past the end of user memory, which the program writes to its own heap.
- CpuMaquina.Maquina.Execute: the same words, and system calls.
- CpuMaquina.Maquina.AtenderHiloKernel: system calls, which also leave the loop, and the wait of an empty or finished program.
- Decoding of instruction text, register names and enumerations.
- Paquetes.Buffer.CargarContexto: the fields are written by a loop over their list, where the program has one call for each.
- cargar_char_al_paquete and recibir_char_del_buffer: their formats do not match each other and nothing uses them.
- Reads past the end of a buffer, which in the program return whatever is there: the model answers with an error.
