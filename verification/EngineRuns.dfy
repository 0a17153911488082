/** The engine in its own form, run: in-place frames and heap, loops as loops, and still every result
  * is the language's.
  */
module EngineRuns {
  import opened ProcSyntax
  import V = ValueMachine
  import opened OwnershipMachine
  import opened Ownership
  import opened Simulation
  import opened ArgumentRefinement
  import opened Refinement
  import opened Invocation

  /** A call from outside: its arguments are the caller's, who owns them still. */
  method RunProgram(prog: seq<Proc>, fuel: nat, p: nat, m: Memory, ts: seq<Temp>, ghost vs: seq<V.Val>)
          returns (sig: Signal)
    requires WellFormed(prog) && HeapOk(m.heap) && FullSims(m.heap, ts, vs)
    requires forall t <- ts :: ValOk(m.heap, t.v) && !t.owned
    modifies m
    ensures match V.RunProc(prog, fuel, p, vs)
            case Returned(v) =>
              && sig.Yielded? && FullSim(m.heap, sig.t.v, v)
              && |old(m.heap)| <= |m.heap| && m.heap[..|old(m.heap)|] == old(m.heap)
            case Failed(f) => sig == Faulted(f)
            case OutOfFuel => sig.TimedOut?
  {
    hide WellFormed, FullSim, FullSims, HeapOk, RunProc, V.RunProc;
    RunRefines(prog, fuel, p, m.heap, ts, vs);
    sig := Run(prog, fuel, p, m, ts);
  }
}
