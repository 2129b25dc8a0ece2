/** The protocol's guarantees, carried over to the handler's loop bodies. */
module HandlerProofs {
  import opened Delivery
  import opened Conservation
  import opened Attempts
  import opened Rounds
  import opened Handler

  /** Whatever the handler's loop bodies reach keeps the protocol's invariants. */
  lemma ReachesKeepsInvariants(s: State, t: State)
    requires Reaches(s, t) && Conserved(s) && Accounted(s) && RoundShape(s)
    ensures Conserved(t) && Accounted(t) && RoundShape(t)
  {
    hide Conserved, Accounted, RoundShape, Legal, Run;
    var steps :| Legal(s, steps) && FifoRun(steps) && Run(s, steps) == t;
    RunConserves(s, steps);
    RunAccounts(s, steps);
    RunKeepsShape(s, steps);
  }
}
