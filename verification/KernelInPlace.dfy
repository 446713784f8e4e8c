/** The kernel in place on its runs: the arrays and queues go through the states that the
    theorems are about, and no event halts it. */
module KernelInPlace {
  import opened Common
  import opened KernelSpec
  import opened KernelModule
  import opened KernelInvariant
  import opened KernelRuns

  // _init never panics.
  method Start(programs: Programs, link: Link) returns (kernel: Kernel)
    ensures kernel.Valid() && fresh(kernel.Repr) && fresh(kernel.ready) && kernel.link == link
    ensures Init(programs, link) == Ok(kernel.Abs()) && Inv(kernel.Abs())
  {
    kernel := new Kernel(link);
    var status := kernel.Boot(programs);
    InitKeepsInv(programs, link);
  }

  // Nor does any event that the current process can cause, in a state with the invariant.
  method Serve(kernel: Kernel, e: Event)
    requires kernel.Valid() && Inv(kernel.Abs()) && InCpu(kernel.Abs()) && UserOk(kernel.Abs(), e)
    modifies kernel.Repr
    ensures kernel.Valid() && Inv(kernel.Abs()) && Next(old(kernel.Abs()), e, kernel.Abs(), kernel.link)
  {
    StepKeepsInv(kernel.Abs(), e, kernel.link);
    var status := kernel.Interrupt(e);
    assert Leads(old(kernel.Abs()), e, kernel.Abs(), kernel.link);
  }

  // Events that can happen one after another.
  ghost predicate Possible(s: KState, es: seq<Event>, link: Link)
    decreases |es|
  {
    es != [] ==>
      && InCpu(s) && UserOk(s, es[0])
      && (Step(s, es[0], link).Ok? ==> Possible(Step(s, es[0], link).value, es[1..], link))
  }

  lemma PossibleNext(s: KState, es: seq<Event>, s': KState, link: Link)
    requires Possible(s, es, link) && es != [] && Next(s, es[0], s', link)
    ensures Possible(s', es[1..], link)
  {
    assert Leads(s, es[0], s', link);
  }

  // The next of them.
  method ServeNext(kernel: Kernel, es: seq<Event>, i: nat, ghost ss: seq<KState>) returns (ghost ss': seq<KState>)
    requires i < |es| && kernel.Valid() && Inv(kernel.Abs()) && Possible(kernel.Abs(), es[i..], kernel.link)
    requires Run(ss, es[..i], kernel.link) && ss[i] == kernel.Abs()
    modifies kernel.Repr
    ensures kernel.Valid() && Inv(kernel.Abs()) && Possible(kernel.Abs(), es[i + 1..], kernel.link)
    ensures Run(ss', es[..i + 1], kernel.link) && ss'[0] == ss[0] && ss'[i + 1] == kernel.Abs()
  {
    ghost var s, rest := kernel.Abs(), es[i..];
    assert rest[0] == es[i] && rest[1..] == es[i + 1..] && es[..i + 1] == es[..i] + [es[i]];
    Serve(kernel, es[i]);
    PossibleNext(s, rest, kernel.Abs(), kernel.link);
    RunGrows(ss, es[..i], es[i], kernel.Abs(), kernel.link);
    ss' := ss + [kernel.Abs()];
  }

  // All of them, through exactly the states of a run.
  method Work(kernel: Kernel, es: seq<Event>) returns (ghost ss: seq<KState>)
    requires kernel.Valid() && Inv(kernel.Abs()) && Possible(kernel.Abs(), es, kernel.link)
    modifies kernel.Repr
    ensures kernel.Valid() && Inv(kernel.Abs())
    ensures Run(ss, es, kernel.link) && ss[0] == old(kernel.Abs()) && ss[|es|] == kernel.Abs()
  {
    ss := [kernel.Abs()];
    assert es[0..] == es;
    for i := 0 to |es|
      invariant kernel.Valid() && Inv(kernel.Abs()) && Possible(kernel.Abs(), es[i..], kernel.link)
      invariant Run(ss, es[..i], kernel.link) && ss[0] == old(kernel.Abs()) && ss[i] == kernel.Abs()
    {
      ss := ServeNext(kernel, es, i, ss);
    }
    assert es[..|es|] == es;
  }
}
