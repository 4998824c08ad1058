/** The binary semaphore around the shared record, at the granularity of single operations: the
    parent runs its commands, grandchildren come and go, any process may die at any point, and the
    kernel undoes what a dying process did to the semaphore (`SEM_UNDO`). */
module Semaphore {

  /** `Take` and `Give` are `SemP` and `SemV`; `Read` and `Write` access the record inside a
      critical section; `Work` is everything else. */
  datatype Op = Take | Give | Read | Write | Work

  /** What a process still has to do, and the adjustment the kernel keeps for it. */
  datatype Proc = Proc(todo: seq<Op>, adj: int)

  datatype Sys = Sys(val: int, procs: map<nat, Proc>)

  const PARENT: nat := 0

  datatype Command = NextLoaded | NextExhausted | Prev | Update | Unlocked

  /** The parent's commands.  The exhausted exit of `NextPlay` returns without `SemV` unless
      `releases`. */
  function Script(c: Command, releases: bool): seq<Op> {
    match c
    case NextLoaded => [Take, Read, Write, Give, Work]
    case NextExhausted => if releases then [Take, Read, Give, Work] else [Take, Read, Work]
    case Prev => [Take, Read, Write, Give, Work]
    case Update => [Take, Read, Give, Work]
    case Unlocked => [Work]
  }

  /** A grandchild publishes its track and becomes the player, or finds the list exhausted and
      exits inside its critical section. */
  function GrandchildScript(exhausted: bool): seq<Op> {
    if exhausted then [Take, Read, Work] else [Take, Read, Write, Give, Work]
  }

  datatype Event =
    | Issue(c: Command)
    | Fork(pid: nat, exhausted: bool)
    | Advance(pid: nat)
    | Exit(pid: nat)

  predicate Enabled(s: Sys, e: Event) {
    match e
    case Issue(_) => PARENT in s.procs && s.procs[PARENT].todo == []
    case Fork(pid, _) => pid !in s.procs
    case Advance(pid) => pid in s.procs && s.procs[pid].todo != [] && (s.procs[pid].todo[0] == Take ==> s.val > 0)
    case Exit(pid) => pid in s.procs
  }

  function Step(s: Sys, e: Event, releases: bool): Sys
    requires Enabled(s, e)
  {
    match e
    case Issue(c) => s.(procs := s.procs[PARENT := s.procs[PARENT].(todo := Script(c, releases))])
    case Fork(pid, exhausted) => s.(procs := s.procs[pid := Proc(GrandchildScript(exhausted), 0)])
    case Advance(pid) =>
      var p := s.procs[pid];
      var rest := p.todo[1..];
      (match p.todo[0]
       case Take => Sys(s.val - 1, s.procs[pid := Proc(rest, p.adj + 1)])
       case Give => Sys(s.val + 1, s.procs[pid := Proc(rest, p.adj - 1)])
       case _ => s.(procs := s.procs[pid := p.(todo := rest)]))
    case Exit(pid) => Sys(s.val + s.procs[pid].adj, s.procs - {pid})
  }

  const INITIAL := Sys(1, map[PARENT := Proc([], 0)])

  // --------------------------------------------------------------- invariant

  function Holders(s: Sys): set<nat> {
    set p | p in s.procs && s.procs[p].adj == 1
  }

  /** The record is accessed, and the semaphore given, only while holding it; a process that takes
      it twice gets no further. */
  ghost predicate Disciplined(todo: seq<Op>, holds: bool) {
    todo == [] ||
    match todo[0]
    case Take => holds || Disciplined(todo[1..], true)
    case Give => holds && Disciplined(todo[1..], false)
    case Read => holds && Disciplined(todo[1..], holds)
    case Write => holds && Disciplined(todo[1..], holds)
    case Work => Disciplined(todo[1..], holds)
  }

  ghost predicate ProcOk(p: Proc) {
    (p.adj == 0 || p.adj == 1) && Disciplined(p.todo, p.adj == 1)
  }

  /** The semaphore's value plus the number of processes holding it is one. */
  ghost predicate Inv(s: Sys) {
    && (forall p | p in s.procs :: ProcOk(s.procs[p]))
    && s.val >= 0 && s.val + |Holders(s)| == 1
  }

  lemma InitialInv()
    ensures Inv(INITIAL)
  {
    assert Holders(INITIAL) == {};
  }

  lemma ScriptsDisciplined(c: Command, releases: bool, holds: bool, exhausted: bool)
    ensures Disciplined(Script(c, releases), holds)
    ensures Disciplined(GrandchildScript(exhausted), holds)
  {
    assert Disciplined([Work], true) && Disciplined([Work], false);
    assert [Give, Work][1..] == [Work] && [Read, Work][1..] == [Work];
    assert [Write, Give, Work][1..] == [Give, Work];
    assert [Read, Write, Give, Work][1..] == [Write, Give, Work];
    assert [Read, Give, Work][1..] == [Give, Work];
    assert [Take, Read, Write, Give, Work][1..] == [Read, Write, Give, Work];
    assert [Take, Read, Give, Work][1..] == [Read, Give, Work];
    assert [Take, Read, Work][1..] == [Read, Work];
    assert Disciplined([Give, Work], true);
    assert Disciplined([Write, Give, Work], true);
    assert Disciplined([Read, Write, Give, Work], true);
    assert Disciplined([Read, Give, Work], true);
    assert Disciplined([Read, Work], true);
  }

  /** What a process does to the shared record, in order. */
  ghost function Accesses(todo: seq<Op>): seq<Op> {
    if todo == [] then []
    else (if todo[0] == Read || todo[0] == Write then [todo[0]] else []) + Accesses(todo[1..])
  }

  /** Next and previous publish the track they go to, having read the record first; the end of a list,
      for the parent as for a grandchild, only reads it; the other commands leave it alone.  With
      `ScriptsDisciplined` they do so only while they hold the semaphore. */
  lemma WhoPublishes(c: Command, releases: bool, exhausted: bool)
    ensures Accesses(Script(c, releases))
            == if c == NextLoaded || c == Prev then [Read, Write] else if c == Unlocked then [] else [Read]
    ensures Accesses(GrandchildScript(exhausted)) == if exhausted then [Read] else [Read, Write]
  {
    assert [Give, Work][1..] == [Work] && [Read, Work][1..] == [Work];
    assert [Write, Give, Work][1..] == [Give, Work];
    assert [Read, Write, Give, Work][1..] == [Write, Give, Work];
    assert [Read, Give, Work][1..] == [Give, Work];
    assert [Take, Read, Write, Give, Work][1..] == [Read, Write, Give, Work];
    assert [Take, Read, Give, Work][1..] == [Read, Give, Work];
    assert [Take, Read, Work][1..] == [Read, Work];
    assert Accesses([Work]) == [] == Accesses([Give, Work]);
    assert Accesses([Write, Give, Work]) == [Write];
    assert Accesses([Read, Write, Give, Work]) == [Read] + [Write];
    assert Accesses([Read, Give, Work]) == [Read] == Accesses([Read, Work]);
  }

  lemma HoldersAfter(s: Sys, t: Sys, pid: nat)
    requires t.procs.Keys - {pid} == s.procs.Keys - {pid}
    requires forall p | p in s.procs && p != pid :: p in t.procs && t.procs[p] == s.procs[p]
    ensures pid !in Holders(s) && pid in Holders(t) ==> |Holders(t)| == |Holders(s)| + 1
    ensures pid in Holders(s) && pid !in Holders(t) ==> |Holders(t)| == |Holders(s)| - 1
    ensures (pid in Holders(s) <==> pid in Holders(t)) ==> |Holders(t)| == |Holders(s)|
  {
    var hs, ht := Holders(s), Holders(t);
    forall p | p != pid
      ensures p in hs <==> p in ht
    {
      assert p in t.procs.Keys - {pid} <==> p in s.procs.Keys - {pid};
    }
    assert ht - {pid} == hs - {pid};
    SizeWithout(hs, pid);
    SizeWithout(ht, pid);
  }

  lemma SizeWithout(s: set<nat>, x: nat)
    ensures |s| == |s - {x}| + if x in s then 1 else 0
  {
    if x in s {
      assert s == (s - {x}) + {x};
    } else {
      assert s == s - {x};
    }
  }

  function Actor(e: Event): nat {
    match e
    case Issue(_) => PARENT
    case Fork(pid, _) => pid
    case Advance(pid) => pid
    case Exit(pid) => pid
  }

  lemma StepKeepsInv(s: Sys, e: Event, releases: bool)
    requires Inv(s) && Enabled(s, e)
    ensures Inv(Step(s, e, releases))
  {
    var t, pid := Step(s, e, releases), Actor(e);
    HoldersAfter(s, t, pid);
    match e
    case Issue(c) => ScriptsDisciplined(c, releases, s.procs[PARENT].adj == 1, true);
    case Fork(_, exhausted) => ScriptsDisciplined(Unlocked, releases, false, exhausted);
    case Advance(_) =>
      assert ProcOk(s.procs[pid]);
      HolderMeansZero(s, pid);
    case Exit(_) =>
      assert ProcOk(s.procs[pid]);
  }

  /** What is set going by a command or a fork. */
  lemma SetGoing(s: Sys, e: Event, releases: bool)
    requires Enabled(s, e) && (e.Issue? || e.Fork?)
    ensures var p := Step(s, e, releases).procs[Actor(e)];
            && (e.Issue? ==>
                  && p.adj == s.procs[PARENT].adj
                  && Accesses(p.todo) == if e.c == NextLoaded || e.c == Prev then [Read, Write]
                                         else if e.c == Unlocked then [] else [Read])
            && (e.Fork? ==> p.adj == 0 && Accesses(p.todo) == if e.exhausted then [Read] else [Read, Write])
  {
    WhoPublishes(if e.Issue? then e.c else Unlocked, releases, e.Fork? && e.exhausted);
  }

  /** A process that dies inside its critical section frees the semaphore. */
  lemma DeathFrees(s: Sys, pid: nat, releases: bool)
    requires Inv(s) && pid in Holders(s)
    ensures Enabled(s, Exit(pid)) && Step(s, Exit(pid), releases).val == 1
  {
    HolderMeansZero(s, pid);
  }

  lemma HolderMeansZero(s: Sys, pid: nat)
    requires Inv(s) && pid in s.procs
    ensures s.procs[pid].adj == 1 ==> s.val == 0
  {
    if s.procs[pid].adj == 1 {
      assert pid in Holders(s);
    }
  }

  /** Runs: every event was possible when it happened. */
  ghost predicate Possible(s: Sys, es: seq<Event>, releases: bool)
    decreases |es|
  {
    es != [] ==> Enabled(s, es[0]) && Possible(Step(s, es[0], releases), es[1..], releases)
  }

  function Run(s: Sys, es: seq<Event>, releases: bool): Sys
    requires Possible(s, es, releases)
    decreases |es|
  {
    if es == [] then s else Run(Step(s, es[0], releases), es[1..], releases)
  }

  lemma {:induction false} RunKeepsInv(s: Sys, es: seq<Event>, releases: bool)
    requires Inv(s) && Possible(s, es, releases)
    ensures Inv(Run(s, es, releases))
    decreases |es|
  {
    if es != [] {
      StepKeepsInv(s, es[0], releases);
      RunKeepsInv(Step(s, es[0], releases), es[1..], releases);
    }
  }

  /** A process whose next operation touches the shared record. */
  ghost predicate InCritical(s: Sys, pid: nat) {
    pid in s.procs && s.procs[pid].todo != [] && (s.procs[pid].todo[0] == Read || s.procs[pid].todo[0] == Write)
  }

  /** Critical sections never overlap, in any interleaving and with processes dying anywhere. */
  lemma MutualExclusion(es: seq<Event>, releases: bool, p: nat, q: nat)
    requires Possible(INITIAL, es, releases)
    requires InCritical(Run(INITIAL, es, releases), p) && InCritical(Run(INITIAL, es, releases), q)
    ensures p == q
  {
    var s := Run(INITIAL, es, releases);
    InitialInv();
    RunKeepsInv(INITIAL, es, releases);
    assert ProcOk(s.procs[p]) && ProcOk(s.procs[q]);
    assert p in Holders(s) && q in Holders(s);
    if p != q {
      assert {p, q} <= Holders(s);
      SubsetSize({p, q}, Holders(s));
    }
  }

  lemma SubsetSize(a: set<nat>, b: set<nat>)
    requires a <= b
    ensures |a| <= |b|
  {
    assert b == a + (b - a);
  }

  // ---------------------------------------------------- command boundaries

  /** The parent is still there and its command has ended. */
  ghost predicate AtBoundary(s: Sys) {
    PARENT in s.procs && s.procs[PARENT].todo == []
  }

  /** Whether what is left of a command ends with the semaphore held, and never gives it back. */
  ghost function EndsHolding(todo: seq<Op>, holds: bool): bool {
    if todo == [] then holds
    else if todo[0] == Take then holds || EndsHolding(todo[1..], true)
    else if todo[0] == Give then EndsHolding(todo[1..], false)
    else EndsHolding(todo[1..], holds)
  }

  ghost predicate ParentEndsHolding(s: Sys) {
    PARENT in s.procs && EndsHolding(s.procs[PARENT].todo, s.procs[PARENT].adj == 1)
  }

  ghost predicate KeepsParent(es: seq<Event>) {
    forall k | 0 <= k < |es| :: es[k] != Exit(PARENT)
  }

  /** The exhausted exit was taken, and the source does not release there. */
  ghost predicate Leaks(es: seq<Event>, releases: bool) {
    !releases && exists k | 0 <= k < |es| :: es[k] == Issue(NextExhausted)
  }

  lemma ScriptEnds(c: Command, releases: bool, holds: bool)
    ensures EndsHolding(Script(c, releases), holds) <==> holds || (c == NextExhausted && !releases)
  {
    assert [Give, Work][1..] == [Work] && [Read, Work][1..] == [Work];
    assert [Write, Give, Work][1..] == [Give, Work];
    assert [Read, Write, Give, Work][1..] == [Write, Give, Work];
    assert [Read, Give, Work][1..] == [Give, Work];
    assert [Take, Read, Write, Give, Work][1..] == [Read, Write, Give, Work];
    assert [Take, Read, Give, Work][1..] == [Read, Give, Work];
    assert [Take, Read, Work][1..] == [Read, Work];
    assert !EndsHolding([Work], false) && EndsHolding([Work], true);
    assert !EndsHolding([Give, Work], true);
    assert !EndsHolding([Write, Give, Work], true);
    assert !EndsHolding([Read, Write, Give, Work], true);
    assert !EndsHolding([Read, Give, Work], true);
    assert EndsHolding([Read, Work], true);
  }

  lemma ParentStep(s: Sys, e: Event, releases: bool)
    requires Inv(s) && Enabled(s, e) && PARENT in s.procs && e != Exit(PARENT)
    ensures var t := Step(s, e, releases);
            PARENT in t.procs
            && (ParentEndsHolding(t) <==> ParentEndsHolding(s) || (e == Issue(NextExhausted) && !releases))
  {
    assert ProcOk(s.procs[PARENT]);
    HolderMeansZero(s, PARENT);
    if e.Issue? {
      ScriptEnds(e.c, releases, s.procs[PARENT].adj == 1);
    }
  }

  lemma {:induction false} ParentRun(s: Sys, es: seq<Event>, releases: bool)
    requires Inv(s) && Possible(s, es, releases) && PARENT in s.procs && KeepsParent(es)
    ensures var t := Run(s, es, releases);
            PARENT in t.procs && (ParentEndsHolding(t) <==> ParentEndsHolding(s) || Leaks(es, releases))
    decreases |es|
  {
    if es != [] {
      var t := Step(s, es[0], releases);
      ParentStep(s, es[0], releases);
      StepKeepsInv(s, es[0], releases);
      ParentRun(t, es[1..], releases);
      LeaksCons(es, releases);
    }
  }

  lemma LeaksCons(es: seq<Event>, releases: bool)
    requires es != []
    ensures Leaks(es, releases) <==> (es[0] == Issue(NextExhausted) && !releases) || Leaks(es[1..], releases)
  {
    assert forall k | 1 <= k < |es| :: es[k] == es[1..][k - 1];
    if !releases && exists k | 0 <= k < |es| :: es[k] == Issue(NextExhausted) {
      var k :| 0 <= k < |es| && es[k] == Issue(NextExhausted);
      assert k > 0 ==> es[1..][k - 1] == es[k];
    }
  }

  /** At a command boundary the parent holds the semaphore exactly when some exhausted `NextPlay`
      has kept it. */
  lemma BoundaryHoldsIff(es: seq<Event>, releases: bool)
    requires Possible(INITIAL, es, releases) && KeepsParent(es)
    requires AtBoundary(Run(INITIAL, es, releases))
    ensures PARENT in Holders(Run(INITIAL, es, releases)) <==> Leaks(es, releases)
  {
    InitialInv();
    ParentRun(INITIAL, es, releases);
    RunKeepsInv(INITIAL, es, releases);
    assert ProcOk(Run(INITIAL, es, releases).procs[PARENT]);
  }

  /** After the leak the semaphore is never taken again while the parent lives: at every later
      boundary its value is zero, so no grandchild gets as far as playing. */
  lemma LeakBlocksEveryTake(es: seq<Event>, more: seq<Event>, releases: bool, pid: nat)
    requires Possible(INITIAL, es, releases) && KeepsParent(es) && Leaks(es, releases)
    requires AtBoundary(Run(INITIAL, es, releases))
    requires Possible(Run(INITIAL, es, releases), more, releases) && KeepsParent(more)
    ensures var t := Run(Run(INITIAL, es, releases), more, releases);
            t.val == 0 && (pid in t.procs && t.procs[pid].todo != [] && t.procs[pid].todo[0] == Take
                           ==> !Enabled(t, Advance(pid)))
  {
    var s := Run(INITIAL, es, releases);
    InitialInv();
    RunKeepsInv(INITIAL, es, releases);
    BoundaryHoldsIff(es, releases);
    HeldForever(s, more, releases);
  }

  /** The parent holds the semaphore and will not give it back. */
  ghost predicate Stuck(s: Sys) {
    PARENT in s.procs && s.procs[PARENT].adj == 1 && NeverGives(s.procs[PARENT].todo)
  }

  ghost predicate NeverGives(todo: seq<Op>) {
    todo == [] || todo[0] == Take || (todo[0] != Give && NeverGives(todo[1..]))
  }

  lemma {:induction false} HeldForever(s: Sys, es: seq<Event>, releases: bool)
    requires Inv(s) && Stuck(s) && Possible(s, es, releases) && KeepsParent(es)
    ensures Stuck(Run(s, es, releases)) && Run(s, es, releases).val == 0
    decreases |es|
  {
    HolderMeansZero(s, PARENT);
    if es != [] {
      StepKeepsInv(s, es[0], releases);
      StuckStep(s, es[0], releases);
      HeldForever(Step(s, es[0], releases), es[1..], releases);
    }
  }

  lemma StuckStep(s: Sys, e: Event, releases: bool)
    requires Inv(s) && Stuck(s) && Enabled(s, e) && e != Exit(PARENT)
    ensures Stuck(Step(s, e, releases))
  {
    HolderMeansZero(s, PARENT);
    if e.Issue? {
      assert NeverGives([Work]);
    }
  }
}
