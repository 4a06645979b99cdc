/**
 The admission budget that the gateway processes of one pool share for one target.

 Every process charges one shared counter with a compare-and-swap loop and keeps its own
 "held" gauge beside it.  A process may be killed between the two updates; the master then
 returns the dead process's gauge to the shared counter.  Each load, each compare-and-swap
 and each gauge write below is a step of its own, taken by any process at any time.
 */
module UpstreamBudget {
  import opened Shared

  /** Where a gateway process stands inside budget_take() or budget_give_back(). */
  datatype Pc =
    | Idle
    | TakeLoop                    // about to load the shared counter
    | TakeLoaded(used: nat)       // loaded it, below the limit; about to swap used -> used + 1
    | TakeCharged                 // swapped; about to load the own gauge
    | TakeGauge(seen: nat)        // about to swap the gauge seen -> seen + 1
    | GiveLoop                    // about to load the own gauge
    | GiveGauge(seen: nat)        // about to swap the gauge seen -> seen - 1
    | GiveDropped                 // gauge lowered; about to load the shared counter
    | GiveLoaded(used: nat)       // about to swap used -> used - 1

  /** Whether the process runs, or how far the master is in cleaning up after it. */
  datatype Life =
    | Running
    | Dead                                    // killed; nothing reconciled yet
    | ReapLoop(amount: nat)                   // read the gauge; about to load the shared counter
    | ReapLoaded(amount: nat, used: nat)      // about to swap used -> used - min(amount, used)
    | ReapReturned                            // shared counter lowered; about to zero the gauge
    | Gone                                    // reconciled; may be respawned

  /** `owned` counts the slots the process took and did not begin to give back,
      `conns` the pooled connections it has open. */
  datatype Process = Process(life: Life, pc: Pc, held: nat, owned: nat, conns: nat)

  /** `leaked` and `crashes` are bookkeeping: slots no reconciliation will return, and deaths so far. */
  datatype State = State(max: nat, used: nat, procs: seq<Process>, leaked: nat, crashes: nat)

  datatype Action =
    | Take(p: nat)
    | GiveBack(p: nat)
    | Advance(p: nat)      // the next load, swap or gauge write of process p
    | Open(p: nat)
    | Close(p: nat)
    | Crash(p: nat)
    | Reap(p: nat)         // the next step of the master for the dead process p
    | Respawn(p: nat)

  const FRESH := Process(Running, Idle, 0, 0, 0)

  function Init(n: nat, max: nat): State {
    State(max, 0, seq(n, _ => FRESH), 0, 0)
  }

  /** Between the update of the shared counter and the update of the own gauge. */
  predicate InWindow(pc: Pc) {
    pc.TakeCharged? || pc.TakeGauge? || pc.GiveDropped? || pc.GiveLoaded?
  }

  // The steps of the two loops of a running process: the shared counter and the process after the step.
  function Advanced(max: nat, used: nat, p: Process): (nat, Process) {
    match p.pc
    case Idle => (used, p)
    case TakeLoop =>
      (used, p.(pc := if used >= max then Idle else TakeLoaded(used)))
    case TakeLoaded(seen) =>
      if used == seen then (used + 1, p.(pc := TakeCharged)) else (used, p.(pc := TakeLoop))
    case TakeCharged =>
      (used, p.(pc := TakeGauge(p.held)))
    case TakeGauge(seen) =>
      (used, if p.held == seen then p.(held := seen + 1, owned := p.owned + 1, pc := Idle) else p.(pc := TakeCharged))
    case GiveLoop =>
      (used, p.(pc := if p.held == 0 then GiveDropped else GiveGauge(p.held)))
    case GiveGauge(seen) =>
      (used, if p.held == seen && seen > 0 then p.(held := seen - 1, pc := GiveDropped) else p.(pc := GiveLoop))
    case GiveDropped =>
      (used, p.(pc := if used == 0 then Idle else GiveLoaded(used)))
    case GiveLoaded(seen) =>
      if used == seen && used > 0 then (used - 1, p.(pc := Idle)) else (used, p.(pc := GiveDropped))
  }

  // The steps of the master for a dead process.
  function Reaped(used: nat, p: Process): (nat, Process) {
    match p.life
    case Running => (used, p)
    case Dead => (used, p.(life := if p.held == 0 then Gone else ReapLoop(p.held)))
    case ReapLoop(amount) =>
      (used, p.(life := if Min(amount, used) == 0 then ReapReturned else ReapLoaded(amount, used)))
    case ReapLoaded(amount, seen) =>
      if used == seen then (used - Min(amount, used), p.(life := ReapReturned))
      else (used, p.(life := ReapLoop(amount)))
    case ReapReturned => (used, p.(life := Gone, held := 0))
    case Gone => (used, p)
  }

  predicate Enabled(s: State, a: Action) {
    && a.p < |s.procs|
    && var p := s.procs[a.p];
       match a
       case Take(_) => p.life.Running? && p.pc.Idle?
       case GiveBack(_) => p.life.Running? && p.pc.Idle? && p.conns < p.owned
       case Advance(_) => p.life.Running? && !p.pc.Idle?
       case Open(_) => p.life.Running? && p.pc.Idle? && p.conns < p.owned
       case Close(_) => p.life.Running? && p.pc.Idle? && p.conns > 0
       case Crash(_) => p.life.Running?
       case Reap(_) => !p.life.Running? && !p.life.Gone?
       case Respawn(_) => p.life.Gone?
  }

  function Perform(s: State, a: Action): State
    requires Enabled(s, a)
  {
    var i := a.p;
    var p := s.procs[i];
    match a
    case Take(_) => s.(procs := s.procs[i := p.(pc := TakeLoop)])
    case GiveBack(_) => s.(procs := s.procs[i := p.(pc := GiveLoop, owned := p.owned - 1)])
    case Advance(_) => var (u, q) := Advanced(s.max, s.used, p); s.(used := u, procs := s.procs[i := q])
    case Open(_) => s.(procs := s.procs[i := p.(conns := p.conns + 1)])
    case Close(_) => s.(procs := s.procs[i := p.(conns := p.conns - 1)])
    case Crash(_) => s.(procs := s.procs[i := p.(life := Dead, conns := 0)], crashes := s.crashes + 1)
    case Reap(_) =>
      var (u, q) := Reaped(s.used, p);
      s.(used := u, procs := s.procs[i := q],
         leaked := s.leaked + if q.life.Gone? && InWindow(q.pc) then 1 else 0)
    case Respawn(_) => s.(procs := s.procs[i := FRESH])
  }

  /** The state after a whole run, or None when some action was not possible where it stands. */
  function Exec(s: State, run: seq<Action>): Option<State>
    decreases |run|
  {
    if run == [] then Some(s)
    else if Enabled(s, run[0]) then Exec(Perform(s, run[0]), run[1..])
    else None
  }

  ghost predicate Reachable(s: State) {
    exists n: nat, max: nat, run: seq<Action> :: Exec(Init(n, max), run) == Some(s)
  }

  // ---- conservation ----

  /** What a process's gauge still has charged to the shared counter. */
  function Charged(p: Process): nat {
    if p.life.ReapReturned? || p.life.Gone? then 0 else p.held
  }

  /** One more unit while the process is (or died) between its two updates and is not reconciled yet. */
  function Window(p: Process): nat {
    if InWindow(p.pc) && !p.life.Gone? then 1 else 0
  }

  function Sum(f: Process -> nat, ps: seq<Process>): nat {
    if ps == [] then 0 else f(ps[0]) + Sum(f, ps[1..])
  }

  lemma {:induction false} SumUpdate(f: Process -> nat, ps: seq<Process>, i: nat, q: Process)
    requires i < |ps|
    ensures Sum(f, ps[i := q]) == Sum(f, ps) - f(ps[i]) + f(q)
  {
    if i == 0 {
      assert ps[0 := q][1..] == ps[1..];
    } else {
      assert ps[i := q][1..] == ps[1..][i - 1 := q];
      SumUpdate(f, ps[1..], i - 1, q);
    }
  }

  lemma {:induction false} SumAtLeast(f: Process -> nat, ps: seq<Process>, i: nat)
    requires i < |ps|
    ensures f(ps[i]) <= Sum(f, ps)
  {
    if i > 0 { SumAtLeast(f, ps[1..], i - 1); }
  }

  lemma {:induction false} SumMonotone(f: Process -> nat, g: Process -> nat, ps: seq<Process>)
    requires forall i | 0 <= i < |ps| :: f(ps[i]) <= g(ps[i])
    ensures Sum(f, ps) <= Sum(g, ps)
  {
    if ps != [] {
      forall i | 0 <= i < |ps[1..]| ensures f(ps[1..][i]) <= g(ps[1..][i]) { assert ps[1..][i] == ps[i + 1]; }
      SumMonotone(f, g, ps[1..]);
    }
  }

  lemma {:induction false} SumZero(f: Process -> nat, ps: seq<Process>)
    requires forall i | 0 <= i < |ps| :: f(ps[i]) == 0
    ensures Sum(f, ps) == 0
  {
    if ps != [] {
      forall i | 0 <= i < |ps[1..]| ensures f(ps[1..][i]) == 0 { assert ps[1..][i] == ps[i + 1]; }
      SumZero(f, ps[1..]);
    }
  }

  /** What holds of each process by itself. */
  predicate Consistent(max: nat, p: Process) {
    && p.conns <= p.owned
    && (!p.life.Running? ==> p.conns == 0)
    && (p.life.ReapLoop? ==> p.life.amount == p.held > 0)
    && (p.life.ReapLoaded? ==> p.life.used >= p.life.amount == p.held > 0)
    && (p.life.Gone? ==> p.held == 0)
    && (p.life.Running? ==> p.held == p.owned + if p.pc.GiveLoop? || p.pc.GiveGauge? then 1 else 0)
    && match p.pc
       case TakeLoaded(seen) => seen < max
       case TakeGauge(seen) => p.life.Running? ==> seen == p.held
       case GiveGauge(seen) => p.life.Running? ==> seen == p.held
       case GiveLoaded(seen) => seen > 0
       case _ => true
  }

  ghost predicate Inv(s: State) {
    && (forall i | 0 <= i < |s.procs| :: Consistent(s.max, s.procs[i]))
    && s.used == Sum(Charged, s.procs) + Sum(Window, s.procs) + s.leaked
    && s.used <= s.max
    && s.leaked + Sum(Unreconciled, s.procs) <= s.crashes
  }

  /** A death whose leak, if any, is not booked yet. */
  function Unreconciled(p: Process): nat {
    if p.life.Running? || p.life.Gone? then 0 else 1
  }

  lemma InitInv(n: nat, max: nat)
    ensures Inv(Init(n, max))
  {
    var ps := Init(n, max).procs;
    SumZero(Charged, ps);
    SumZero(Window, ps);
    SumZero(Unreconciled, ps);
  }

  /** One step of a running process moves the shared counter exactly as its own share moves. */
  lemma AdvancedShare(max: nat, used: nat, p: Process)
    requires Consistent(max, p) && p.life.Running? && Charged(p) + Window(p) <= used <= max
    ensures var (u, q) := Advanced(max, used, p);
      && Consistent(max, q) && q.life.Running? && u <= max
      && u - used == Charged(q) + Window(q) - Charged(p) - Window(p)
  {
  }

  /** One step of the master does too, but for the unit that leaks when the death was in the window. */
  lemma ReapedShare(max: nat, used: nat, p: Process)
    requires Consistent(max, p) && !p.life.Running? && !p.life.Gone? && Charged(p) + Window(p) <= used <= max
    ensures var (u, q) := Reaped(used, p);
      && Consistent(max, q) && !q.life.Running? && u <= max
      && u - used == Charged(q) + Window(q) - Charged(p) - Window(p)
                     + if q.life.Gone? && InWindow(q.pc) then 1 else 0
  {
  }

  /** Replacing one process keeps the invariant when the counter moves with that process's share. */
  lemma ReplaceInv(s: State, i: nat, q: Process, used: nat, leak: nat, crash: nat)
    requires Inv(s) && i < |s.procs| && Consistent(s.max, q) && used <= s.max
    requires used - s.used == Charged(q) + Window(q) - Charged(s.procs[i]) - Window(s.procs[i]) + leak
    requires leak + Unreconciled(q) <= crash + Unreconciled(s.procs[i])
    ensures Inv(State(s.max, used, s.procs[i := q], s.leaked + leak, s.crashes + crash))
  {
    SumUpdate(Charged, s.procs, i, q);
    SumUpdate(Window, s.procs, i, q);
    SumUpdate(Unreconciled, s.procs, i, q);
  }

  lemma OwnShare(s: State, i: nat)
    requires Inv(s) && i < |s.procs|
    ensures Consistent(s.max, s.procs[i])
    ensures Charged(s.procs[i]) + Window(s.procs[i]) <= s.used
  {
    SumAtLeast(Charged, s.procs, i);
    SumAtLeast(Window, s.procs, i);
  }

  lemma AdvanceInv(s: State, a: Action)
    requires Inv(s) && Enabled(s, a) && a.Advance?
    ensures Inv(Perform(s, a))
  {
    OwnShare(s, a.p);
    AdvancedShare(s.max, s.used, s.procs[a.p]);
    var (u, q) := Advanced(s.max, s.used, s.procs[a.p]);
    ReplaceInv(s, a.p, q, u, 0, 0);
  }

  lemma ReapInv(s: State, a: Action)
    requires Inv(s) && Enabled(s, a) && a.Reap?
    ensures Inv(Perform(s, a))
  {
    OwnShare(s, a.p);
    ReapedShare(s.max, s.used, s.procs[a.p]);
    var (u, q) := Reaped(s.used, s.procs[a.p]);
    ReplaceInv(s, a.p, q, u, if q.life.Gone? && InWindow(q.pc) then 1 else 0, 0);
  }

  lemma StepInv(s: State, a: Action)
    requires Inv(s) && Enabled(s, a)
    ensures Inv(Perform(s, a))
  {
    match a {
      case Advance(_) => AdvanceInv(s, a);
      case Reap(_) => ReapInv(s, a);
      case Crash(_) => ReplaceInv(s, a.p, s.procs[a.p].(life := Dead, conns := 0), s.used, 0, 1);
      case _ => ReplaceInv(s, a.p, Perform(s, a).procs[a.p], s.used, 0, 0);
    }
  }

  lemma {:induction false} RunInv(s: State, run: seq<Action>)
    requires Inv(s) && Exec(s, run).Some?
    ensures Inv(Exec(s, run).value)
    decreases |run|
  {
    if run != [] {
      StepInv(s, run[0]);
      RunInv(Perform(s, run[0]), run[1..]);
    }
  }

  lemma ReachableInv(s: State)
    requires Reachable(s)
    ensures Inv(s)
  {
    var n: nat, max: nat, run: seq<Action> :| Exec(Init(n, max), run) == Some(s);
    InitInv(n, max);
    RunInv(Init(n, max), run);
  }

  // ---- the promises ----

  /** After any run: the shared counter is exactly the gauges still charged, plus the processes
      between their two updates, plus the leaked slots; and at most one slot leaks per death. */
  lemma BudgetConserved(s: State)
    requires Reachable(s)
    ensures s.used == Sum(Charged, s.procs) + Sum(Window, s.procs) + s.leaked
    ensures s.leaked <= s.crashes
  {
    ReachableInv(s);
  }

  function Conns(p: Process): nat { p.conns }

  /** After any run the limit holds, for the counter and for the connections themselves. */
  lemma ConnectionsWithinLimit(s: State)
    requires Reachable(s)
    ensures Sum(Conns, s.procs) <= s.used <= s.max
  {
    ReachableInv(s);
    forall i | 0 <= i < |s.procs| ensures Conns(s.procs[i]) <= Charged(s.procs[i]) {
      assert Consistent(s.max, s.procs[i]);
    }
    SumMonotone(Conns, Charged, s.procs);
  }

  /** No saturating guard ever clips: a gauge is never lowered from zero, the shared counter is never
      found at zero by a give-back, and the master always returns the whole gauge of a dead process. */
  lemma GuardsNeverClip(s: State, i: nat)
    requires Reachable(s) && i < |s.procs|
    ensures var p := s.procs[i];
      && (p.life.Running? && p.pc.GiveLoop? ==> p.held > 0)
      && (p.life.Running? && p.pc.GiveDropped? ==> s.used > 0)
      && (p.life.ReapLoop? ==> Min(p.life.amount, s.used) == p.life.amount == p.held)
      && (p.life.ReapLoaded? ==> Min(p.life.amount, s.used) == p.life.amount == p.held)
  {
    ReachableInv(s);
    assert Consistent(s.max, s.procs[i]);
    SumAtLeast(Charged, s.procs, i);
    SumAtLeast(Window, s.procs, i);
  }

  /** Once no process holds anything, only the leaked slots are missing from the budget. */
  lemma QuietBudgetIsLeak(s: State)
    requires Reachable(s)
    requires forall i | 0 <= i < |s.procs| ::
      s.procs[i].life.Gone? || (s.procs[i].life.Running? && s.procs[i].pc.Idle? && s.procs[i].owned == 0)
    ensures s.used == s.leaked
  {
    ReachableInv(s);
    forall i | 0 <= i < |s.procs| ensures Charged(s.procs[i]) == 0 && Window(s.procs[i]) == 0 {
      assert Consistent(s.max, s.procs[i]);
    }
    SumZero(Charged, s.procs);
    SumZero(Window, s.procs);
  }

  // ---- what one process, or the master, achieves when it is left alone ----

  /** The first step of a run, and the rest of it. */
  lemma ExecFirst(s: State, a: Action, rest: seq<Action>)
    requires Enabled(s, a)
    ensures Exec(s, [a] + rest) == Exec(Perform(s, a), rest)
  {
    assert ([a] + rest)[1..] == rest;
  }

  function Steps(a: Action, n: nat): seq<Action> { if n == 0 then [] else [a] + Steps(a, n - 1) }

  function With(s: State, i: nat, used: nat, p: Process): State
    requires i < |s.procs|
  {
    s.(used := used, procs := s.procs[i := p])
  }

  /** One step of process i, when it is the one at work. */
  lemma OneStep(s: State, i: nat, used: nat, p: Process, n: nat)
    requires i < |s.procs| && p.life.Running? && !p.pc.Idle? && n > 0
    ensures var (u, q) := Advanced(s.max, used, p);
      Exec(With(s, i, used, p), Steps(Advance(i), n)) == Exec(With(s, i, u, q), Steps(Advance(i), n - 1))
  {
    var w := With(s, i, used, p);
    var (u, q) := Advanced(s.max, used, p);
    ExecFirst(w, Advance(i), Steps(Advance(i), n - 1));
    assert s.procs[i := p][i := q] == s.procs[i := q];
  }

  /** A slot is had exactly when there is one: the counter, the gauge and the process's slots go up by one, or
      nothing changes. */
  lemma TakeAlone(s: State, i: nat)
    requires Reachable(s) && i < |s.procs| && s.procs[i].life.Running? && s.procs[i].pc.Idle?
    ensures var p := s.procs[i];
      if s.used < s.max then
        Exec(s, [Take(i)] + Steps(Advance(i), 4)) ==
          Some(With(s, i, s.used + 1, p.(held := p.held + 1, owned := p.owned + 1)))
      else Exec(s, [Take(i)] + Steps(Advance(i), 1)) == Some(s)
  {
    var p := s.procs[i];
    var n := if s.used < s.max then 4 else 1;
    ExecFirst(s, Take(i), Steps(Advance(i), n));
    OneStep(s, i, s.used, p.(pc := TakeLoop), n);
    if s.used < s.max {
      OneStep(s, i, s.used, p.(pc := TakeLoaded(s.used)), 3);
      OneStep(s, i, s.used + 1, p.(pc := TakeCharged), 2);
      OneStep(s, i, s.used + 1, p.(pc := TakeGauge(p.held)), 1);
    } else {
      assert s.procs[i := p] == s.procs;
    }
  }

  /** A slot that is given back is free again. */
  lemma GiveAlone(s: State, i: nat)
    requires Reachable(s) && i < |s.procs| && s.procs[i].life.Running? && s.procs[i].pc.Idle?
    requires s.procs[i].conns < s.procs[i].owned
    ensures var p := s.procs[i];
      && s.used > 0 && p.held > 0
      && Exec(s, [GiveBack(i)] + Steps(Advance(i), 4)) ==
           Some(With(s, i, s.used - 1, p.(held := p.held - 1, owned := p.owned - 1)))
  {
    ReachableInv(s);
    OwnShare(s, i);
    GiveSteps(s, i);
  }

  lemma GiveSteps(s: State, i: nat)
    requires i < |s.procs| && s.procs[i].life.Running? && s.procs[i].pc.Idle?
    requires s.procs[i].conns < s.procs[i].owned && s.used > 0 && s.procs[i].held > 0
    ensures var p := s.procs[i];
      Exec(s, [GiveBack(i)] + Steps(Advance(i), 4)) ==
        Some(With(s, i, s.used - 1, p.(held := p.held - 1, owned := p.owned - 1)))
  {
    var p := s.procs[i];
    var giving := Process(Running, GiveLoop, p.held, p.owned - 1, p.conns);
    var lowered := Process(Running, GiveDropped, p.held - 1, p.owned - 1, p.conns);
    var after := Process(Running, Idle, p.held - 1, p.owned - 1, p.conns);
    assert Perform(s, GiveBack(i)) == With(s, i, s.used, giving);
    ExecFirst(s, GiveBack(i), Steps(Advance(i), 4));
    GaugeDown(s, i, s.used, giving);
    assert giving.(held := giving.held - 1, pc := GiveDropped) == lowered;
    CounterDown(s, i, s.used, lowered);
    assert lowered.(pc := Idle) == after == p.(held := p.held - 1, owned := p.owned - 1);
  }

  lemma GaugeDown(s: State, i: nat, used: nat, q: Process)
    requires i < |s.procs| && q.life.Running? && q.pc.GiveLoop? && q.held > 0
    ensures Exec(With(s, i, used, q), Steps(Advance(i), 4)) ==
      Exec(With(s, i, used, q.(held := q.held - 1, pc := GiveDropped)), Steps(Advance(i), 2))
  {
    OneStep(s, i, used, q, 4);
    OneStep(s, i, used, q.(pc := GiveGauge(q.held)), 3);
  }

  lemma CounterDown(s: State, i: nat, used: nat, q: Process)
    requires i < |s.procs| && q.life.Running? && q.pc.GiveDropped? && used > 0
    ensures Exec(With(s, i, used, q), Steps(Advance(i), 2)) == Some(With(s, i, used - 1, q.(pc := Idle)))
  {
    OneStep(s, i, used, q, 2);
    OneStep(s, i, used, q.(pc := GiveLoaded(used)), 1);
  }

  lemma OneReap(s: State, i: nat, used: nat, p: Process, leaked: nat, n: nat)
    requires i < |s.procs| && !p.life.Running? && !p.life.Gone? && n > 0
    ensures var (u, q) := Reaped(used, p);
      Exec(With(s, i, used, p).(leaked := leaked), Steps(Reap(i), n)) ==
      Exec(With(s, i, u, q).(leaked := leaked + if q.life.Gone? && InWindow(q.pc) then 1 else 0), Steps(Reap(i), n - 1))
  {
    var w := With(s, i, used, p).(leaked := leaked);
    var (u, q) := Reaped(used, p);
    ExecFirst(w, Reap(i), Steps(Reap(i), n - 1));
    assert s.procs[i := p][i := q] == s.procs[i := q];
  }

  /** The master returns everything a dead process held; what it was in the middle of taking or giving leaks. */
  lemma ReapAlone(s: State, i: nat)
    requires Reachable(s) && i < |s.procs| && s.procs[i].life.Dead?
    ensures var p := s.procs[i];
      && p.held <= s.used
      && Exec(s, Steps(Reap(i), if p.held == 0 then 1 else 4)) ==
           Some(With(s, i, s.used - p.held, p.(life := Gone, held := 0))
                  .(leaked := s.leaked + if InWindow(p.pc) then 1 else 0))
  {
    ReachableInv(s);
    OwnShare(s, i);
    ReapSteps(s, i);
  }

  lemma ReapSteps(s: State, i: nat)
    requires i < |s.procs| && s.procs[i].life.Dead? && s.procs[i].held <= s.used
    ensures var p := s.procs[i];
      Exec(s, Steps(Reap(i), if p.held == 0 then 1 else 4)) ==
        Some(With(s, i, s.used - p.held, p.(life := Gone, held := 0))
               .(leaked := s.leaked + if InWindow(p.pc) then 1 else 0))
  {
    var p := s.procs[i];
    assert With(s, i, s.used, p).(leaked := s.leaked) == s;
    OneReap(s, i, s.used, p, s.leaked, if p.held == 0 then 1 else 4);
    if p.held > 0 {
      OneReap(s, i, s.used, p.(life := ReapLoop(p.held)), s.leaked, 3);
      OneReap(s, i, s.used, p.(life := ReapLoaded(p.held, s.used)), s.leaked, 2);
      OneReap(s, i, s.used - p.held, p.(life := ReapReturned), s.leaked, 1);
    }
  }

  /** The bound of one slot per death is attained: a process killed right after its shared charge. */
  lemma DeathInWindowLeaks()
    ensures exists s :: Reachable(s) && s.crashes == 1 && s.leaked == 1 && s.used == 1
  {
    var run := [Take(0), Advance(0), Advance(0), Crash(0), Reap(0)];
    var s0 := Init(1, 1);
    var s1 := Perform(s0, run[0]);
    var s2 := Perform(s1, run[1]);
    var s3 := Perform(s2, run[2]);
    var s4 := Perform(s3, run[3]);
    var s5 := Perform(s4, run[4]);
    assert run[1..][1..][1..][1..][1..] == [];
    assert Exec(s4, run[1..][1..][1..][1..]) == Some(s5);
    assert Exec(s3, run[1..][1..][1..]) == Some(s5);
    assert Exec(s2, run[1..][1..]) == Some(s5);
    assert Exec(s1, run[1..]) == Some(s5);
    assert Exec(s0, run) == Some(s5);
  }
}
