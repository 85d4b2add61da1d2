/** The query watchdog of src/pool.rs: a worker thread and a watchdog thread that share
    a completion flag under a mutex, a condition variable and a `timed_out` flag.
    A run is any list of actions; a disabled action changes nothing. */
module Watchdog {

  /** What `run_with_timeout_using` hands back; `Own` carries the operation's own result. */
  datatype Outcome = Own(result: int) | Timeout

  datatype WorkerPc =
    | Starting
    | NoWatchdog                      // the watchdog thread could not be created
    | Operating                       // inside the operation
    | Marking(result: int)            // mark_complete, before its lock
    | MarkHolds(result: int)
    | Joining(result: int)
    | Returned(outcome: Outcome)
    | Unwound                         // the operation panicked

  datatype WatchdogPc =
    | Absent
    | Created(timeout: nat)           // thread exists, deadline not computed yet
    | AtLock
    | Looping                         // holds the mutex, top of the loop
    | Waiting                         // inside wait_timeout, mutex released
    | Waking(expired: bool)           // wait is over, mutex not taken back yet
    | Flagged(holds: bool)            // `timed_out` stored, interrupt not issued yet
    | Ended

  datatype Holder = Free | Worker | Dog

  datatype State = State(worker: WorkerPc, dog: WatchdogPc, mutex: Holder, poisoned: bool,
                         done: bool, timedOut: bool, interrupts: nat, clock: nat, deadline: nat)

  datatype Action =
    | Tick(amount: nat)
    | Poison                          // some thread panicked while it held the mutex
    | Spawn(ok: bool, timeout: nat)
    | Finish(result: int)             // the operation returns, interrupted or not
    | Panic
    | WorkerLock
    | Mark
    | JoinAndLoad
    | DogStart
    | DogLock
    | Check
    | Wake(expired: bool)             // notified, spurious, or the wait expired
    | Relock
    | Interrupt

  function Initial(): State { State(Starting, Absent, Free, false, false, false, 0, 0, 0) }

  function WorkerNext(s: State, a: Action): State {
    match (a, s.worker)
    case (Spawn(ok, timeout), Starting) =>
      if ok then s.(worker := Operating, dog := Created(timeout)) else s.(worker := NoWatchdog)
    case (Finish(r), Operating) => s.(worker := Marking(r))
    case (Panic, Operating) => s.(worker := Unwound)
    case (WorkerLock, Marking(r)) =>
      if !s.mutex.Free? then s
      else if s.poisoned then s.(worker := Joining(r))
      else s.(worker := MarkHolds(r), mutex := Worker)
    case (Mark, MarkHolds(r)) => s.(worker := Joining(r), mutex := Free, done := true)
    case (JoinAndLoad, Joining(r)) =>
      if s.dog.Ended? then s.(worker := Returned(if s.timedOut then Timeout else Own(r))) else s
    case _ => s
  }

  function DogNext(s: State, a: Action): State {
    match (a, s.dog)
    case (DogStart, Created(timeout)) => s.(dog := AtLock, deadline := s.clock + timeout)
    case (DogLock, AtLock) =>
      if !s.mutex.Free? then s
      else if s.poisoned then s.(dog := Flagged(false), timedOut := true)
      else s.(dog := Looping, mutex := Dog)
    case (Check, Looping) =>
      if s.done then s.(dog := Ended, mutex := Free)
      else if s.deadline < s.clock then s.(dog := Flagged(true), timedOut := true)
      else s.(dog := Waiting, mutex := Free)
    case (Wake(expired), Waiting) =>
      if expired && s.clock < s.deadline then s else s.(dog := Waking(expired))
    case (Relock, Waking(expired)) =>
      if !s.mutex.Free? then s
      else if s.poisoned then s.(dog := Flagged(false), timedOut := true)
      else if expired && !s.done then s.(dog := Flagged(true), timedOut := true, mutex := Dog)
      else s.(dog := Looping, mutex := Dog)
    case (Interrupt, Flagged(holds)) =>
      s.(dog := Ended, interrupts := s.interrupts + 1, mutex := if holds then Free else s.mutex)
    case _ => s
  }

  function Next(s: State, a: Action): State {
    match a
    case Tick(amount) => s.(clock := s.clock + amount)
    case Poison => s.(poisoned := true)
    case _ => DogNext(WorkerNext(s, a), a)
  }

  function Run(s: State, actions: seq<Action>): State
    decreases |actions|
  {
    if actions == [] then s else Run(Next(s, actions[0]), actions[1..])
  }

  // ---------- what every interleaving keeps ----------

  predicate Inv(s: State) {
    && (s.mutex.Worker? <==> s.worker.MarkHolds?)
    && (s.mutex.Dog? <==> s.dog.Looping? || s.dog == Flagged(true))
    && (s.dog.Absent? <==> s.worker.Starting? || s.worker.NoWatchdog?)
    && (s.timedOut <==> s.dog.Flagged? || s.interrupts == 1)
    && (s.interrupts == 1 ==> s.dog.Ended?)
    && (s.dog.Ended? && s.interrupts == 0 ==> s.done)
    && s.interrupts <= 1
    && (s.worker.Returned? ==> s.dog.Ended? && (s.worker.outcome.Timeout? <==> s.timedOut))
    && (s.dog == Waking(true) ==> s.deadline <= s.clock)
    && (s.done ==> s.worker.Joining? || s.worker.Returned?)
    && (!s.poisoned ==> (s.timedOut ==> s.deadline <= s.clock) && (s.dog.Flagged? ==> s.dog.holds && !s.done))
  }

  lemma WorkerKeeps(s: State, a: Action)
    requires Inv(s)
    ensures Inv(WorkerNext(s, a))
  {
  }

  lemma DogKeeps(s: State, a: Action)
    requires Inv(s)
    ensures Inv(DogNext(s, a))
  {
  }

  lemma NextKeeps(s: State, a: Action)
    requires Inv(s)
    ensures Inv(Next(s, a))
  {
    if !a.Tick? && !a.Poison? {
      WorkerKeeps(s, a);
      DogKeeps(WorkerNext(s, a), a);
    }
  }

  lemma {:induction false} RunKeeps(s: State, actions: seq<Action>)
    requires Inv(s)
    ensures Inv(Run(s, actions))
    decreases |actions|
  {
    if actions != [] {
      NextKeeps(s, actions[0]);
      RunKeeps(Next(s, actions[0]), actions[1..]);
    }
  }

  lemma {:induction false} RunConcat(s: State, a: seq<Action>, b: seq<Action>)
    ensures Run(s, a + b) == Run(Run(s, a), b)
    decreases |a|
  {
    if a == [] {
      assert a + b == b;
    } else {
      assert (a + b)[0] == a[0] && (a + b)[1..] == a[1..] + b;
      RunConcat(Next(s, a[0]), a[1..], b);
    }
  }

  /** A returned call stays returned and no later action can interrupt the connection. */
  lemma {:induction false} QuietAfterReturn(s: State, actions: seq<Action>)
    requires Inv(s) && s.worker.Returned?
    ensures Run(s, actions).interrupts == s.interrupts && Run(s, actions).worker == s.worker
    decreases |actions|
  {
    if actions != [] {
      NextKeeps(s, actions[0]);
      QuietAfterReturn(Next(s, actions[0]), actions[1..]);
    }
  }

  /** In every interleaving, with or without a poisoned mutex: at most one interrupt is
      issued; a returned call reports the operation's own result exactly when none was
      issued and a timeout exactly when one was; and none is issued afterwards. */
  lemma OutcomeMatchesInterrupt(before: seq<Action>, after: seq<Action>)
    requires Run(Initial(), before).worker.Returned?
    ensures var s, t := Run(Initial(), before), Run(Initial(), before + after);
            && s.interrupts <= 1
            && (s.worker.outcome.Own? <==> s.interrupts == 0)
            && (s.worker.outcome.Timeout? <==> s.interrupts == 1)
            && t.interrupts == s.interrupts && t.worker == s.worker
  {
    RunKeeps(Initial(), before);
    RunConcat(Initial(), before, after);
    QuietAfterReturn(Run(Initial(), before), after);
  }

  /** The result a returned call reports as its own is the one the operation produced. */
  predicate Produced(s: State, result: int) {
    match s.worker
    case Marking(r) => r == result
    case MarkHolds(r) => r == result
    case Joining(r) => r == result
    case Returned(o) => o.Own? ==> o.result == result
    case _ => false
  }

  lemma {:induction false} ResultPassesThrough(s: State, actions: seq<Action>, result: int)
    requires Produced(s, result)
    ensures Produced(Run(s, actions), result)
    decreases |actions|
  {
    if actions != [] {
      assert Produced(Next(s, actions[0]), result);
      ResultPassesThrough(Next(s, actions[0]), actions[1..], result);
    }
  }

  /** While the mutex is sound, an interrupt is issued only at or past the deadline and
      only before the operation was marked complete. */
  lemma NeverEarlyNeverLate(actions: seq<Action>)
    requires var s := Run(Initial(), actions); !s.poisoned && Next(s, Interrupt).interrupts != s.interrupts
    ensures var s := Run(Initial(), actions); s.deadline <= s.clock && !s.done
  {
    RunKeeps(Initial(), actions);
  }

  // ---------- the timeout that was asked for ----------

  function Upto(actions: seq<Action>, n: nat): State
    requires n <= |actions|
  {
    Run(Initial(), actions[..n])
  }

  lemma UptoStep(actions: seq<Action>, n: nat)
    requires n < |actions|
    ensures Upto(actions, n + 1) == Next(Upto(actions, n), actions[n])
  {
    assert actions[..n + 1] == actions[..n] + [actions[n]];
    RunConcat(Initial(), actions[..n], [actions[n]]);
    assert [actions[n]][1..] == [];
    assert Run(Next(Upto(actions, n), actions[n]), []) == Next(Upto(actions, n), actions[n]);
  }

  /** The p-th action creates the watchdog thread. */
  predicate CreatesDog(actions: seq<Action>, p: nat)
    requires p < |actions|
  {
    actions[p].Spawn? && actions[p].ok && Upto(actions, p).worker.Starting?
  }

  /** The q-th action starts it. */
  predicate StartsDog(actions: seq<Action>, q: nat)
    requires q < |actions|
  {
    actions[q].DogStart? && Upto(actions, q).dog.Created?
  }

  ghost predicate CreatedWith(actions: seq<Action>, n: nat, timeout: nat)
    requires n <= |actions|
  {
    exists p :: 0 <= p < n && CreatesDog(actions, p) && actions[p].timeout == timeout
  }

  /** The deadline is the clock at the start plus the timeout given to the creation before. */
  ghost predicate DeadlineFrom(actions: seq<Action>, n: nat, deadline: nat)
    requires n <= |actions|
  {
    exists q :: 0 <= q < n && StartsDog(actions, q) && DeadlineAt(actions, q, deadline)
  }

  ghost predicate DeadlineAt(actions: seq<Action>, q: nat, deadline: nat)
    requires q < |actions|
  {
    deadline >= Upto(actions, q).clock && CreatedWith(actions, q, deadline - Upto(actions, q).clock)
  }

  lemma LaterCreated(actions: seq<Action>, n: nat, m: nat, timeout: nat)
    requires n <= m <= |actions| && CreatedWith(actions, n, timeout)
    ensures CreatedWith(actions, m, timeout)
  {
  }

  lemma LaterDeadline(actions: seq<Action>, n: nat, deadline: nat)
    requires n < |actions| && DeadlineFrom(actions, n, deadline)
    ensures DeadlineFrom(actions, n + 1, deadline)
  {
  }

  ghost predicate Timed(actions: seq<Action>, n: nat)
    requires n <= |actions|
  {
    var s := Upto(actions, n);
    if s.dog.Created? then CreatedWith(actions, n, s.dog.timeout) else s.dog.Absent? || DeadlineFrom(actions, n, s.deadline)
  }

  /** How a step changes the watchdog and its deadline. */
  lemma DogMoves(s: State, a: Action, t: State)
    requires Inv(s) && t == Next(s, a)
    ensures s.dog.Absent? ==> t.dog.Absent? || (a.Spawn? && a.ok && s.worker.Starting? && t.dog == Created(a.timeout))
    ensures s.dog.Created? ==> t.dog == s.dog || (a.DogStart? && t.dog.AtLock? && t.deadline == s.clock + s.dog.timeout)
    ensures !s.dog.Absent? && !s.dog.Created? ==> !t.dog.Absent? && !t.dog.Created? && t.deadline == s.deadline
  {
  }

  lemma TimedFrom(actions: seq<Action>, n: nat, s: State, a: Action, t: State)
    requires n < |actions| && Timed(actions, n) && s == Upto(actions, n) && a == actions[n] && t == Upto(actions, n + 1)
    requires s.dog.Absent? ==> t.dog.Absent? || (a.Spawn? && a.ok && s.worker.Starting? && t.dog == Created(a.timeout))
    requires s.dog.Created? ==> t.dog == s.dog || (a.DogStart? && t.dog.AtLock? && t.deadline == s.clock + s.dog.timeout)
    requires !s.dog.Absent? && !s.dog.Created? ==> !t.dog.Absent? && !t.dog.Created? && t.deadline == s.deadline
    ensures Timed(actions, n + 1)
  {
    if s.dog.Absent? {
      assert t.dog.Created? ==> CreatesDog(actions, n);
    } else if s.dog.Created? {
      LaterCreated(actions, n, n + 1, s.dog.timeout);
      assert a.DogStart? ==> StartsDog(actions, n) && DeadlineAt(actions, n, s.clock + s.dog.timeout);
    } else {
      LaterDeadline(actions, n, s.deadline);
    }
  }

  lemma TimedStep(actions: seq<Action>, n: nat)
    requires n < |actions| && Timed(actions, n) && Inv(Upto(actions, n))
    ensures Timed(actions, n + 1)
  {
    UptoStep(actions, n);
    DogMoves(Upto(actions, n), actions[n], Upto(actions, n + 1));
    TimedFrom(actions, n, Upto(actions, n), actions[n], Upto(actions, n + 1));
  }

  lemma {:induction false} AlwaysTimed(actions: seq<Action>, n: nat)
    requires n <= |actions|
    ensures Timed(actions, n)
  {
    if n == 0 {
      assert actions[..0] == [];
    } else {
      AlwaysTimed(actions, n - 1);
      RunKeeps(Initial(), actions[..n - 1]);
      TimedStep(actions, n - 1);
    }
  }

  /** While the mutex is sound, an interrupt comes only when at least the timeout given to the
      call has passed since its watchdog started. */
  lemma NotBeforeTimeout(actions: seq<Action>)
    requires var s := Run(Initial(), actions); !s.poisoned && Next(s, Interrupt).interrupts != s.interrupts
    ensures exists p, q :: 0 <= p < q < |actions| && CreatesDog(actions, p) && StartsDog(actions, q)
              && Upto(actions, q).clock + actions[p].timeout <= Run(Initial(), actions).clock
  {
    var s := Run(Initial(), actions);
    NeverEarlyNeverLate(actions);
    AlwaysTimed(actions, |actions|);
    assert actions[..|actions|] == actions;
    var q :| 0 <= q < |actions| && StartsDog(actions, q) && DeadlineAt(actions, q, s.deadline);
    var p :| 0 <= p < q && CreatesDog(actions, p) && actions[p].timeout == s.deadline - Upto(actions, q).clock;
  }

  // ---------- interrupts after the call ----------

  /** The call is over: it returned, it unwound, or it never got its watchdog. */
  predicate Gone(s: State) { s.worker.Returned? || s.worker.Unwound? || s.worker.NoWatchdog? }

  ghost predicate CanInterrupt(s: State) {
    exists more :: Run(s, more).interrupts > s.interrupts
  }

  lemma Later(s: State, a: Action)
    requires Next(s, a).interrupts == s.interrupts && CanInterrupt(Next(s, a))
    ensures CanInterrupt(s)
  {
    var more :| Run(Next(s, a), more).interrupts > s.interrupts;
    assert ([a] + more)[1..] == more;
    assert Run(s, [a] + more) == Run(Next(s, a), more);
  }

  lemma FromFlagged(s: State)
    requires s.dog.Flagged?
    ensures CanInterrupt(s)
  {
    assert [Interrupt][1..] == [];
    assert Run(s, [Interrupt]) == Run(Next(s, Interrupt), []);
  }

  /** An unwound worker never marks completion, so the watchdog finds its deadline passed. */
  predicate Abandoned(s: State) { Inv(s) && s.worker.Unwound? && s.interrupts == 0 }

  lemma FromLooping(s: State)
    requires Abandoned(s) && s.dog.Looping?
    ensures CanInterrupt(s)
  {
    var t := Next(s, Tick(s.deadline + 1));
    FromFlagged(Next(t, Check));
    Later(t, Check);
    Later(s, Tick(s.deadline + 1));
  }

  lemma FromWaking(s: State)
    requires Abandoned(s) && s.dog.Waking?
    ensures CanInterrupt(s)
  {
    NextKeeps(s, Relock);
    if Next(s, Relock).dog.Flagged? {
      FromFlagged(Next(s, Relock));
    } else {
      FromLooping(Next(s, Relock));
    }
    Later(s, Relock);
  }

  lemma FromWaiting(s: State)
    requires Abandoned(s) && s.dog.Waiting?
    ensures CanInterrupt(s)
  {
    NextKeeps(s, Wake(false));
    FromWaking(Next(s, Wake(false)));
    Later(s, Wake(false));
  }

  lemma FromLock(s: State)
    requires Abandoned(s) && s.dog.AtLock?
    ensures CanInterrupt(s)
  {
    NextKeeps(s, DogLock);
    if Next(s, DogLock).dog.Flagged? {
      FromFlagged(Next(s, DogLock));
    } else {
      FromLooping(Next(s, DogLock));
    }
    Later(s, DogLock);
  }

  lemma AbandonedInterrupts(s: State)
    requires Abandoned(s)
    ensures CanInterrupt(s)
  {
    match s.dog {
      case Created(_) =>
        NextKeeps(s, DogStart);
        FromLock(Next(s, DogStart));
        Later(s, DogStart);
      case AtLock => FromLock(s);
      case Looping => FromLooping(s);
      case Waiting => FromWaiting(s);
      case Waking(_) => FromWaking(s);
      case Flagged(_) => FromFlagged(s);
    }
  }

  /** Once the call is over, no more interrupts come if the watchdog is gone or was never there. */
  lemma {:induction false} QuietDog(s: State, more: seq<Action>)
    requires (s.dog.Ended? && !s.worker.Starting?) || (s.dog.Absent? && s.worker.NoWatchdog?)
    ensures Run(s, more).interrupts == s.interrupts
    decreases |more|
  {
    if more != [] {
      QuietDog(Next(s, more[0]), more[1..]);
    }
  }

  /** The promise that no interrupt comes after the call is over fails exactly for a call that
      panicked before the watchdog interrupted it: from every such state, in every run that
      leads there, the interrupt can still come, and from no other. */
  lemma LateIff(actions: seq<Action>)
    requires Gone(Run(Initial(), actions))
    ensures var s := Run(Initial(), actions);
            CanInterrupt(s) <==> s.worker.Unwound? && s.interrupts == 0
  {
    var s := Run(Initial(), actions);
    RunKeeps(Initial(), actions);
    if s.worker.Unwound? && s.interrupts == 0 {
      AbandonedInterrupts(s);
    } else {
      forall more ensures Run(s, more).interrupts == s.interrupts {
        QuietDog(s, more);
      }
    }
  }

  /** There is such a call: a panic skips the join, whatever the timeout. */
  lemma PanicLeavesInterrupt(timeout: nat)
    ensures var s := Run(Initial(), [Spawn(true, timeout), Panic]);
            s.worker.Unwound? && s.interrupts == 0 && CanInterrupt(s)
  {
    Unroll2(Initial(), Spawn(true, timeout), Panic);
    LateIff([Spawn(true, timeout), Panic]);
  }

  lemma Unroll2(s: State, a: Action, b: Action)
    ensures Run(s, [a, b]) == Next(Next(s, a), b)
  {
    assert [a, b][1..] == [b] && [b][1..] == [];
    assert Run(Next(s, a), [b]) == Run(Next(Next(s, a), b), []);
  }

  // ---------- a finished operation returns ----------

  ghost predicate Leads(s: State, t: State) { exists more :: Run(s, more) == t }

  lemma One(s: State, a: Action)
    ensures Leads(s, Next(s, a))
  {
    assert [a][1..] == [];
    assert Run(s, [a]) == Run(Next(s, a), []);
  }

  lemma Then(s: State, t: State, u: State)
    requires Leads(s, t) && Leads(t, u)
    ensures Leads(s, u)
  {
    var a :| Run(s, a) == t;
    var b :| Run(t, b) == u;
    RunConcat(s, a, b);
    assert Run(s, a + b) == u;
  }

  /** The watchdog can come to its end without the worker moving, unless the worker holds the mutex. */
  ghost predicate DogCanEnd(s: State) {
    exists t :: Leads(s, t) && Inv(t) && t.dog.Ended? && t.worker == s.worker
  }

  lemma DogStep(s: State, a: Action)
    requires Inv(s) && Next(s, a).worker == s.worker && DogCanEnd(Next(s, a))
    ensures DogCanEnd(s)
  {
    One(s, a);
    var t :| Leads(Next(s, a), t) && Inv(t) && t.dog.Ended? && t.worker == s.worker;
    Then(s, Next(s, a), t);
  }

  lemma EndedCanEnd(s: State)
    requires Inv(s) && s.dog.Ended?
    ensures DogCanEnd(s)
  {
    assert Run(s, []) == s;
  }

  predicate Unheld(s: State) { Inv(s) && !s.dog.Absent? && !s.worker.MarkHolds? }

  lemma EndFlagged(s: State)
    requires Unheld(s) && s.dog.Flagged?
    ensures DogCanEnd(s)
  {
    NextKeeps(s, Interrupt);
    EndedCanEnd(Next(s, Interrupt));
    DogStep(s, Interrupt);
  }

  lemma EndLooping(s: State)
    requires Unheld(s) && s.dog.Looping?
    ensures DogCanEnd(s)
  {
    if s.done {
      NextKeeps(s, Check);
      EndedCanEnd(Next(s, Check));
      DogStep(s, Check);
    } else {
      var t := Next(s, Tick(s.deadline + 1));
      NextKeeps(s, Tick(s.deadline + 1));
      NextKeeps(t, Check);
      EndFlagged(Next(t, Check));
      DogStep(t, Check);
      DogStep(s, Tick(s.deadline + 1));
    }
  }

  lemma EndLocked(s: State, a: Action)
    requires Unheld(s) && ((s.dog.AtLock? && a.DogLock?) || (s.dog.Waking? && a.Relock?))
    ensures DogCanEnd(s)
  {
    NextKeeps(s, a);
    if Next(s, a).dog.Flagged? {
      EndFlagged(Next(s, a));
    } else {
      EndLooping(Next(s, a));
    }
    DogStep(s, a);
  }

  lemma DogEnds(s: State)
    requires Unheld(s)
    ensures DogCanEnd(s)
  {
    match s.dog {
      case Ended => EndedCanEnd(s);
      case Flagged(_) => EndFlagged(s);
      case Looping => EndLooping(s);
      case AtLock => EndLocked(s, DogLock);
      case Waking(_) => EndLocked(s, Relock);
      case Waiting =>
        NextKeeps(s, Wake(false));
        EndLocked(Next(s, Wake(false)), Relock);
        DogStep(s, Wake(false));
      case Created(_) =>
        NextKeeps(s, DogStart);
        EndLocked(Next(s, DogStart), DogLock);
        DogStep(s, DogStart);
    }
  }

  ghost predicate CanReturn(s: State) { exists t :: Leads(s, t) && t.worker.Returned? }

  lemma ReturnStep(s: State, a: Action)
    requires CanReturn(Next(s, a))
    ensures CanReturn(s)
  {
    One(s, a);
    var t :| Leads(Next(s, a), t) && t.worker.Returned?;
    Then(s, Next(s, a), t);
  }

  lemma ReturnLater(s: State, u: State)
    requires Leads(s, u) && CanReturn(u)
    ensures CanReturn(s)
  {
    var t :| Leads(u, t) && t.worker.Returned?;
    Then(s, u, t);
  }

  lemma ReturnJoining(s: State)
    requires Inv(s) && s.worker.Joining?
    ensures CanReturn(s)
  {
    DogEnds(s);
    var u :| Leads(s, u) && Inv(u) && u.dog.Ended? && u.worker == s.worker;
    assert Run(Next(u, JoinAndLoad), []) == Next(u, JoinAndLoad);
    assert CanReturn(Next(u, JoinAndLoad));
    ReturnStep(u, JoinAndLoad);
    ReturnLater(s, u);
  }

  lemma ReturnHolding(s: State)
    requires Inv(s) && s.worker.MarkHolds?
    ensures CanReturn(s)
  {
    NextKeeps(s, Mark);
    ReturnJoining(Next(s, Mark));
    ReturnStep(s, Mark);
  }

  /** In every run, a call whose operation has finished can still return: nothing that happened
      before can keep it from its result or its timeout. */
  lemma CallCompletes(actions: seq<Action>)
    requires var w := Run(Initial(), actions).worker; w.Marking? || w.MarkHolds? || w.Joining?
    ensures CanReturn(Run(Initial(), actions))
  {
    RunKeeps(Initial(), actions);
    var s := Run(Initial(), actions);
    if s.worker.Joining? {
      ReturnJoining(s);
    } else if s.worker.MarkHolds? {
      ReturnHolding(s);
    } else {
      DogEnds(s);
      var u :| Leads(s, u) && Inv(u) && u.dog.Ended? && u.worker == s.worker;
      NextKeeps(u, WorkerLock);
      if Next(u, WorkerLock).worker.Joining? {
        ReturnJoining(Next(u, WorkerLock));
      } else {
        ReturnHolding(Next(u, WorkerLock));
      }
      ReturnStep(u, WorkerLock);
      ReturnLater(s, u);
    }
  }
}
