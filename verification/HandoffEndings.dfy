/** How connectors and daemons end: nobody is ever stuck, and a failed start leaves nothing behind. */
module HandoffEndings {
  import opened Text
  import opened Lease
  import opened Handoff
  import opened HandoffProofs
  import opened HandoffProgress

  // ---------- connectors ----------

  /** The longest way to an end that a connector can take on its own. */
  function Rank(pc: Pc): nat {
    match pc
    case Done => 0
    case Failed => 0
    case Polling => 1
    case Waiting(_, _) => 1
    case Spawning => 2
    case AwaitReply(_, _, _, _) => 2
    case SendToken(_, _, _) => 3
    case First => 3
    case MissingOwner(_) => 3
    case Recheck(_, _) => 3
    case ProbeHolds(_, _) => 4
    case LeaseRead(_, _) => 4
    case LeaseProbe(_, _) => 5
  }

  /** A step that brings a connector nearer to its end whatever the others do. */
  function Escape(pc: Pc, d: Daemon): ConnectorEvent
    requires d.identity.Some?
  {
    match pc
    case First => ReadHealth(false)
    case MissingOwner(_) => ReadHealth(false)
    case Recheck(_, _) => ReadHealth(false)
    case Spawning => Spawn(d.pid, d.executable, d.identity.value)
    case AwaitReply(_, _, _, _) => Reply(false)
    case SendToken(_, _, _) => Send
    case ProbeHolds(_, _) => ProbeUnlock
    case LeaseRead(_, _) => ReadLease
    case LeaseProbe(_, _) => Probe
    case _ => GiveUp
  }

  ghost predicate OwnSteps(more: seq<Action>, i: nat) {
    forall a :: a in more ==> a.OfConnector? && a.c == i
  }

  predicate Settled(s: State, i: nat) {
    i < |s.connectors| && (s.connectors[i].pc.Done? || s.connectors[i].pc.Failed?)
  }

  /** The connector still has the process it may start at hand, unless it is past starting one. */
  ghost predicate Equipped(s: State, i: nat, d: Daemon) {
    && i < |s.connectors| && d.identity.Some?
    && (Rank(s.connectors[i].pc) >= 2 ==> Own(s.connectors[i], d) && Startable(s, d))
  }

  /** Whoever is about to read a lease file has a file to read. */
  ghost predicate Readable(s: State) {
    forall i :: 0 <= i < |s.connectors| && s.connectors[i].pc.LeaseRead? ==> s.connectors[i].registry in s.files
  }

  lemma DaemonFiles(s: State, i: nat, e: DaemonEvent)
    requires i < |s.daemons|
    ensures DaemonStep(s, i, e).connectors == s.connectors && s.files.Keys <= DaemonStep(s, i, e).files.Keys
  {
  }

  lemma ConnectorFiles(s: State, i: nat, e: ConnectorEvent)
    requires i < |s.connectors|
    ensures var t := ConnectorStep(s, i, e);
            && t.files == s.files && |t.connectors| == |s.connectors|
            && (forall k :: 0 <= k < |s.connectors| && k != i ==> t.connectors[k] == s.connectors[k])
            && t.connectors[i].registry == s.connectors[i].registry
  {
  }

  lemma OnlyProbed(s: State, i: nat, e: ConnectorEvent)
    requires i < |s.connectors| && |ConnectorStep(s, i, e).connectors| == |s.connectors|
    requires ConnectorStep(s, i, e).connectors[i].pc.LeaseRead?
    ensures s.connectors[i].pc.LeaseRead? || s.connectors[i].registry in s.files
  {
  }

  lemma NextReadable(s: State, a: Action)
    requires Readable(s)
    ensures Readable(Next(s, a))
  {
    if a.OfDaemon? && a.d < |s.daemons| {
      DaemonFiles(s, a.d, a.event);
    } else if a.OfConnector? && a.c < |s.connectors| {
      ConnectorFiles(s, a.c, a.step);
      if Next(s, a).connectors[a.c].pc.LeaseRead? {
        OnlyProbed(s, a.c, a.step);
      }
    }
  }

  lemma {:induction false} RunReadable(actions: seq<Action>)
    ensures Readable(Run(actions))
  {
    if actions != [] {
      RunReadable(actions[..|actions| - 1]);
      NextReadable(Run(actions[..|actions| - 1]), actions[|actions| - 1]);
    }
  }

  lemma SpawnDescends(s: State, i: nat, d: Daemon)
    requires Equipped(s, i, d) && s.connectors[i].pc.Spawning?
    ensures var t := Next(s, OfConnector(i, Escape(Spawning, d)));
            i < |t.connectors| && t.connectors[i].pc.Polling?
  {
  }

  /** Any other escape changes the connector's position only, and lowers its rank. */
  lemma EscapeMoves(s: State, i: nat, pc: Pc, d: Daemon)
    requires i < |s.connectors| && pc == s.connectors[i].pc && d.identity.Some? && Rank(pc) > 0 && !pc.Spawning?
    requires pc.LeaseRead? ==> s.connectors[i].registry in s.files
    ensures var t := ConnectorStep(s, i, Escape(pc, d));
            && t.daemons == s.daemons && |t.connectors| == |s.connectors| && Rank(t.connectors[i].pc) < Rank(pc)
            && (forall c :: Own(s.connectors[i], c) ==> Own(t.connectors[i], c))
  {
  }

  lemma EscapeDescends(s: State, i: nat, d: Daemon)
    requires Readable(s) && Equipped(s, i, d) && !Settled(s, i)
    ensures var t := Next(s, OfConnector(i, Escape(s.connectors[i].pc, d)));
            Equipped(t, i, d) && Rank(t.connectors[i].pc) < Rank(s.connectors[i].pc)
  {
    if s.connectors[i].pc.Spawning? {
      SpawnDescends(s, i, d);
    } else {
      var t := ConnectorStep(s, i, Escape(s.connectors[i].pc, d));
      EscapeMoves(s, i, s.connectors[i].pc, d);
      if Rank(t.connectors[i].pc) >= 2 {
        StillStartable(s, t, d);
      }
    }
  }

  lemma Prepend(s: State, a: Action, more: seq<Action>)
    ensures After(s, [a] + more) == After(Next(s, a), more)
  {
    assert ([a] + more)[1..] == more;
  }

  lemma {:induction false} SettlesFrom(s: State, i: nat, d: Daemon) returns (more: seq<Action>)
    requires Readable(s) && Equipped(s, i, d)
    ensures |more| <= Rank(s.connectors[i].pc) && OwnSteps(more, i) && Settled(After(s, more), i)
    decreases Rank(s.connectors[i].pc)
  {
    if Settled(s, i) {
      return [];
    }
    var a := OfConnector(i, Escape(s.connectors[i].pc, d));
    NextReadable(s, a);
    EscapeDescends(s, i, d);
    var rest := SettlesFrom(Next(s, a), i, d);
    Prepend(s, a, rest);
    return [a] + rest;
  }

  /** In every run, a connector can end by at most five steps of its own: no lock, lease text,
      missing reply or silent daemon holds it. */
  lemma NeverStuck(actions: seq<Action>, i: nat, d: Daemon) returns (more: seq<Action>)
    requires i < |Run(actions).connectors| && Own(Run(actions).connectors[i], d) && Startable(Run(actions), d)
    ensures |more| <= 5 && OwnSteps(more, i) && Settled(Run(actions + more), i)
  {
    RunReadable(actions);
    more := SettlesFrom(Run(actions), i, d);
    RunOn(actions, more);
  }

  /** A process of the connector's release listens on the connector's port. */
  ghost predicate Answered(s: State, c: Connector) {
    exists k :: 0 <= k < |s.daemons| && Bound(s.daemons[k].phase) && s.daemons[k].port == c.port && SameRelease(s.daemons[k], c)
  }

  lemma SatisfiedStep(s: State, i: nat, reached: bool)
    requires Listeners(s) && i < |s.connectors| && ReadsHealth(s.connectors[i].pc)
    ensures var t := ConnectorStep(s, i, ReadHealth(reached));
            i < |t.connectors| && (t.connectors[i].pc.Done? <==> reached && Answered(s, s.connectors[i]))
  {
    var c := s.connectors[i];
    if c.port in s.ports {
      assert Bound(s.daemons[s.ports[c.port]].phase);
    }
  }

  /** In every run, a health read in any position satisfies the connector exactly when it reaches
      a listening daemon of the connector's version, schema and registry. */
  lemma SatisfiedIff(actions: seq<Action>, i: nat, reached: bool)
    requires i < |Run(actions).connectors| && ReadsHealth(Run(actions).connectors[i].pc)
    ensures var s, t := Run(actions), Run(actions + [OfConnector(i, ReadHealth(reached))]);
            i < |t.connectors| && (t.connectors[i].pc.Done? <==> reached && Answered(s, s.connectors[i]))
  {
    RunKeeps(actions);
    SatisfiedStep(Run(actions), i, reached);
    assert (actions + [OfConnector(i, ReadHealth(reached))])[..|actions|] == actions;
  }

  /** A handoff request is accepted exactly by a process that holds its lease and whose token
      it carries; nothing else changes. */
  lemma AcceptIff(s: State, m: nat)
    requires m < |s.messages| && (s.messages[m].from, s.messages[m].to) !in s.handoffs
    ensures var msg, t := s.messages[m], Next(s, Accept(m));
            && ((msg.from, msg.to) in t.handoffs <==>
                  && msg.to < |s.daemons| && !s.daemons[msg.to].phase.Launched? && !s.daemons[msg.to].phase.Exited?
                  && s.daemons[msg.to].identity.Some? && s.daemons[msg.to].identity.value.token == msg.token)
            && (forall h :: h != (msg.from, msg.to) ==> (h in t.handoffs <==> h in s.handoffs))
            && t.(handoffs := s.handoffs) == s
  {
  }

  /** A handoff that was answered with a refusal ends the connector; one that was accepted, or
      whose answer was lost, leaves it waiting for the owner to go. */
  lemma ReplyDecides(s: State, i: nat, arrived: bool)
    requires i < |s.connectors| && s.connectors[i].pc.AwaitReply?
    ensures var c, t := s.connectors[i], Next(s, OfConnector(i, Reply(arrived)));
            && (t.connectors[i].pc.Failed? <==> arrived && (i, c.pc.to) !in s.handoffs)
            && (!t.connectors[i].pc.Failed? ==> t.connectors[i].pc == Waiting(c.pc.obs, c.pc.owner))
            && t.daemons == s.daemons && t.leases == s.leases && t.ports == s.ports && t.handoffs == s.handoffs
  {
  }

  // ---------- daemons ----------

  /** Process k holds neither a lease nor a port. */
  ghost predicate Holdless(s: State, k: nat) {
    (forall r :: r in s.leases ==> s.leases[r] != ByDaemon(k)) && (forall p :: p in s.ports ==> s.ports[p] != k)
  }

  /** In every run, a process that has exited holds nothing. */
  lemma ExitedHoldsNothing(actions: seq<Action>, k: nat)
    requires k < |Run(actions).daemons| && Run(actions).daemons[k].phase.Exited?
    ensures Holdless(Run(actions), k)
  {
    RunKeeps(actions);
  }

  /** A daemon that finds the lease taken exits and takes nothing from its holder. */
  lemma LeaseTaken(actions: seq<Action>, k: nat)
    requires k < |Run(actions).daemons| && Run(actions).daemons[k].phase.Launched?
    requires Run(actions).daemons[k].registry in Run(actions).leases
    ensures var s, t := Run(actions), Run(actions + [OfDaemon(k, TryLease)]);
            && k < |t.daemons| && t.daemons[k].phase.Exited? && Holdless(t, k)
            && t.leases == s.leases && t.ports == s.ports && t.connectors == s.connectors
  {
    var a := OfDaemon(k, TryLease);
    assert (actions + [a])[..|actions|] == actions;
    ExitedHoldsNothing(actions + [a], k);
  }

  /** A daemon that finds its port taken exits, gives its lease back and leaves the listener alone. */
  lemma PortTaken(actions: seq<Action>, k: nat)
    requires k < |Run(actions).daemons| && Run(actions).daemons[k].phase == Writing(|LeaseText(Run(actions).daemons[k])|)
    requires Run(actions).daemons[k].port in Run(actions).ports
    ensures var s, t := Run(actions), Run(actions + [OfDaemon(k, Bind)]);
            && k < |t.daemons| && t.daemons[k].phase.Exited? && Holdless(t, k)
            && t.leases == s.leases - {s.daemons[k].registry} && t.ports == s.ports
  {
    var a := OfDaemon(k, Bind);
    assert (actions + [a])[..|actions|] == actions;
    ExitedHoldsNothing(actions + [a], k);
  }

  lemma CrashLeaves(s: State, k: nat)
    requires Leases(s) && Listeners(s) && k < |s.daemons|
    ensures var t := DaemonStep(s, k, Die);
            && |t.daemons| == |s.daemons| && t.daemons[k].phase.Exited?
            && (forall r :: r in s.leases && s.leases[r] != ByDaemon(k) ==> r in t.leases && t.leases[r] == s.leases[r])
            && (forall p :: p in s.ports && s.ports[p] != k ==> p in t.ports && t.ports[p] == s.ports[p])
  {
  }

  /** A crash at any moment frees whatever the process held, and nothing else. */
  lemma CrashFrees(actions: seq<Action>, k: nat)
    requires k < |Run(actions).daemons|
    ensures var s, t := Run(actions), Run(actions + [OfDaemon(k, Die)]);
            && k < |t.daemons| && t.daemons[k].phase.Exited? && Holdless(t, k)
            && (forall r :: r in s.leases && s.leases[r] != ByDaemon(k) ==> r in t.leases && t.leases[r] == s.leases[r])
            && (forall p :: p in s.ports && s.ports[p] != k ==> p in t.ports && t.ports[p] == s.ports[p])
  {
    var a := OfDaemon(k, Die);
    RunKeeps(actions);
    CrashLeaves(Run(actions), k);
    assert (actions + [a])[..|actions|] == actions;
    ExitedHoldsNothing(actions + [a], k);
  }
}
