/** What `held_daemon_owner` really reports. */
module HandoffReads {
  import opened Text
  import opened Lease
  import opened Handoff
  import opened HandoffProofs

  function OwnerOf(d: Daemon): Owner {
    Owner(d.pid, Resource(d.port), d.executable,
          if d.identity.Some? then Some(d.identity.value.instance) else None,
          if d.identity.Some? then Some(d.identity.value.token) else None)
  }

  /** Whenever the lease is held by a process that has finished writing, in any run, the
      reader gets exactly that process. */
  lemma HeldOwnerExact(actions: seq<Action>, i: nat)
    requires var s := Run(actions);
             i < |s.daemons| && HoldsLease(s.daemons[i].phase) && !s.daemons[i].phase.Locked?
             && (s.daemons[i].phase.Writing? ==> s.daemons[i].phase.count == |LeaseText(s.daemons[i])|)
    ensures var s := Run(actions);
            && s.daemons[i].registry in s.files
            && ParseOwner(s.files[s.daemons[i].registry]) == Parsed(OwnerOf(s.daemons[i]))
  {
    RunKeeps(actions);
    var d := Run(actions).daemons[i];
    assert Written(Run(actions), d);
    assert LeaseText(d)[..|LeaseText(d)|] == LeaseText(d);
    OwnerRoundTrip(d.pid, Resource(d.port), d.executable, d.identity);
  }

  // ---------- when the report is true ----------

  /** A process that the owner text names holds the lease of the registry. */
  ghost predicate NamedHolds(s: State, r: nat, owner: Owner) {
    exists i :: 0 <= i < |s.daemons| && NamesHolder(s.daemons[i], r, owner)
  }

  predicate NamesHolder(d: Daemon, r: nat, owner: Owner) {
    d.registry == r && HoldsLease(d.phase) && d.identity.Some? && owner.instance == Some(d.identity.value.instance)
  }

  /** The lock is held by a process that is past truncating the previous text. */
  ghost predicate HeldByWriter(s: State, r: nat) {
    r in s.leases && s.leases[r].ByDaemon? && s.leases[r].daemon < |s.daemons| && !s.daemons[s.leases[r].daemon].phase.Locked?
  }

  lemma WriterIsNamed(s: State, r: nat, owner: Owner)
    requires Inv(s) && r in s.files && ParseOwner(s.files[r]) == Parsed(owner) && owner.token.Some? && HeldByWriter(s, r)
    ensures NamedHolds(s, r, owner)
  {
    var i := s.leases[r].daemon;
    assert Written(s, s.daemons[i]);
    assert s.files[r] <= LeaseText(s.daemons[i]);
    Named(s, s.files[r], owner, i);
    assert NamesHolder(s.daemons[i], r, owner);
  }

  lemma NamedIsWriter(s: State, r: nat, owner: Owner)
    requires Inv(s) && r in s.files && ParseOwner(s.files[r]) == Parsed(owner) && owner.token.Some? && NamedHolds(s, r, owner)
    ensures HeldByWriter(s, r)
  {
    var i :| 0 <= i < |s.daemons| && NamesHolder(s.daemons[i], r, owner);
    var j := Author(s, r, owner);
    Named(s, s.files[r], owner, j);
    OneInstance(s, i, j);
    assert s.leases[r] == ByDaemon(i);
  }

  /** In every run, a lease text that names a token reports a process that holds the lease if
      and only if the lock is held by a process that has truncated the previous text: not by
      a probe, not by a process still about to write, and not by nobody. */
  lemma ReportTrueIff(actions: seq<Action>, r: nat, owner: Owner)
    requires var s := Run(actions); r in s.files && ParseOwner(s.files[r]) == Parsed(owner) && owner.token.Some?
    ensures NamedHolds(Run(actions), r, owner) <==> HeldByWriter(Run(actions), r)
  {
    RunKeeps(actions);
    var s := Run(actions);
    if HeldByWriter(s, r) {
      WriterIsNamed(s, r, owner);
    }
    if NamedHolds(s, r, owner) {
      NamedIsWriter(s, r, owner);
    }
  }

  // ---------- three stale reads ----------

  ghost predicate Reachable(s: State) {
    exists actions :: Run(actions) == s
  }

  lemma Reach(s: State, a: Action, t: State)
    requires Reachable(s) && Next(s, a) == t
    ensures Reachable(t)
  {
    var before :| Run(before) == s;
    assert (before + [a])[..|before|] == before;
    assert Run(before + [a]) == Next(s, a);
  }

  /** One process in a given phase, some connectors, and what the registry holds. */
  function World(d: Daemon, p: Phase, cs: seq<Connector>, lease: map<nat, Holder>, file: string): State {
    State([d.(phase := p)], cs, lease, map[d.registry := file],
          if Bound(p) then map[d.port := 0] else map[], [], {})
  }

  lemma Boot1(d: Daemon)
    requires Startable(Initial(), d)
    ensures Reachable(World(d, Locked, [], map[d.registry := ByDaemon(0)], ""))
  {
    assert Run([]) == Initial();
    var s := State([d], [], map[], map[], map[], [], {});
    Reach(Initial(), Launch(d), s);
    var t := World(d, Locked, [], map[d.registry := ByDaemon(0)], "");
    assert DaemonStep(s, 0, TryLease) == t;
    Reach(s, OfDaemon(0, TryLease), t);
  }

  lemma Boot2(d: Daemon)
    requires Startable(Initial(), d)
    ensures Reachable(World(d, Writing(0), [], map[d.registry := ByDaemon(0)], ""))
  {
    Boot1(d);
    var lease := map[d.registry := ByDaemon(0)];
    var s, t := World(d, Locked, [], lease, ""), World(d, Writing(0), [], lease, "");
    assert DaemonStep(s, 0, Truncate) == t;
    Reach(s, OfDaemon(0, Truncate), t);
  }

  lemma Boot3(d: Daemon, text: string)
    requires Startable(Initial(), d) && text == LeaseText(d)
    ensures Reachable(World(d, Writing(|text|), [], map[d.registry := ByDaemon(0)], text))
  {
    Boot2(d);
    var lease, n := map[d.registry := ByDaemon(0)], |text|;
    var t, u := World(d, Writing(0), [], lease, ""), World(d, Writing(n), [], lease, text);
    assert LeaseText(d.(phase := Writing(0))) == text && text[..n] == text;
    assert DaemonStep(t, 0, Write(n)) == u;
    Reach(t, OfDaemon(0, Write(n)), u);
  }

  /** A started process ends up listening, holding its lease, with its whole text written. */
  lemma BootServes(d: Daemon)
    requires Startable(Initial(), d)
    ensures Reachable(World(d, Serving, [], map[d.registry := ByDaemon(0)], LeaseText(d)))
  {
    Boot3(d, LeaseText(d));
    var lease := map[d.registry := ByDaemon(0)];
    var s := World(d, Writing(|LeaseText(d)|), [], lease, LeaseText(d));
    var t := World(d, Serving, [], lease, LeaseText(d));
    assert DaemonStep(s, 0, Bind) == t;
    Reach(s, OfDaemon(0, Bind), t);
  }

  function Arrived(d: Daemon, v: string, pc: Pc, h: Health): Connector {
    Connector(v, d.schema, d.registry, d.port, pc, h)
  }

  lemma HealthRead(s: State, i: nat, d: Daemon, o: Observation, t: State)
    requires i < |s.connectors| && s.connectors[i].pc == First && s.connectors[i].port in s.ports
    requires s.ports[s.connectors[i].port] < |s.daemons| && s.daemons[s.ports[s.connectors[i].port]] == d
    requires HealthOf(d, s.connectors[i]) == Incompatible(o) && Recoverable(s.connectors[i], o)
    requires t == s.(connectors := s.connectors[i := s.connectors[i].(pc := LeaseProbe(o, Inspect), last := Incompatible(o))])
    ensures Next(s, OfConnector(i, ReadHealth(true))) == t
  {
  }

  lemma Observe(d: Daemon, cs: seq<Connector>, i: nat, v: string, text: string)
    requires i < |cs| && cs[i] == Arrived(d, v, First, Unavailable) && Older(d.version, v)
    requires Reachable(World(d, Serving, cs, map[d.registry := ByDaemon(0)], text))
    ensures var o := ObservationOf(d);
            var cs' := cs[i := Arrived(d, v, LeaseProbe(o, Inspect), Incompatible(o))];
            Reachable(World(d, Serving, cs', map[d.registry := ByDaemon(0)], text))
  {
    var lease, o := map[d.registry := ByDaemon(0)], ObservationOf(d);
    var cs' := cs[i := Arrived(d, v, LeaseProbe(o, Inspect), Incompatible(o))];
    var s, t := World(d, Serving, cs, lease, text), World(d, Serving, cs', lease, text);
    assert d.version != v;
    HealthRead(s, i, d.(phase := Serving), o, t);
    Reach(s, OfConnector(i, ReadHealth(true)), t);
  }

  lemma Join(d: Daemon, cs: seq<Connector>, v: string, text: string)
    requires Reachable(World(d, Serving, cs, map[d.registry := ByDaemon(0)], text))
    ensures Reachable(World(d, Serving, cs + [Arrived(d, v, First, Unavailable)], map[d.registry := ByDaemon(0)], text))
  {
    var lease := map[d.registry := ByDaemon(0)];
    Reach(World(d, Serving, cs, lease, text), Connect(v, d.schema, d.registry, d.port),
          World(d, Serving, cs + [Arrived(d, v, First, Unavailable)], lease, text));
  }

  /** A connector of a newer release arrives, observes the process and is about to inspect the lease. */
  lemma OneMoreObserver(d: Daemon, cs: seq<Connector>, v: string, c: Connector, text: string)
    requires Older(d.version, v) && Reachable(World(d, Serving, cs, map[d.registry := ByDaemon(0)], text))
    requires c == Arrived(d, v, LeaseProbe(ObservationOf(d), Inspect), Incompatible(ObservationOf(d)))
    ensures Reachable(World(d, Serving, cs + [c], map[d.registry := ByDaemon(0)], text))
  {
    var c0 := Arrived(d, v, First, Unavailable);
    Join(d, cs, v, text);
    Observe(d, cs + [c0], |cs|, v, text);
    assert (cs + [c0])[|cs| := c] == cs + [c];
  }

  lemma OneObserver(d: Daemon, v: string, c: Connector)
    requires Startable(Initial(), d) && Older(d.version, v)
    requires c == Arrived(d, v, LeaseProbe(ObservationOf(d), Inspect), Incompatible(ObservationOf(d)))
    ensures Reachable(World(d, Serving, [c], map[d.registry := ByDaemon(0)], LeaseText(d)))
  {
    BootServes(d);
    OneMoreObserver(d, [], v, c, LeaseText(d));
    assert [] + [c] == [c];
  }

  lemma TwoObservers(d: Daemon, v: string, c: Connector)
    requires Startable(Initial(), d) && Older(d.version, v)
    requires c == Arrived(d, v, LeaseProbe(ObservationOf(d), Inspect), Incompatible(ObservationOf(d)))
    ensures Reachable(World(d, Serving, [c, c], map[d.registry := ByDaemon(0)], LeaseText(d)))
  {
    OneObserver(d, v, c);
    OneMoreObserver(d, [c], v, c, LeaseText(d));
    assert [c] + [c] == [c, c];
  }

  lemma DieStep(d: Daemon, cs: seq<Connector>, text: string)
    ensures Next(World(d, Serving, cs, map[d.registry := ByDaemon(0)], text), OfDaemon(0, Die))
         == World(d, Exited, cs, map[], text)
  {
    var s := World(d, Serving, cs, map[d.registry := ByDaemon(0)], text);
    assert s.leases - {d.registry} == map[] && s.ports - {d.port} == map[];
    assert DaemonStep(s, 0, Die) == Terminate(s, 0);
  }

  lemma ProbeStep(s: State, i: nat, t: State)
    requires i < |s.connectors| && s.connectors[i].pc.LeaseProbe? && s.connectors[i].registry in s.files
    requires var c := s.connectors[i];
             t == if c.registry in s.leases then SetPc(s, i, LeaseRead(c.pc.obs, c.pc.use))
                  else SetPc(s, i, ProbeHolds(c.pc.obs, c.pc.use)).(leases := s.leases[c.registry := ByProbe(i)])
    ensures Next(s, OfConnector(i, Probe)) == t
  {
  }

  /** The daemon dies, and the first connector's probe takes the free lock for a moment. */
  lemma ProbeOfTheDead(d: Daemon, c: Connector, text: string)
    requires Reachable(World(d, Serving, [c, c], map[d.registry := ByDaemon(0)], text))
    requires c.pc.LeaseProbe? && c.registry == d.registry
    ensures Reachable(World(d, Exited, [c.(pc := ProbeHolds(c.pc.obs, c.pc.use)), c], map[d.registry := ByProbe(0)], text))
  {
    DieStep(d, [c, c], text);
    var t := World(d, Exited, [c, c], map[], text);
    Reach(World(d, Serving, [c, c], map[d.registry := ByDaemon(0)], text), OfDaemon(0, Die), t);
    var u := World(d, Exited, [c.(pc := ProbeHolds(c.pc.obs, c.pc.use)), c], map[d.registry := ByProbe(0)], text);
    ProbeStep(t, 0, u);
    Reach(t, OfConnector(0, Probe), u);
  }

  lemma ReadStep(s: State, i: nat, owner: Owner)
    requires i < |s.connectors| && s.connectors[i].pc.LeaseRead? && s.connectors[i].registry in s.files
    requires ParseOwner(s.files[s.connectors[i].registry]) == Parsed(owner)
    ensures var c := s.connectors[i];
            Next(s, OfConnector(i, ReadLease)) == SetPc(s, i, AfterLeaseHeld(c, c.pc.obs, c.pc.use, owner))
  {
  }

  lemma OwnAccepted(d: Daemon, c: Connector)
    requires d.identity.Some? && c.port == d.port
    ensures AfterLeaseHeld(c, ObservationOf(d), Inspect, OwnerOf(d))
         == SendToken(ObservationOf(d), OwnerOf(d), d.identity.value.token)
  {
  }

  /** The lease module's documentation says an owner is reported only while the daemon holds
      the lease. Here the daemon has exited and only a probe holds the lock, yet the second
      connector reads the dead daemon's text and is about to send its token. */
  lemma StaleOwnerReported(d: Daemon, v: string, c: Connector)
    requires Startable(Initial(), d) && Older(d.version, v) && d.identity.Some?
    requires c == Arrived(d, v, LeaseProbe(ObservationOf(d), Inspect), Incompatible(ObservationOf(d)))
    ensures Reachable(World(d, Exited, [c.(pc := ProbeHolds(c.pc.obs, Inspect)),
                                        c.(pc := SendToken(c.pc.obs, OwnerOf(d), d.identity.value.token))],
                            map[d.registry := ByProbe(0)], LeaseText(d)))
  {
    TwoObservers(d, v, c);
    ProbeOfTheDead(d, c, LeaseText(d));
    var lease := map[d.registry := ByProbe(0)];
    var holding, reading := c.(pc := ProbeHolds(c.pc.obs, Inspect)), c.(pc := LeaseRead(c.pc.obs, Inspect));
    var s := World(d, Exited, [holding, c], lease, LeaseText(d));
    var t := World(d, Exited, [holding, reading], lease, LeaseText(d));
    ProbeStep(s, 1, t);
    Reach(s, OfConnector(1, Probe), t);
    ReadsOwner(t, 1, d, reading);
    Reach(t, OfConnector(1, ReadLease),
          World(d, Exited, [holding, c.(pc := SendToken(c.pc.obs, OwnerOf(d), d.identity.value.token))], lease, LeaseText(d)));
  }

  /** The second way: the lock was busy when it was tried, and is free when the text is read. */
  lemma StaleAfterRelease(d: Daemon, v: string, c: Connector)
    requires Startable(Initial(), d) && Older(d.version, v) && d.identity.Some?
    requires c == Arrived(d, v, LeaseProbe(ObservationOf(d), Inspect), Incompatible(ObservationOf(d)))
    ensures Reachable(World(d, Exited, [c.(pc := SendToken(c.pc.obs, OwnerOf(d), d.identity.value.token))],
                            map[], LeaseText(d)))
  {
    OneObserver(d, v, c);
    var lease, reading := map[d.registry := ByDaemon(0)], c.(pc := LeaseRead(c.pc.obs, Inspect));
    ProbeStep(World(d, Serving, [c], lease, LeaseText(d)), 0, World(d, Serving, [reading], lease, LeaseText(d)));
    Reach(World(d, Serving, [c], lease, LeaseText(d)), OfConnector(0, Probe), World(d, Serving, [reading], lease, LeaseText(d)));
    DieStep(d, [reading], LeaseText(d));
    var t := World(d, Exited, [reading], map[], LeaseText(d));
    Reach(World(d, Serving, [reading], lease, LeaseText(d)), OfDaemon(0, Die), t);
    ReadsOwner(t, 0, d, reading);
    Reach(t, OfConnector(0, ReadLease),
          World(d, Exited, [c.(pc := SendToken(c.pc.obs, OwnerOf(d), d.identity.value.token))], map[], LeaseText(d)));
  }

  lemma ReadsOwner(s: State, i: nat, d: Daemon, c: Connector)
    requires WellFormed(d.pid, Resource(d.port), d.executable, d.identity) && d.identity.Some?
    requires i < |s.connectors| && s.connectors[i] == c && c.pc == LeaseRead(ObservationOf(d), Inspect)
    requires c.port == d.port && c.registry in s.files && s.files[c.registry] == LeaseText(d)
    ensures Next(s, OfConnector(i, ReadLease))
         == SetPc(s, i, SendToken(ObservationOf(d), OwnerOf(d), d.identity.value.token))
  {
    OwnerRoundTrip(d.pid, Resource(d.port), d.executable, d.identity);
    OwnAccepted(d, c);
    ReadStep(s, i, OwnerOf(d));
  }

  /** A dead process, and a successor that has taken the lock but not written yet. */
  function Succeeded(d: Daemon, e: Daemon, c: Connector): State {
    State([d.(phase := Exited), e.(phase := Locked)], [c], map[d.registry := ByDaemon(1)],
          map[d.registry := LeaseText(d)], map[], [], {})
  }

  lemma SuccessorLocks(d: Daemon, e: Daemon, c: Connector)
    requires e.registry == d.registry && Startable(World(d, Exited, [c], map[], LeaseText(d)), e)
    requires Reachable(World(d, Exited, [c], map[], LeaseText(d)))
    ensures Reachable(Succeeded(d, e, c))
  {
    var s := World(d, Exited, [c], map[], LeaseText(d));
    var t := s.(daemons := s.daemons + [e]);
    Reach(s, Launch(e), t);
    assert DaemonStep(t, 1, TryLease) == Succeeded(d, e, c);
    Reach(t, OfDaemon(1, TryLease), Succeeded(d, e, c));
  }

  /** The third way: the lock is held by the next process, which has not written yet. */
  lemma StaleUnderSuccessor(d: Daemon, e: Daemon, v: string, c: Connector)
    requires Startable(Initial(), d) && Older(d.version, v) && d.identity.Some?
    requires c == Arrived(d, v, LeaseProbe(ObservationOf(d), Inspect), Incompatible(ObservationOf(d)))
    requires e.registry == d.registry && Startable(World(d, Exited, [c], map[], LeaseText(d)), e)
    ensures Reachable(Succeeded(d, e, c.(pc := SendToken(c.pc.obs, OwnerOf(d), d.identity.value.token))))
  {
    OneObserver(d, v, c);
    DieStep(d, [c], LeaseText(d));
    Reach(World(d, Serving, [c], map[d.registry := ByDaemon(0)], LeaseText(d)), OfDaemon(0, Die),
          World(d, Exited, [c], map[], LeaseText(d)));
    SuccessorLocks(d, e, c);
    var reading := c.(pc := LeaseRead(c.pc.obs, Inspect));
    ProbeStep(Succeeded(d, e, c), 0, Succeeded(d, e, reading));
    Reach(Succeeded(d, e, c), OfConnector(0, Probe), Succeeded(d, e, reading));
    ReadsOwner(Succeeded(d, e, reading), 0, d, reading);
    Reach(Succeeded(d, e, reading), OfConnector(0, ReadLease),
          Succeeded(d, e, c.(pc := SendToken(c.pc.obs, OwnerOf(d), d.identity.value.token))));
  }
}
