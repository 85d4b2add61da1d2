/** What a connector can get done: start a daemon, or replace an older one. */
module HandoffProgress {
  import opened Text
  import opened Lease
  import opened Handoff
  import opened HandoffProofs
  import opened HandoffReads

  // ---------- schedules ----------

  /** Some list of actions leads from one state to the other. */
  ghost predicate Leads(s: State, t: State) {
    exists more :: After(s, more) == t
  }

  function After(s: State, more: seq<Action>): State
    decreases |more|
  {
    if more == [] then s else After(Next(s, more[0]), more[1..])
  }

  lemma {:induction false} AfterConcat(s: State, a: seq<Action>, b: seq<Action>)
    ensures After(s, a + b) == After(After(s, a), b)
    decreases |a|
  {
    if a == [] {
      assert a + b == b;
    } else {
      assert (a + b)[0] == a[0] && (a + b)[1..] == a[1..] + b;
      AfterConcat(Next(s, a[0]), a[1..], b);
    }
  }

  lemma One(s: State, a: Action, t: State)
    requires Next(s, a) == t
    ensures Leads(s, t)
  {
    assert [a][1..] == [];
    assert After(s, [a]) == After(t, []);
  }

  lemma Then(s: State, t: State, u: State)
    requires Leads(s, t) && Leads(t, u)
    ensures Leads(s, u)
  {
    var a :| After(s, a) == t;
    var b :| After(t, b) == u;
    AfterConcat(s, a, b);
    assert After(s, a + b) == u;
  }

  /** Whatever leads on from the end of a run ends a longer run. */
  lemma {:induction false} RunOn(actions: seq<Action>, more: seq<Action>)
    ensures Run(actions + more) == After(Run(actions), more)
    decreases |more|
  {
    if more == [] {
      assert actions + more == actions;
    } else {
      assert (actions + [more[0]])[..|actions|] == actions;
      assert actions + more == (actions + [more[0]]) + more[1..];
      RunOn(actions + [more[0]], more[1..]);
    }
  }

  // ---------- a new process ----------

  /** A state with one more process in the given phase, and connector i changed. */
  function Grown(s: State, i: nat, c: Connector, d: Daemon, p: Phase,
                 leases: map<nat, Holder>, files: map<nat, string>, ports: map<nat, nat>): State
    requires i < |s.connectors|
  {
    s.(daemons := s.daemons + [d.(phase := p)], connectors := s.connectors[i := c],
       leases := leases, files := files, ports := ports)
  }

  lemma Appended<T>(xs: seq<T>, x: T, y: T)
    ensures (xs + [x])[|xs| := y] == xs + [y]
  {
  }

  /** The daemon the connector starts. */
  predicate Own(c: Connector, d: Daemon) {
    && d.version == c.version && d.schema == c.schema && d.registry == c.registry && d.port == c.port
    && d.identity.Some? && d.phase.Launched?
  }

  lemma SpawnStep(s: State, i: nat, d: Daemon)
    requires i < |s.connectors| && s.connectors[i].pc.Spawning? && Own(s.connectors[i], d) && Startable(s, d)
    ensures Next(s, OfConnector(i, Spawn(d.pid, d.executable, d.identity.value)))
         == Grown(s, i, s.connectors[i].(pc := Polling), d, Launched, s.leases, s.files, s.ports)
  {
  }

  lemma LockStep(s: State, i: nat, c: Connector, d: Daemon)
    requires i < |s.connectors| && d.registry !in s.leases
    ensures Next(Grown(s, i, c, d, Launched, s.leases, s.files, s.ports), OfDaemon(|s.daemons|, TryLease))
         == Grown(s, i, c, d, Locked, s.leases[d.registry := ByDaemon(|s.daemons|)],
                  if d.registry in s.files then s.files else s.files[d.registry := ""], s.ports)
  {
    Appended(s.daemons, d.(phase := Launched), d.(phase := Locked));
  }

  lemma TruncateStep(s: State, i: nat, c: Connector, d: Daemon, leases: map<nat, Holder>, files: map<nat, string>)
    requires i < |s.connectors|
    ensures Next(Grown(s, i, c, d, Locked, leases, files, s.ports), OfDaemon(|s.daemons|, Truncate))
         == Grown(s, i, c, d, Writing(0), leases, files[d.registry := ""], s.ports)
  {
    Appended(s.daemons, d.(phase := Locked), d.(phase := Writing(0)));
  }

  lemma WriteStep(s: State, i: nat, c: Connector, d: Daemon, leases: map<nat, Holder>, files: map<nat, string>, text: string)
    requires i < |s.connectors| && text == LeaseText(d)
    ensures Next(Grown(s, i, c, d, Writing(0), leases, files, s.ports), OfDaemon(|s.daemons|, Write(|text|)))
         == Grown(s, i, c, d, Writing(|text|), leases, files[d.registry := text], s.ports)
  {
    assert LeaseText(d.(phase := Writing(0))) == text && text[..|text|] == text;
    Appended(s.daemons, d.(phase := Writing(0)), d.(phase := Writing(|text|)));
  }

  lemma BindStep(s: State, i: nat, c: Connector, d: Daemon, leases: map<nat, Holder>, files: map<nat, string>, text: string)
    requires i < |s.connectors| && text == LeaseText(d) && d.port !in s.ports
    ensures Next(Grown(s, i, c, d, Writing(|text|), leases, files, s.ports), OfDaemon(|s.daemons|, Bind))
         == Grown(s, i, c, d, Serving, leases, files, s.ports[d.port := |s.daemons|])
  {
    assert LeaseText(d.(phase := Writing(|text|))) == text;
    Appended(s.daemons, d.(phase := Writing(|text|)), d.(phase := Serving));
  }

  lemma FoundStep(s: State, i: nat, c: Connector, d: Daemon, leases: map<nat, Holder>, files: map<nat, string>, ports: map<nat, nat>)
    requires i < |s.connectors| && c.pc.Polling? && Own(c, d) && d.port in ports && ports[d.port] == |s.daemons|
    ensures Next(Grown(s, i, c, d, Serving, leases, files, ports), OfConnector(i, ReadHealth(true)))
         == Grown(s, i, c.(pc := Done, last := Compatible), d, Serving, leases, files, ports)
  {
    var t := Grown(s, i, c, d, Serving, leases, files, ports);
    assert t.daemons[|s.daemons|] == d.(phase := Serving) && t.connectors[i] == c;
  }

  /** The state when the new process serves and the connector is satisfied. */
  function Started(s: State, i: nat, d: Daemon, text: string): State
    requires i < |s.connectors|
  {
    Grown(s, i, s.connectors[i].(pc := Done, last := Compatible), d, Serving,
          s.leases[d.registry := ByDaemon(|s.daemons|)], s.files[d.registry := text], s.ports[d.port := |s.daemons|])
  }

  lemma Locking(s: State, i: nat, c: Connector, d: Daemon, empty: map<nat, string>)
    requires i < |s.connectors| && d.registry !in s.leases && empty == s.files[d.registry := ""]
    ensures Leads(Grown(s, i, c, d, Launched, s.leases, s.files, s.ports),
                  Grown(s, i, c, d, Writing(0), s.leases[d.registry := ByDaemon(|s.daemons|)], empty, s.ports))
  {
    var n, leases := |s.daemons|, s.leases[d.registry := ByDaemon(|s.daemons|)];
    var files: map<nat, string> := if d.registry in s.files then s.files else s.files[d.registry := ""];
    var a := Grown(s, i, c, d, Launched, s.leases, s.files, s.ports);
    var b := Grown(s, i, c, d, Locked, leases, files, s.ports);
    var e := Grown(s, i, c, d, Writing(0), leases, empty, s.ports);
    LockStep(s, i, c, d);
    One(a, OfDaemon(n, TryLease), b);
    TruncateStep(s, i, c, d, leases, files);
    assert files[d.registry := ""] == empty;
    One(b, OfDaemon(n, Truncate), e);
    Then(a, b, e);
  }

  lemma Booting(s: State, i: nat, c: Connector, d: Daemon, text: string)
    requires i < |s.connectors| && d.registry !in s.leases && d.port !in s.ports && text == LeaseText(d)
    ensures Leads(Grown(s, i, c, d, Launched, s.leases, s.files, s.ports),
                  Grown(s, i, c, d, Serving, s.leases[d.registry := ByDaemon(|s.daemons|)], s.files[d.registry := text],
                        s.ports[d.port := |s.daemons|]))
  {
    var n, leases := |s.daemons|, s.leases[d.registry := ByDaemon(|s.daemons|)];
    var empty: map<nat, string> := s.files[d.registry := ""];
    var a := Grown(s, i, c, d, Launched, s.leases, s.files, s.ports);
    var e := Grown(s, i, c, d, Writing(0), leases, empty, s.ports);
    var f := Grown(s, i, c, d, Writing(|text|), leases, s.files[d.registry := text], s.ports);
    var g := Grown(s, i, c, d, Serving, leases, s.files[d.registry := text], s.ports[d.port := n]);
    Locking(s, i, c, d, empty);
    WriteStep(s, i, c, d, leases, empty, text);
    assert empty[d.registry := text] == s.files[d.registry := text];
    One(e, OfDaemon(n, Write(|text|)), f);
    Then(a, e, f);
    BindStep(s, i, c, d, leases, s.files[d.registry := text], text);
    One(f, OfDaemon(n, Bind), g);
    Then(a, f, g);
  }

  /** A connector about to spawn, with its registry and port free, ends up with its own daemon. */
  lemma SpawnLeads(s: State, i: nat, d: Daemon)
    requires i < |s.connectors| && s.connectors[i].pc.Spawning? && Own(s.connectors[i], d) && Startable(s, d)
    requires d.registry !in s.leases && d.port !in s.ports
    ensures Leads(s, Started(s, i, d, LeaseText(d)))
  {
    var c, text := s.connectors[i].(pc := Polling), LeaseText(d);
    var a := Grown(s, i, c, d, Launched, s.leases, s.files, s.ports);
    var leases, files, ports := s.leases[d.registry := ByDaemon(|s.daemons|)], s.files[d.registry := text], s.ports[d.port := |s.daemons|];
    var b := Grown(s, i, c, d, Serving, leases, files, ports);
    SpawnStep(s, i, d);
    One(s, OfConnector(i, Spawn(d.pid, d.executable, d.identity.value)), a);
    Booting(s, i, c, d, text);
    Then(s, a, b);
    FoundStep(s, i, c, d, leases, files, ports);
    One(b, OfConnector(i, ReadHealth(true)), Started(s, i, d, text));
    Then(s, b, Started(s, i, d, text));
  }

  /** What a satisfied connector has: the last health read found its own release serving. */
  ghost predicate Satisfied(t: State, i: nat, n: nat, c: Connector) {
    && i < |t.connectors| && t.connectors[i] == c.(pc := Done, last := Compatible)
    && n < |t.daemons| && t.daemons[n].phase.Serving? && t.daemons[n].version == c.version
    && t.daemons[n].registry == c.registry && c.port in t.ports && t.ports[c.port] == n
    && c.registry in t.leases && t.leases[c.registry] == ByDaemon(n)
  }

  lemma StartedSatisfies(s: State, i: nat, d: Daemon, text: string)
    requires i < |s.connectors| && Own(s.connectors[i], d)
    ensures Satisfied(Started(s, i, d, text), i, |s.daemons|, s.connectors[i])
    ensures forall k :: 0 <= k < |s.daemons| ==> Started(s, i, d, text).daemons[k] == s.daemons[k]
  {
  }

  lemma UnavailableStep(s: State, i: nat)
    requires i < |s.connectors| && s.connectors[i].pc.First? && s.connectors[i].port !in s.ports
    ensures Next(s, OfConnector(i, ReadHealth(true)))
         == s.(connectors := s.connectors[i := s.connectors[i].(pc := Spawning, last := Unavailable)])
  {
  }

  /** From every state where a connector arrives and nothing listens on its port or holds or
      probes its lease, the connector can start a daemon of its own release and be satisfied.
      Fresh identities for that daemon are taken as given. */
  lemma ArrivalSucceeds(s: State, i: nat, d: Daemon)
    requires i < |s.connectors| && s.connectors[i].pc.First? && Own(s.connectors[i], d) && Startable(s, d)
    requires s.connectors[i].port !in s.ports && s.connectors[i].registry !in s.leases
    ensures exists t :: Leads(s, t) && Satisfied(t, i, |s.daemons|, s.connectors[i].(last := Unavailable))
  {
    var c := s.connectors[i].(pc := Spawning, last := Unavailable);
    var u := s.(connectors := s.connectors[i := c]);
    UnavailableStep(s, i);
    One(s, OfConnector(i, ReadHealth(true)), u);
    SpawnLeads(u, i, d);
    StartedSatisfies(u, i, d, LeaseText(d));
    Then(s, u, Started(u, i, d, LeaseText(d)));
  }

  // ---------- replacing an older process ----------

  /** Connector i with another program counter. */
  function At(s: State, i: nat, pc: Pc, last: Health): State
    requires i < |s.connectors|
  {
    s.(connectors := s.connectors[i := s.connectors[i].(pc := pc, last := last)])
  }

  /** An older process with a token, of the connector's registry, listens on the connector's port. */
  ghost predicate Meets(s: State, i: nat, k: nat) {
    && i < |s.connectors| && k < |s.daemons|
    && s.connectors[i].port in s.ports && s.ports[s.connectors[i].port] == k
    && s.daemons[k].registry == s.connectors[i].registry && s.daemons[k].identity.Some?
    && Older(s.daemons[k].version, s.connectors[i].version)
  }

  /** What the invariant says of such a process. */
  lemma Met(s: State, i: nat, k: nat)
    requires Inv(s) && Meets(s, i, k)
    ensures var c, d := s.connectors[i], s.daemons[k];
            && d.port == c.port && Bound(d.phase) && c.registry in s.leases && s.leases[c.registry] == ByDaemon(k)
            && c.registry in s.files && s.files[c.registry] == LeaseText(d)
            && WellFormed(d.pid, Resource(d.port), d.executable, d.identity)
  {
    assert Written(s, s.daemons[k]);
  }

  lemma ToProbe(s: State, i: nat, k: nat, o: Observation)
    requires Meets(s, i, k) && s.connectors[i].pc.First? && o == ObservationOf(s.daemons[k])
    ensures Leads(s, At(s, i, LeaseProbe(o, Inspect), Incompatible(o)))
  {
    var t := At(s, i, LeaseProbe(o, Inspect), Incompatible(o));
    assert s.daemons[k].version != s.connectors[i].version;
    HealthRead(s, i, s.daemons[k], o, t);
    One(s, OfConnector(i, ReadHealth(true)), t);
  }

  lemma AtAt(s: State, i: nat, pc: Pc, last: Health, pc': Pc)
    requires i < |s.connectors|
    ensures SetPc(At(s, i, pc, last), i, pc') == At(s, i, pc', last)
  {
  }

  lemma ToRead(s: State, i: nat, o: Observation, h: Health)
    requires i < |s.connectors| && s.connectors[i].registry in s.files && s.connectors[i].registry in s.leases
    ensures Leads(At(s, i, LeaseProbe(o, Inspect), h), At(s, i, LeaseRead(o, Inspect), h))
  {
    var a, b := At(s, i, LeaseProbe(o, Inspect), h), At(s, i, LeaseRead(o, Inspect), h);
    AtAt(s, i, LeaseProbe(o, Inspect), h, LeaseRead(o, Inspect));
    ProbeStep(a, i, b);
    One(a, OfConnector(i, Probe), b);
  }

  lemma ToSend(s: State, i: nat, d: Daemon, h: Health)
    requires i < |s.connectors| && d.identity.Some? && WellFormed(d.pid, Resource(d.port), d.executable, d.identity)
    requires s.connectors[i].port == d.port && s.connectors[i].registry in s.files && s.files[s.connectors[i].registry] == LeaseText(d)
    ensures Leads(At(s, i, LeaseRead(ObservationOf(d), Inspect), h),
                  At(s, i, SendToken(ObservationOf(d), OwnerOf(d), d.identity.value.token), h))
  {
    var o, pc := ObservationOf(d), SendToken(ObservationOf(d), OwnerOf(d), d.identity.value.token);
    var a := At(s, i, LeaseRead(o, Inspect), h);
    ReadsOwner(a, i, d, a.connectors[i]);
    AtAt(s, i, LeaseRead(o, Inspect), h, pc);
    One(a, OfConnector(i, ReadLease), At(s, i, pc, h));
  }

  /** The token was sent to process k, accepted, and the reply arrived. */
  function Agreed(s: State, i: nat, k: nat, token: string, pc: Pc, h: Health): State
    requires i < |s.connectors|
  {
    At(s, i, pc, h).(messages := s.messages + [Message(i, k, token)], handoffs := s.handoffs + {(i, k)})
  }

  lemma SendTo(s: State, i: nat, k: nat, o: Observation, w: Owner, token: string, h: Health)
    requires i < |s.connectors| && s.connectors[i].port in s.ports && s.ports[s.connectors[i].port] == k
    ensures Next(At(s, i, SendToken(o, w, token), h), OfConnector(i, Send))
         == At(s, i, AwaitReply(o, w, token, k), h).(messages := s.messages + [Message(i, k, token)])
  {
    AtAt(s, i, SendToken(o, w, token), h, AwaitReply(o, w, token, k));
  }

  lemma AcceptBy(s: State, i: nat, k: nat, token: string, pc: Pc, h: Health)
    requires i < |s.connectors| && k < |s.daemons| && HoldsLease(s.daemons[k].phase)
    requires s.daemons[k].identity.Some? && s.daemons[k].identity.value.token == token
    ensures Next(At(s, i, pc, h).(messages := s.messages + [Message(i, k, token)]), Accept(|s.messages|))
         == Agreed(s, i, k, token, pc, h)
  {
  }

  lemma ReplyTo(s: State, i: nat, k: nat, o: Observation, w: Owner, token: string, h: Health)
    requires i < |s.connectors|
    ensures Next(Agreed(s, i, k, token, AwaitReply(o, w, token, k), h), OfConnector(i, Reply(true)))
         == Agreed(s, i, k, token, Waiting(o, w), h)
  {
    AtAt(s, i, AwaitReply(o, w, token, k), h, Waiting(o, w));
  }

  lemma ToAgreement(s: State, i: nat, k: nat, o: Observation, w: Owner, token: string, h: Health)
    requires i < |s.connectors| && s.connectors[i].port in s.ports && s.ports[s.connectors[i].port] == k
    requires k < |s.daemons| && HoldsLease(s.daemons[k].phase)
    requires s.daemons[k].identity.Some? && s.daemons[k].identity.value.token == token
    ensures Leads(At(s, i, SendToken(o, w, token), h), Agreed(s, i, k, token, Waiting(o, w), h))
  {
    var pc := AwaitReply(o, w, token, k);
    var a, b := At(s, i, SendToken(o, w, token), h), At(s, i, pc, h).(messages := s.messages + [Message(i, k, token)]);
    SendTo(s, i, k, o, w, token, h);
    One(a, OfConnector(i, Send), b);
    AcceptBy(s, i, k, token, pc, h);
    One(b, Accept(|s.messages|), Agreed(s, i, k, token, pc, h));
    Then(a, b, Agreed(s, i, k, token, pc, h));
    ReplyTo(s, i, k, o, w, token, h);
    One(Agreed(s, i, k, token, pc, h), OfConnector(i, Reply(true)), Agreed(s, i, k, token, Waiting(o, w), h));
    Then(a, Agreed(s, i, k, token, pc, h), Agreed(s, i, k, token, Waiting(o, w), h));
  }

  /** Process k has stopped listening and given its lease back. */
  function Gone(s: State, k: nat): State
    requires k < |s.daemons|
  {
    s.(daemons := s.daemons[k := s.daemons[k].(phase := Exited)],
       ports := s.ports - {s.daemons[k].port}, leases := s.leases - {s.daemons[k].registry})
  }

  lemma PhasePhase(s: State, k: nat, p: Phase, q: Phase)
    requires k < |s.daemons|
    ensures SetPhase(SetPhase(s, k, p), k, q) == SetPhase(s, k, q)
  {
  }

  lemma FromNotified(s: State, k: nat, t: State)
    requires k < |s.daemons| && s.daemons[k].phase.Notified? && t == Gone(s, k)
    ensures Leads(s, t)
  {
    var u := SetPhase(s, k, Unbound).(ports := s.ports - {s.daemons[k].port});
    assert DaemonStep(s, k, CloseListener) == u;
    One(s, OfDaemon(k, CloseListener), u);
    PhasePhase(s, k, Unbound, Exited);
    assert DaemonStep(u, k, ReleaseLease) == Terminate(u, k);
    One(u, OfDaemon(k, ReleaseLease), t);
    Then(s, u, t);
  }

  lemma ToGone(s: State, k: nat)
    requires k < |s.daemons| && Bound(s.daemons[k].phase)
    ensures Leads(s, Gone(s, k))
  {
    if s.daemons[k].phase.Notified? {
      FromNotified(s, k, Gone(s, k));
    } else {
      var u := SetPhase(s, k, Notified);
      assert DaemonStep(s, k, Notify) == u;
      One(s, OfDaemon(k, Notify), u);
      PhasePhase(s, k, Notified, Exited);
      FromNotified(u, k, Gone(s, k));
      Then(s, u, Gone(s, k));
    }
  }

  /** The waiting connector finds nobody listening and the lease free, and spawns. */
  lemma ToSpawning(s: State, i: nat, o: Observation, w: Owner)
    requires i < |s.connectors| && s.connectors[i].pc == Waiting(o, w)
    requires s.connectors[i].port !in s.ports && s.connectors[i].registry !in s.leases && s.connectors[i].registry in s.files
    ensures Leads(s, At(s, i, Spawning, Unavailable))
  {
    var r := s.connectors[i].registry;
    var a := At(s, i, LeaseProbe(o, WaitGone(w)), Unavailable);
    var b := At(s, i, ProbeHolds(o, WaitGone(w)), Unavailable).(leases := s.leases[r := ByProbe(i)]);
    assert ConnectorStep(s, i, ReadHealth(true)) == a;
    One(s, OfConnector(i, ReadHealth(true)), a);
    AtAt(s, i, LeaseProbe(o, WaitGone(w)), Unavailable, ProbeHolds(o, WaitGone(w)));
    ProbeStep(a, i, b);
    One(a, OfConnector(i, Probe), b);
    Then(s, a, b);
    Unlocks(s, i, o, w);
    One(b, OfConnector(i, ProbeUnlock), At(s, i, Spawning, Unavailable));
    Then(s, b, At(s, i, Spawning, Unavailable));
  }

  lemma Unlocks(s: State, i: nat, o: Observation, w: Owner)
    requires i < |s.connectors| && s.connectors[i].registry !in s.leases
    ensures Next(At(s, i, ProbeHolds(o, WaitGone(w)), Unavailable).(leases := s.leases[s.connectors[i].registry := ByProbe(i)]),
                 OfConnector(i, ProbeUnlock))
         == At(s, i, Spawning, Unavailable)
  {
    var r := s.connectors[i].registry;
    assert s.leases[r := ByProbe(i)] - {r} == s.leases;
    AtAt(s, i, ProbeHolds(o, WaitGone(w)), Unavailable, Spawning);
  }

  lemma StillStartable(s: State, t: State, d: Daemon)
    requires Startable(s, d) && |t.daemons| == |s.daemons|
    requires forall k :: 0 <= k < |s.daemons| ==> t.daemons[k].identity == s.daemons[k].identity
    ensures Startable(t, d)
  {
    if d.identity.Some? {
      forall k | 0 <= k < |t.daemons| ensures !UsesIdentity(t.daemons[k], d.identity.value) {
        assert !UsesIdentity(s.daemons[k], d.identity.value);
      }
    }
  }

  /** The state in which the older process is gone and the connector is about to spawn. */
  function Vacated(s: State, i: nat, k: nat, token: string): State
    requires i < |s.connectors| && k < |s.daemons|
  {
    At(Gone(Agreed(s, i, k, token, Spawning, Unavailable), k), i, Spawning, Unavailable)
  }

  lemma ToVacated(s: State, i: nat, k: nat)
    requires Inv(s) && Meets(s, i, k) && s.connectors[i].pc.First?
    ensures Leads(s, Vacated(s, i, k, s.daemons[k].identity.value.token))
  {
    Met(s, i, k);
    var d := s.daemons[k];
    var o, w, token := ObservationOf(d), OwnerOf(d), d.identity.value.token;
    var h := Incompatible(o);
    ToProbe(s, i, k, o);
    ToRead(s, i, o, h);
    Then(s, At(s, i, LeaseProbe(o, Inspect), h), At(s, i, LeaseRead(o, Inspect), h));
    ToSend(s, i, d, h);
    Then(s, At(s, i, LeaseRead(o, Inspect), h), At(s, i, SendToken(o, w, token), h));
    ToAgreement(s, i, k, o, w, token, h);
    Then(s, At(s, i, SendToken(o, w, token), h), Agreed(s, i, k, token, Waiting(o, w), h));
    FromAgreement(s, i, k, o, w, token, h);
    Then(s, Agreed(s, i, k, token, Waiting(o, w), h), Vacated(s, i, k, token));
  }

  lemma FromAgreement(s: State, i: nat, k: nat, o: Observation, w: Owner, token: string, h: Health)
    requires i < |s.connectors| && k < |s.daemons| && Bound(s.daemons[k].phase)
    requires s.daemons[k].port == s.connectors[i].port && s.daemons[k].registry == s.connectors[i].registry
    requires s.connectors[i].registry in s.files
    ensures Leads(Agreed(s, i, k, token, Waiting(o, w), h), Vacated(s, i, k, token))
  {
    var a := Agreed(s, i, k, token, Waiting(o, w), h);
    ToGone(a, k);
    ToSpawning(Gone(a, k), i, o, w);
    assert At(Gone(a, k), i, Spawning, Unavailable) == Vacated(s, i, k, token);
    Then(a, Gone(a, k), Vacated(s, i, k, token));
  }

  lemma VacatedReady(s: State, i: nat, k: nat, token: string, d: Daemon)
    requires i < |s.connectors| && k < |s.daemons| && Own(s.connectors[i], d) && Startable(s, d)
    requires s.daemons[k].port == s.connectors[i].port && s.daemons[k].registry == s.connectors[i].registry
    ensures var v := Vacated(s, i, k, token);
            && |v.daemons| == |s.daemons| && v.daemons[k].phase.Exited?
            && i < |v.connectors| && v.connectors[i] == s.connectors[i].(pc := Spawning, last := Unavailable)
            && Startable(v, d) && d.registry !in v.leases && d.port !in v.ports
  {
    StillStartable(s, Vacated(s, i, k, token), d);
  }

  lemma FromVacated(s: State, v: State, i: nat, k: nat, d: Daemon)
    requires Leads(s, v) && |v.daemons| == |s.daemons| && k < |s.daemons| && v.daemons[k].phase.Exited?
    requires i < |v.connectors| && v.connectors[i].pc.Spawning? && Own(v.connectors[i], d)
    requires Startable(v, d) && d.registry !in v.leases && d.port !in v.ports
    ensures exists t :: Leads(s, t) && Satisfied(t, i, |s.daemons|, v.connectors[i]) && t.daemons[k].phase.Exited?
  {
    SpawnLeads(v, i, d);
    StartedSatisfies(v, i, d, LeaseText(d));
    Then(s, v, Started(v, i, d, LeaseText(d)));
  }

  /** In every run: a connector that arrives at an older, token-bearing daemon of its registry
      can hand it off and replace it. The older daemon has exited, and a daemon of the
      connector's own release serves and satisfied it. */
  lemma TakeoverSucceeds(actions: seq<Action>, i: nat, k: nat, d: Daemon)
    requires Meets(Run(actions), i, k) && Run(actions).connectors[i].pc.First?
    requires Own(Run(actions).connectors[i], d) && Startable(Run(actions), d)
    ensures var s := Run(actions);
            exists t :: Leads(s, t) && Satisfied(t, i, |s.daemons|, s.connectors[i].(pc := Spawning, last := Unavailable))
                        && t.daemons[k].phase.Exited?
  {
    RunKeeps(actions);
    var s := Run(actions);
    var token := s.daemons[k].identity.value.token;
    Met(s, i, k);
    ToVacated(s, i, k);
    VacatedReady(s, i, k, token, d);
    FromVacated(s, Vacated(s, i, k, token), i, k, d);
  }

  // ---------- decisions ----------

  /** What an arriving connector does with what it finds: it is satisfied by its own release,
      starts a daemon where none answers, recovers a healthy, older one of its registry, and
      gives up on any other. */
  lemma ArrivalDecides(c: Connector, h: Health)
    requires c.pc.First?
    ensures AfterHealth(c, h).Done? <==> h.Compatible?
    ensures AfterHealth(c, h).Spawning? <==> h.Unavailable?
    ensures AfterHealth(c, h).LeaseProbe? <==>
              h.Incompatible? && h.observation.healthy && h.observation.registry == c.registry && Older(h.observation.version, c.version)
    ensures AfterHealth(c, h).Failed? <==> h.Incompatible? && !AfterHealth(c, h).LeaseProbe?
  {
  }

  /** A token is sent exactly to a daemon that supports handoff and whose lease names the port,
      the executable, the pid and the instance that were observed. */
  lemma SendsIff(c: Connector, o: Observation, w: Owner)
    ensures AfterOwner(c, o, w).SendToken? <==>
              && w.resource == Resource(c.port) && o.executable == Some(w.executable)
              && (o.pid.Some? ==> o.pid.value == w.pid) && o.instance == w.instance
              && o.handoffSupported && w.token.Some?
    ensures AfterOwner(c, o, w).SendToken? ==> AfterOwner(c, o, w) == SendToken(o, w, w.token.value)
  {
  }

  /** What a polling, waiting or rechecking connector does with each health reading. */
  lemma HealthDecides(c: Connector, h: Health)
    requires ReadsHealth(c.pc) && !c.pc.First?
    ensures AfterHealth(c, h).Done? <==> h.Compatible?
    ensures h.Unavailable? && c.pc.Polling? ==> AfterHealth(c, h) == Polling
    ensures h.Unavailable? && c.pc.Waiting? ==> AfterHealth(c, h) == LeaseProbe(c.pc.obs, WaitGone(c.pc.owner))
    ensures h.Unavailable? && !c.pc.Polling? && !c.pc.Waiting? ==> AfterHealth(c, h) == Spawning
    ensures h.Incompatible? && c.pc.Polling? && AfterHealth(c, h) != Failed ==> AfterHealth(c, h) == LeaseProbe(h.observation, Inspect)
    ensures h.Incompatible? && c.pc.Polling? ==>
              (AfterHealth(c, h).Failed? <==>
                 !h.observation.healthy || h.observation.registry != c.registry || !Older(h.observation.version, c.version))
    ensures h.Incompatible? && c.pc.MissingOwner? ==> AfterHealth(c, h) == Failed
    ensures h.Incompatible? && c.pc.Recheck? ==> AfterHealth(c, h) == if h.observation == c.pc.obs then Waiting(c.pc.obs, c.pc.owner) else Failed
    ensures h.Incompatible? && c.pc.Waiting? ==>
              AfterHealth(c, h) == if h.observation == c.pc.obs then LeaseProbe(c.pc.obs, WaitSame(c.pc.owner)) else Failed
  {
  }

  /** While waiting, another owner than the one handed off is a failure, and so is a missing
      identity where the observed daemon has none to hand off with. */
  lemma LeaseDecides(c: Connector, o: Observation, w: Owner, current: Owner)
    ensures AfterLeaseHeld(c, o, WaitSame(w), current) == if current == w then Waiting(o, w) else Failed
    ensures AfterLeaseHeld(c, o, WaitGone(w), current) == Waiting(o, w)
    ensures AfterLeaseFree(o, WaitSame(w)) == Waiting(o, w) && AfterLeaseFree(o, WaitGone(w)) == Spawning
    ensures AfterLeaseFree(o, Inspect) == MissingOwner(o)
    ensures o.handoffSupported && current.token.None? ==> AfterOwner(c, o, current) == Failed
  {
  }
}
