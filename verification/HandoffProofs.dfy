/** What every run of the ownership and handoff protocol keeps. */
module HandoffProofs {
  import opened Text
  import opened Lease
  import opened Handoff

  // ---------- the invariant ----------

  /** Everything about a daemon except how far it got. */
  function Fixed(d: Daemon): Daemon { d.(phase := Exited) }

  /** Distinct processes have distinct instance ids and distinct tokens. */
  ghost predicate Identities(s: State) {
    && (forall i :: 0 <= i < |s.daemons| ==>
          var d := s.daemons[i];
          && WellFormed(d.pid, Resource(d.port), d.executable, d.identity)
          && (d.identity.Some? ==> |d.identity.value.instance| == ID_LENGTH && |d.identity.value.token| == ID_LENGTH))
    && forall i, j :: 0 <= i < |s.daemons| && 0 <= j < |s.daemons| && i != j && s.daemons[j].identity.Some?
                      ==> !UsesIdentity(s.daemons[i], s.daemons[j].identity.value)
  }

  /** The lock of a registry is held by exactly the process or probe the state says holds it. */
  ghost predicate Leases(s: State) {
    && (forall i :: 0 <= i < |s.daemons| && HoldsLease(s.daemons[i].phase) ==>
          s.daemons[i].registry in s.leases && s.leases[s.daemons[i].registry] == ByDaemon(i))
    && (forall r :: r in s.leases && s.leases[r].ByDaemon? ==>
          var i := s.leases[r].daemon;
          i < |s.daemons| && s.daemons[i].registry == r && HoldsLease(s.daemons[i].phase))
    && (forall i :: 0 <= i < |s.connectors| && s.connectors[i].pc.ProbeHolds? ==>
          s.connectors[i].registry in s.leases && s.leases[s.connectors[i].registry] == ByProbe(i))
    && (forall r :: r in s.leases && s.leases[r].ByProbe? ==>
          var i := s.leases[r].connector;
          i < |s.connectors| && s.connectors[i].registry == r && s.connectors[i].pc.ProbeHolds?)
  }

  ghost predicate Listeners(s: State) {
    && (forall i :: 0 <= i < |s.daemons| && Bound(s.daemons[i].phase) ==>
          s.daemons[i].port in s.ports && s.ports[s.daemons[i].port] == i)
    && (forall p :: p in s.ports ==>
          s.ports[p] < |s.daemons| && s.daemons[s.ports[p]].port == p && Bound(s.daemons[s.ports[p]].phase))
  }

  /** How much of its own text a lease holder has put in the file. */
  ghost predicate Written(s: State, d: Daemon) {
    match d.phase
    case Launched => true
    case Exited => true
    case Locked => d.registry in s.files
    case Writing(n) => n <= |LeaseText(d)| && d.registry in s.files && s.files[d.registry] == LeaseText(d)[..n]
    case _ => d.registry in s.files && s.files[d.registry] == LeaseText(d)
  }

  predicate PastLock(p: Phase) { !p.Launched? && !p.Locked? }

  /** The text may be this process's: only a process past its lock has written any. */
  ghost predicate Wrote(d: Daemon, text: string) { PastLock(d.phase) && text <= LeaseText(d) }

  /** Every lease file is a beginning of some process's text, usually a dead one's. */
  ghost predicate Files(s: State) {
    && (forall i :: 0 <= i < |s.daemons| ==> Written(s, s.daemons[i]))
    && (forall r :: r in s.files && s.files[r] != "" ==>
          exists i :: 0 <= i < |s.daemons| && Wrote(s.daemons[i], s.files[r]))
  }

  /** The observation came from a process of the connector's registry and of an older release. */
  ghost predicate SeenOlder(s: State, c: Connector, o: Observation) {
    exists i :: 0 <= i < |s.daemons| && ObservationOf(s.daemons[i]) == o
                && s.daemons[i].registry == c.registry && Older(s.daemons[i].version, c.version)
  }

  /** The token is a beginning of the token of such a process. */
  ghost predicate TokenOfOlder(s: State, c: Connector, token: string) {
    exists i :: 0 <= i < |s.daemons| && s.daemons[i].identity.Some? && token <= s.daemons[i].identity.value.token
                && s.daemons[i].registry == c.registry && Older(s.daemons[i].version, c.version)
  }

  ghost predicate ConnectorOk(s: State, c: Connector) {
    match c.pc
    case First => true
    case Spawning => true
    case Polling => true
    case Failed => true
    case Done =>
      c.last.Compatible? && exists i :: 0 <= i < |s.daemons| && HealthOf(s.daemons[i], c) == Compatible
    case SendToken(obs, _, token) => SeenOlder(s, c, obs) && TokenOfOlder(s, c, token)
    case AwaitReply(obs, _, token, _) => SeenOlder(s, c, obs) && TokenOfOlder(s, c, token)
    case _ => SeenOlder(s, c, c.pc.obs)
  }

  ghost predicate Connectors(s: State) {
    forall i :: 0 <= i < |s.connectors| ==> ConnectorOk(s, s.connectors[i])
  }

  ghost predicate MessageOk(s: State, m: Message) {
    m.from < |s.connectors| && TokenOfOlder(s, s.connectors[m.from], m.token)
  }

  ghost predicate Messages(s: State) {
    forall m :: 0 <= m < |s.messages| ==> MessageOk(s, s.messages[m])
  }

  /** Every accepted handoff went from a connector to an older daemon of its registry. */
  ghost predicate Handoffs(s: State) {
    forall h :: h in s.handoffs ==> HandoffOk(s, h.0, h.1)
  }

  ghost predicate HandoffOk(s: State, c: nat, d: nat) {
    && c < |s.connectors| && d < |s.daemons|
    && s.daemons[d].registry == s.connectors[c].registry
    && Older(s.daemons[d].version, s.connectors[c].version)
  }

  ghost predicate Inv(s: State) {
    Identities(s) && Leases(s) && Listeners(s) && Files(s) && Connectors(s) && Messages(s) && Handoffs(s)
  }

  // ---------- facts that survive every step ----------

  /** Processes and connectors never disappear and never change their fixed parts. */
  ghost predicate Grows(s: State, t: State) {
    && |s.daemons| <= |t.daemons|
    && (forall i :: 0 <= i < |s.daemons| ==> Fixed(s.daemons[i]) == Fixed(t.daemons[i]))
    && |s.connectors| <= |t.connectors|
    && (forall i :: 0 <= i < |s.connectors| ==>
          s.connectors[i].registry == t.connectors[i].registry && s.connectors[i].version == t.connectors[i].version
          && s.connectors[i].schema == t.connectors[i].schema)
  }

  lemma SeenOlderGrows(s: State, t: State, c: Connector, o: Observation)
    requires Grows(s, t) && SeenOlder(s, c, o)
    ensures SeenOlder(t, c, o)
  {
    var i :| 0 <= i < |s.daemons| && ObservationOf(s.daemons[i]) == o
             && s.daemons[i].registry == c.registry && Older(s.daemons[i].version, c.version);
    assert Fixed(s.daemons[i]) == Fixed(t.daemons[i]);
    assert ObservationOf(t.daemons[i]) == o;
  }

  lemma TokenGrows(s: State, t: State, c: Connector, c': Connector, token: string)
    requires Grows(s, t) && TokenOfOlder(s, c, token)
    requires c.registry == c'.registry && c.version == c'.version
    ensures TokenOfOlder(t, c', token)
  {
    var i :| 0 <= i < |s.daemons| && s.daemons[i].identity.Some? && token <= s.daemons[i].identity.value.token
             && s.daemons[i].registry == c.registry && Older(s.daemons[i].version, c.version);
    assert Fixed(s.daemons[i]) == Fixed(t.daemons[i]);
    assert t.daemons[i].identity.Some?;
  }

  lemma ConnectorGrows(s: State, t: State, c: Connector)
    requires Grows(s, t) && ConnectorOk(s, c)
    ensures ConnectorOk(t, c)
  {
    match c.pc
    case First => case Spawning => case Polling => case Failed =>
    case Done =>
      var i :| 0 <= i < |s.daemons| && HealthOf(s.daemons[i], c) == Compatible;
      assert Fixed(s.daemons[i]) == Fixed(t.daemons[i]);
      assert HealthOf(t.daemons[i], c) == Compatible;
    case SendToken(obs, _, token) => SeenOlderGrows(s, t, c, obs); TokenGrows(s, t, c, c, token);
    case AwaitReply(obs, _, token, _) => SeenOlderGrows(s, t, c, obs); TokenGrows(s, t, c, c, token);
    case _ => SeenOlderGrows(s, t, c, c.pc.obs);
  }

  lemma MessageGrows(s: State, t: State, m: Message)
    requires Grows(s, t) && MessageOk(s, m)
    ensures MessageOk(t, m)
  {
    TokenGrows(s, t, s.connectors[m.from], t.connectors[m.from], m.token);
  }

  /** The parts that only speak of fixed facts carry over whenever nothing was added to them. */
  lemma Carry(s: State, t: State)
    requires Grows(s, t) && Messages(s) && Handoffs(s)
    requires t.messages == s.messages && t.handoffs == s.handoffs
    ensures Messages(t) && Handoffs(t)
  {
    forall m | 0 <= m < |t.messages| ensures MessageOk(t, t.messages[m]) {
      MessageGrows(s, t, s.messages[m]);
    }
    forall h | h in t.handoffs ensures HandoffOk(t, h.0, h.1) {
      assert HandoffOk(s, h.0, h.1) && Fixed(s.daemons[h.1]) == Fixed(t.daemons[h.1]);
    }
  }

  lemma CarryConnectors(s: State, t: State)
    requires Grows(s, t) && Connectors(s) && t.connectors == s.connectors
    ensures Connectors(t)
  {
    forall i | 0 <= i < |t.connectors| ensures ConnectorOk(t, t.connectors[i]) {
      ConnectorGrows(s, t, s.connectors[i]);
    }
  }

  // ---------- daemon steps ----------

  lemma PhaseGrows(s: State, t: State, i: nat, p: Phase)
    requires i < |s.daemons| && t.daemons == SetPhase(s, i, p).daemons && t.connectors == s.connectors
    ensures Grows(s, t)
    ensures Identities(s) ==> Identities(t)
  {
    assert forall j | 0 <= j < |s.daemons| :: Fixed(s.daemons[j]) == Fixed(t.daemons[j]);
    if Identities(s) {
      forall j, k | 0 <= j < |t.daemons| && 0 <= k < |t.daemons| && j != k && t.daemons[k].identity.Some?
        ensures !UsesIdentity(t.daemons[j], t.daemons[k].identity.value)
      {
        assert !UsesIdentity(s.daemons[j], s.daemons[k].identity.value);
      }
    }
  }

  /** Two lease holders of one registry are one process. */
  lemma HolderUnique(s: State, i: nat, j: nat)
    requires Leases(s) && i < |s.daemons| && j < |s.daemons|
    requires HoldsLease(s.daemons[i].phase) && HoldsLease(s.daemons[j].phase)
    requires s.daemons[i].registry == s.daemons[j].registry
    ensures i == j
  {
    assert s.leases[s.daemons[i].registry] == ByDaemon(i);
    assert s.leases[s.daemons[j].registry] == ByDaemon(j);
  }

  lemma LeaseKept(s: State, t: State, i: nat, p: Phase)
    requires i < |s.daemons| && Leases(s) && HoldsLease(p) == HoldsLease(s.daemons[i].phase)
    requires t.daemons == SetPhase(s, i, p).daemons && t.connectors == s.connectors && t.leases == s.leases
    ensures Leases(t)
  {
  }

  lemma LeaseTaken(s: State, t: State, i: nat)
    requires i < |s.daemons| && Leases(s) && s.daemons[i].phase.Launched? && s.daemons[i].registry !in s.leases
    requires t.daemons == SetPhase(s, i, Locked).daemons && t.connectors == s.connectors
    requires t.leases == s.leases[s.daemons[i].registry := ByDaemon(i)]
    ensures Leases(t)
  {
  }

  lemma LeaseDropped(s: State, t: State, i: nat)
    requires i < |s.daemons| && Leases(s) && HoldsLease(s.daemons[i].phase)
    requires t.daemons == SetPhase(s, i, Exited).daemons && t.connectors == s.connectors
    requires t.leases == s.leases - {s.daemons[i].registry}
    ensures Leases(t)
  {
    assert s.leases[s.daemons[i].registry] == ByDaemon(i);
  }

  lemma DaemonLeases(s: State, i: nat, e: DaemonEvent)
    requires i < |s.daemons| && Leases(s)
    ensures Leases(DaemonStep(s, i, e))
  {
    var d, t := s.daemons[i], DaemonStep(s, i, e);
    if t == s {
    } else if e.TryLease? {
      if d.registry in s.leases { LeaseKept(s, t, i, Exited); } else { LeaseTaken(s, t, i); }
    } else if HoldsLease(t.daemons[i].phase) {
      LeaseKept(s, t, i, t.daemons[i].phase);
    } else if HoldsLease(d.phase) {
      LeaseDropped(s, t, i);
    } else {
      LeaseKept(s, t, i, Exited);
    }
  }

  lemma ListenerKept(s: State, t: State, i: nat, p: Phase)
    requires i < |s.daemons| && Listeners(s) && Bound(p) == Bound(s.daemons[i].phase)
    requires t.daemons == SetPhase(s, i, p).daemons && t.ports == s.ports
    ensures Listeners(t)
  {
  }

  lemma ListenerDropped(s: State, t: State, i: nat, p: Phase)
    requires i < |s.daemons| && Listeners(s) && Bound(s.daemons[i].phase) && !Bound(p)
    requires t.daemons == SetPhase(s, i, p).daemons && t.ports == s.ports - {s.daemons[i].port}
    ensures Listeners(t)
  {
  }

  lemma BindListeners(s: State, i: nat)
    requires i < |s.daemons| && Listeners(s)
    ensures Listeners(DaemonStep(s, i, Bind))
  {
    var t := DaemonStep(s, i, Bind);
    if t != s && !Bound(t.daemons[i].phase) {
      ListenerKept(s, t, i, Exited);
    }
  }

  lemma DaemonListeners(s: State, i: nat, e: DaemonEvent)
    requires i < |s.daemons| && Listeners(s)
    ensures Listeners(DaemonStep(s, i, e))
  {
    var d, t := s.daemons[i], DaemonStep(s, i, e);
    if e.Bind? {
      BindListeners(s, i);
    } else if t == s {
    } else if Bound(t.daemons[i].phase) == Bound(d.phase) {
      ListenerKept(s, t, i, t.daemons[i].phase);
    } else {
      ListenerDropped(s, t, i, t.daemons[i].phase);
    }
  }

  /** A step that leaves the lease files alone, creates one, or writes it as its holder. */
  ghost predicate FileStep(s: State, t: State, i: nat, text: string)
    requires i < |s.daemons|
  {
    && |t.daemons| == |s.daemons| && t.daemons == SetPhase(s, i, t.daemons[i].phase).daemons
    && (PastLock(s.daemons[i].phase) ==> PastLock(t.daemons[i].phase))
    && (|| t.files == s.files
        || (t.files == s.files[s.daemons[i].registry := text] && (text == "" || Wrote(t.daemons[i], text))
            && (s.daemons[i].registry !in s.files || HoldsLease(s.daemons[i].phase))))
  }

  lemma OthersWritten(s: State, t: State, i: nat, text: string, j: nat)
    requires i < |s.daemons| && j < |s.daemons| && j != i && Leases(s) && FileStep(s, t, i, text)
    requires Written(s, s.daemons[j])
    ensures Written(t, t.daemons[j])
  {
    assert t.daemons[j] == s.daemons[j];
    if s.daemons[j].registry == s.daemons[i].registry && HoldsLease(s.daemons[j].phase) && HoldsLease(s.daemons[i].phase) {
      HolderUnique(s, i, j);
    }
  }

  lemma StillWrote(s: State, t: State, i: nat, text: string, j: nat, found: string)
    requires i < |s.daemons| && j < |s.daemons| && FileStep(s, t, i, text) && Wrote(s.daemons[j], found)
    ensures Wrote(t.daemons[j], found)
  {
    assert LeaseText(t.daemons[j]) == LeaseText(s.daemons[j]);
  }

  lemma FilesKept(s: State, t: State, i: nat, text: string)
    requires i < |s.daemons| && Leases(s) && Files(s) && FileStep(s, t, i, text) && Written(t, t.daemons[i])
    ensures Files(t)
  {
    forall j | 0 <= j < |t.daemons| ensures Written(t, t.daemons[j]) {
      if j != i {
        OthersWritten(s, t, i, text, j);
      }
    }
    forall q | q in t.files && t.files[q] != ""
      ensures exists j :: 0 <= j < |t.daemons| && Wrote(t.daemons[j], t.files[q])
    {
      if q in s.files && t.files[q] == s.files[q] {
        var j :| 0 <= j < |s.daemons| && Wrote(s.daemons[j], s.files[q]);
        StillWrote(s, t, i, text, j, s.files[q]);
      } else {
        assert Wrote(t.daemons[i], t.files[q]);
      }
    }
  }

  lemma DaemonFiles(s: State, i: nat, e: DaemonEvent)
    requires i < |s.daemons| && Leases(s) && Files(s) && Identities(s)
    ensures Files(DaemonStep(s, i, e))
  {
    if e.Write? {
      WriteFiles(s, i, e);
    } else if e.TryLease? || e.Truncate? {
      ClearFiles(s, i, e);
    } else {
      QuietFiles(s, i, e);
    }
  }

  /** Taking the lease may create the file, truncating empties it. */
  lemma ClearFiles(s: State, i: nat, e: DaemonEvent)
    requires i < |s.daemons| && Leases(s) && Files(s) && (e.TryLease? || e.Truncate?)
    ensures Files(DaemonStep(s, i, e))
  {
    assert Written(s, s.daemons[i]);
    if DaemonStep(s, i, e) != s {
      FilesKept(s, DaemonStep(s, i, e), i, "");
    }
  }

  lemma QuietFiles(s: State, i: nat, e: DaemonEvent)
    requires i < |s.daemons| && Leases(s) && Files(s) && !e.Write? && !e.TryLease? && !e.Truncate?
    ensures Files(DaemonStep(s, i, e))
  {
    assert Written(s, s.daemons[i]);
    if DaemonStep(s, i, e) != s {
      FilesKept(s, DaemonStep(s, i, e), i, "");
    }
  }

  /** Writing moves one process along its own text. */
  lemma WriteMoves(s: State, i: nat, n: nat, text: string, t: State)
    requires i < |s.daemons| && s.daemons[i].phase.Writing? && text == LeaseText(s.daemons[i]) && n <= |text|
    requires t == SetPhase(s, i, Writing(n)).(files := s.files[s.daemons[i].registry := text[..n]])
    ensures FileStep(s, t, i, text[..n]) && Written(t, t.daemons[i])
  {
    assert LeaseText(t.daemons[i]) == text;
  }

  lemma WriteFiles(s: State, i: nat, e: DaemonEvent)
    requires i < |s.daemons| && Leases(s) && Files(s) && Identities(s) && e.Write?
    ensures Files(DaemonStep(s, i, e))
  {
    var t, d := DaemonStep(s, i, e), s.daemons[i];
    if t != s {
      var text, n := LeaseText(d), d.phase.count + e.amount;
      WriteMoves(s, i, n, text, t);
      FilesKept(s, t, i, text[..n]);
    }
  }

  lemma PhaseKeeps(s: State, t: State, i: nat, p: Phase)
    requires Inv(s) && i < |s.daemons| && OnlyPhase(s, t, i, p)
    requires Leases(t) && Listeners(t) && Files(t)
    ensures Inv(t)
  {
    PhaseGrows(s, t, i, p);
    Carry(s, t);
    CarryConnectors(s, t);
  }

  /** Only the phase of one process, and what the system keeps for it, changed. */
  ghost predicate OnlyPhase(s: State, t: State, i: nat, p: Phase)
    requires i < |s.daemons|
  {
    && t.daemons == SetPhase(s, i, p).daemons
    && t.connectors == s.connectors && t.messages == s.messages && t.handoffs == s.handoffs
  }

  predicate StartsUp(e: DaemonEvent) { e.TryLease? || e.Truncate? || e.Write? || e.Bind? }

  lemma StartShape(s: State, i: nat, e: DaemonEvent) returns (p: Phase)
    requires i < |s.daemons| && StartsUp(e)
    ensures OnlyPhase(s, DaemonStep(s, i, e), i, p)
  {
    p := DaemonStep(s, i, e).daemons[i].phase;
    assert s.daemons[i := s.daemons[i]] == s.daemons;
  }

  lemma StopShape(s: State, i: nat, e: DaemonEvent) returns (p: Phase)
    requires i < |s.daemons| && !StartsUp(e)
    ensures OnlyPhase(s, DaemonStep(s, i, e), i, p)
  {
    p := DaemonStep(s, i, e).daemons[i].phase;
    assert s.daemons[i := s.daemons[i]] == s.daemons;
  }

  lemma DaemonKeeps(s: State, i: nat, e: DaemonEvent)
    requires i < |s.daemons| && Inv(s)
    ensures Inv(DaemonStep(s, i, e))
  {
    DaemonLeases(s, i, e);
    DaemonListeners(s, i, e);
    DaemonFiles(s, i, e);
    var p;
    if StartsUp(e) {
      p := StartShape(s, i, e);
    } else {
      p := StopShape(s, i, e);
    }
    PhaseKeeps(s, DaemonStep(s, i, e), i, p);
  }

  // ---------- a new process ----------

  lemma StartKeeps(s: State, d: Daemon)
    requires Inv(s)
    ensures Inv(StartDaemon(s, d))
  {
    var t := StartDaemon(s, d);
    if Startable(s, d) {
      assert Grows(s, t);
      Carry(s, t);
      CarryConnectors(s, t);
      StartIdentities(s, d);
      StartLeases(s, d);
      StartFiles(s, d);
    }
  }

  lemma StartLeases(s: State, d: Daemon)
    requires Leases(s) && Listeners(s) && Startable(s, d)
    ensures Leases(StartDaemon(s, d)) && Listeners(StartDaemon(s, d))
  {
  }

  lemma StartIdentities(s: State, d: Daemon)
    requires Identities(s) && Startable(s, d)
    ensures Identities(StartDaemon(s, d))
  {
    var t := StartDaemon(s, d);
    forall i, j | 0 <= i < |t.daemons| && 0 <= j < |t.daemons| && i != j && t.daemons[j].identity.Some?
      ensures !UsesIdentity(t.daemons[i], t.daemons[j].identity.value)
    {
      if i == |s.daemons| && d.identity.Some? {
        assert !UsesIdentity(s.daemons[j], d.identity.value);
      }
    }
  }

  lemma StartFiles(s: State, d: Daemon)
    requires Files(s) && Startable(s, d)
    ensures Files(StartDaemon(s, d))
  {
    var t := StartDaemon(s, d);
    forall i | 0 <= i < |t.daemons| ensures Written(t, t.daemons[i]) {
      if i < |s.daemons| { assert Written(s, s.daemons[i]); }
    }
    forall r | r in t.files && t.files[r] != ""
      ensures exists i :: 0 <= i < |t.daemons| && Wrote(t.daemons[i], t.files[r])
    {
      var i :| 0 <= i < |s.daemons| && Wrote(s.daemons[i], s.files[r]);
      assert Wrote(t.daemons[i], t.files[r]);
    }
  }

  // ---------- accepting a handoff ----------

  /** Only the process that owns a token can accept it, and it is older than the sender. */
  lemma TokenPinsDaemon(s: State, c: Connector, token: string, i: nat)
    requires Identities(s) && TokenOfOlder(s, c, token)
    requires i < |s.daemons| && s.daemons[i].identity.Some? && s.daemons[i].identity.value.token == token
    ensures s.daemons[i].registry == c.registry && Older(s.daemons[i].version, c.version)
  {
    var j :| 0 <= j < |s.daemons| && s.daemons[j].identity.Some? && token <= s.daemons[j].identity.value.token
             && s.daemons[j].registry == c.registry && Older(s.daemons[j].version, c.version);
    assert token == s.daemons[j].identity.value.token;
    assert UsesIdentity(s.daemons[j], s.daemons[i].identity.value);
  }

  /** Adding messages or handoffs leaves everything else standing. */
  lemma Frame(s: State, t: State)
    requires Identities(s) && Leases(s) && Listeners(s) && Files(s) && Connectors(s)
    requires t == s.(messages := t.messages, handoffs := t.handoffs)
    ensures Grows(s, t) && Identities(t) && Leases(t) && Listeners(t) && Files(t) && Connectors(t)
  {
    CarryConnectors(s, t);
    forall i | 0 <= i < |t.daemons| ensures Written(t, t.daemons[i]) {
      assert Written(s, s.daemons[i]);
    }
  }

  lemma HandoffsOnly(s: State, t: State)
    requires Inv(s) && t == s.(handoffs := t.handoffs) && Handoffs(t)
    ensures Inv(t)
  {
    Frame(s, t);
    Carry(s, t.(handoffs := s.handoffs));
    forall m | 0 <= m < |t.messages| ensures MessageOk(t, t.messages[m]) {
      MessageGrows(s, t, s.messages[m]);
    }
  }

  lemma AcceptHandoffs(s: State, k: nat)
    requires Identities(s) && Messages(s) && Handoffs(s) && k < |s.messages|
    ensures Handoffs(AcceptStep(s, s.messages[k]))
  {
    var m, t := s.messages[k], AcceptStep(s, s.messages[k]);
    assert MessageOk(s, m);
    if t != s {
      TokenPinsDaemon(s, s.connectors[m.from], m.token, m.to);
      forall h | h in t.handoffs ensures HandoffOk(t, h.0, h.1) {
        assert HandoffOk(s, h.0, h.1);
      }
    }
  }

  lemma AcceptKeeps(s: State, k: nat)
    requires Inv(s) && k < |s.messages|
    ensures Inv(AcceptStep(s, s.messages[k]))
  {
    AcceptHandoffs(s, k);
    HandoffsOnly(s, AcceptStep(s, s.messages[k]));
  }

  // ---------- connector steps ----------

  lemma NoOwnerInEmptyText()
    ensures ParseOwner("") == Malformed
  {
    assert Lines("") == [];
  }

  /** A lease text that names a token was written, as far as it goes, by the one process
      whose instance it names. */
  lemma Named(s: State, text: string, owner: Owner, j: nat)
    requires Identities(s) && ParseOwner(text) == Parsed(owner) && owner.token.Some?
    requires j < |s.daemons| && text <= LeaseText(s.daemons[j])
    ensures s.daemons[j].identity.Some? && owner.instance == Some(s.daemons[j].identity.value.instance)
    ensures owner.token.value <= s.daemons[j].identity.value.token
  {
    var d := s.daemons[j];
    TornOwner(text, d.pid, Resource(d.port), d.executable, d.identity);
  }

  lemma OneInstance(s: State, i: nat, j: nat)
    requires Identities(s) && i < |s.daemons| && j < |s.daemons| && s.daemons[i].identity.Some? && s.daemons[j].identity.Some?
    requires s.daemons[i].identity.value.instance == s.daemons[j].identity.value.instance
    ensures i == j
  {
    assert UsesIdentity(s.daemons[i], s.daemons[j].identity.value);
  }

  lemma Author(s: State, r: nat, owner: Owner) returns (j: nat)
    requires Files(s) && r in s.files && ParseOwner(s.files[r]) == Parsed(owner)
    ensures j < |s.daemons| && Wrote(s.daemons[j], s.files[r])
  {
    NoOwnerInEmptyText();
    j :| 0 <= j < |s.daemons| && Wrote(s.daemons[j], s.files[r]);
  }

  /** The owner read for an inspection: if its token is sent, the token is the observed process's. */
  lemma OwnerToken(s: State, c: Connector, obs: Observation, owner: Owner)
    requires Identities(s) && Files(s) && SeenOlder(s, c, obs)
    requires c.registry in s.files && ParseOwner(s.files[c.registry]) == Parsed(owner)
    requires AfterOwner(c, obs, owner).SendToken?
    ensures TokenOfOlder(s, c, owner.token.value)
  {
    var i :| 0 <= i < |s.daemons| && ObservationOf(s.daemons[i]) == obs
             && s.daemons[i].registry == c.registry && Older(s.daemons[i].version, c.version);
    var j := Author(s, c.registry, owner);
    Named(s, s.files[c.registry], owner, j);
    OneInstance(s, i, j);
  }

  lemma HealthOk(s: State, c: Connector, h: Health)
    requires ConnectorOk(s, c) && ReadsHealth(c.pc)
    requires h.Unavailable? || exists i :: 0 <= i < |s.daemons| && HealthOf(s.daemons[i], c) == h
    ensures ConnectorOk(s, c.(pc := AfterHealth(c, h), last := h))
  {
    var c' := c.(pc := AfterHealth(c, h), last := h);
    if !h.Unavailable? {
      var i :| 0 <= i < |s.daemons| && HealthOf(s.daemons[i], c) == h;
      assert HealthOf(s.daemons[i], c') == h;
      if h.Incompatible? && (c.pc.First? || c.pc.Polling?) && Recoverable(c, h.observation) {
        assert ObservationOf(s.daemons[i]) == h.observation;
        assert SeenOlder(s, c', h.observation);
      }
    }
    if !c.pc.First? && !c.pc.Polling? {
      SameSeen(s, c, c', c.pc.obs);
    }
  }

  lemma SameSeen(s: State, c: Connector, c': Connector, o: Observation)
    requires SeenOlder(s, c, o) && c.registry == c'.registry && c.version == c'.version
    ensures SeenOlder(s, c', o)
  {
  }

  /** A connector step that touches only its own program counter and the lock. */
  lemma PcKeeps(s: State, t: State, i: nat, c': Connector)
    requires Inv(s) && i < |s.connectors|
    requires t == s.(connectors := s.connectors[i := c'], leases := t.leases)
    requires c' == s.connectors[i].(pc := c'.pc, last := c'.last)
    requires ConnectorOk(s, c') && Leases(t)
    ensures Inv(t)
  {
    assert Grows(s, t);
    Carry(s, t);
    forall j | 0 <= j < |t.connectors| ensures ConnectorOk(t, t.connectors[j]) {
      assert j != i ==> ConnectorOk(s, s.connectors[j]);
      ConnectorGrows(s, t, t.connectors[j]);
    }
    forall j | 0 <= j < |t.daemons| ensures Written(t, t.daemons[j]) {
      assert Written(s, s.daemons[j]);
    }
  }

  lemma PcLeases(s: State, t: State, i: nat, c': Connector)
    requires Leases(s) && i < |s.connectors|
    requires t == s.(connectors := s.connectors[i := c'], leases := t.leases)
    requires c' == s.connectors[i].(pc := c'.pc, last := c'.last)
    requires var c := s.connectors[i];
             || (t.leases == s.leases && !c.pc.ProbeHolds? && !c'.pc.ProbeHolds?)
             || (c.registry !in s.leases && c'.pc.ProbeHolds? && t.leases == s.leases[c.registry := ByProbe(i)])
             || (c.pc.ProbeHolds? && !c'.pc.ProbeHolds? && t.leases == s.leases - {c.registry})
    ensures Leases(t)
  {
  }

  lemma FreeOk(s: State, c: Connector, obs: Observation, use: Use)
    requires SeenOlder(s, c, obs)
    ensures ConnectorOk(s, c.(pc := AfterLeaseFree(obs, use)))
  {
    SameSeen(s, c, c.(pc := AfterLeaseFree(obs, use)), obs);
  }

  lemma HeldOk(s: State, c: Connector, obs: Observation, use: Use, owner: Owner)
    requires Identities(s) && Files(s) && SeenOlder(s, c, obs)
    requires c.registry in s.files && ParseOwner(s.files[c.registry]) == Parsed(owner)
    ensures ConnectorOk(s, c.(pc := AfterLeaseHeld(c, obs, use, owner)))
  {
    var c' := c.(pc := AfterLeaseHeld(c, obs, use, owner));
    SameSeen(s, c, c', obs);
    if use.Inspect? && AfterOwner(c, obs, owner).SendToken? {
      OwnerToken(s, c, obs, owner);
      SameToken(s, c, c', owner.token.value);
    }
  }

  lemma SameToken(s: State, c: Connector, c': Connector, token: string)
    requires TokenOfOlder(s, c, token) && c.registry == c'.registry && c.version == c'.version
    ensures TokenOfOlder(s, c', token)
  {
  }

  lemma ReadOk(s: State, c: Connector, obs: Observation, use: Use, p: Parsed)
    requires Identities(s) && Files(s) && SeenOlder(s, c, obs)
    requires c.registry in s.files && ParseOwner(s.files[c.registry]) == p
    ensures ConnectorOk(s, c.(pc := if p.Malformed? then Failed else AfterLeaseHeld(c, obs, use, p.owner)))
  {
    if p.Parsed? {
      HeldOk(s, c, obs, use, p.owner);
    }
  }

  lemma LocalOk(s: State, i: nat, e: ConnectorEvent)
    requires Inv(s) && i < |s.connectors| && !e.Send? && !e.Spawn?
    ensures i < |ConnectorStep(s, i, e).connectors| && ConnectorOk(s, ConnectorStep(s, i, e).connectors[i])
  {
    var c, t := s.connectors[i], ConnectorStep(s, i, e);
    assert ConnectorOk(s, c);
    if t != s {
      match e
      case ReadHealth(reached) => HealthOk(s, c, t.connectors[i].last);
      case Probe => FreeOk(s, c, c.pc.obs, c.pc.use); SameSeen(s, c, t.connectors[i], c.pc.obs);
      case ProbeUnlock => FreeOk(s, c, c.pc.obs, c.pc.use);
      case ReadLease =>
        ReadOk(s, c, c.pc.obs, c.pc.use, ParseOwner(s.files[c.registry]));
      case Reply(_) => SameSeen(s, c, t.connectors[i], c.pc.obs);
      case GiveUp =>
    }
  }

  /** Every connector step other than sending and spawning. */
  lemma LocalKeeps(s: State, i: nat, e: ConnectorEvent)
    requires Inv(s) && i < |s.connectors| && !e.Send? && !e.Spawn?
    ensures Inv(ConnectorStep(s, i, e))
  {
    LocalOk(s, i, e);
    LocalLeases(s, i, e);
    LocalShape(s, i, e);
    PcKeeps(s, ConnectorStep(s, i, e), i, ConnectorStep(s, i, e).connectors[i]);
  }

  lemma LocalShape(s: State, i: nat, e: ConnectorEvent)
    requires i < |s.connectors| && !e.Send? && !e.Spawn?
    ensures var t := ConnectorStep(s, i, e);
            && i < |t.connectors|
            && t == s.(connectors := s.connectors[i := t.connectors[i]], leases := t.leases)
            && t.connectors[i] == s.connectors[i].(pc := t.connectors[i].pc, last := t.connectors[i].last)
  {
    assert s.connectors[i := s.connectors[i]] == s.connectors;
  }

  lemma LocalLeases(s: State, i: nat, e: ConnectorEvent)
    requires Leases(s) && i < |s.connectors| && !e.Send? && !e.Spawn?
    ensures Leases(ConnectorStep(s, i, e))
  {
    var t := ConnectorStep(s, i, e);
    if t != s {
      PcLeases(s, t, i, t.connectors[i]);
    }
  }

  lemma SendPc(s: State, i: nat, pc: Pc)
    requires Inv(s) && i < |s.connectors|
    requires var c := s.connectors[i];
             c.pc.SendToken? && (pc == Waiting(c.pc.obs, c.pc.owner)
                                 || (pc.AwaitReply? && pc.obs == c.pc.obs && pc.token == c.pc.token))
    ensures Inv(SetPc(s, i, pc)) && TokenOfOlder(s, s.connectors[i], s.connectors[i].pc.token)
  {
    var c := s.connectors[i];
    var c' := c.(pc := pc);
    assert ConnectorOk(s, c);
    SameSeen(s, c, c', c.pc.obs);
    SameToken(s, c, c', c.pc.token);
    PcLeases(s, SetPc(s, i, pc), i, c');
    PcKeeps(s, SetPc(s, i, pc), i, c');
  }

  lemma SendKeeps(s: State, i: nat)
    requires Inv(s) && i < |s.connectors|
    ensures Inv(SendStep(s, i))
  {
    var c := s.connectors[i];
    if c.pc.SendToken? {
      if c.port in s.ports {
        var pc := AwaitReply(c.pc.obs, c.pc.owner, c.pc.token, s.ports[c.port]);
        SendPc(s, i, pc);
        var u := SetPc(s, i, pc);
        SameToken(u, c, u.connectors[i], c.pc.token);
        MessageAdded(u, SendStep(s, i), i, c.pc.token);
      } else {
        SendPc(s, i, Waiting(c.pc.obs, c.pc.owner));
      }
    }
  }

  lemma MessageAdded(s: State, t: State, i: nat, token: string)
    requires Inv(s) && i < |s.connectors| && TokenOfOlder(s, s.connectors[i], token)
    requires |t.messages| == |s.messages| + 1 && t == s.(messages := s.messages + [t.messages[|s.messages|]])
    requires t.messages[|s.messages|].from == i && t.messages[|s.messages|].token == token
    ensures Inv(t)
  {
    Frame(s, t);
    MessagesGrow(s, t);
  }

  lemma MessagesGrow(s: State, t: State)
    requires Messages(s) && Grows(s, t) && s.connectors == t.connectors
    requires |t.messages| == |s.messages| + 1 && t.messages[..|s.messages|] == s.messages
    requires MessageOk(s, t.messages[|s.messages|])
    ensures Messages(t)
  {
    forall m | 0 <= m < |t.messages| ensures MessageOk(t, t.messages[m]) {
      assert m < |s.messages| ==> t.messages[m] == s.messages[m];
      MessageGrows(s, t, t.messages[m]);
    }
  }

  lemma SpawnKeeps(s: State, i: nat, e: ConnectorEvent)
    requires Inv(s) && i < |s.connectors| && e.Spawn?
    ensures Inv(ConnectorStep(s, i, e))
  {
    var c, t := s.connectors[i], ConnectorStep(s, i, e);
    if t != s {
      var d := Daemon(c.version, c.schema, c.registry, c.port, e.pid, e.executable, Some(e.identity), Launched);
      var u := StartDaemon(s, d);
      StartKeeps(s, d);
      PcLeases(u, t, i, c.(pc := Polling));
      PcKeeps(u, t, i, c.(pc := Polling));
    }
  }

  lemma ConnectFiles(s: State, t: State)
    requires Leases(s) && Listeners(s) && Files(s) && Identities(s)
    requires t.daemons == s.daemons && t.files == s.files && t.leases == s.leases && t.ports == s.ports
    requires |t.connectors| > |s.connectors| && t.connectors[..|s.connectors|] == s.connectors
    requires forall j :: |s.connectors| <= j < |t.connectors| ==> !t.connectors[j].pc.ProbeHolds?
    ensures Leases(t) && Listeners(t) && Files(t) && Identities(t)
  {
    assert forall j :: 0 <= j < |s.connectors| ==> t.connectors[j] == s.connectors[j];
    forall j | 0 <= j < |t.daemons| ensures Written(t, t.daemons[j]) {
      assert Written(s, s.daemons[j]);
    }
  }

  lemma ConnectKeeps(s: State, c: Connector)
    requires Inv(s) && c.pc.First?
    ensures Inv(s.(connectors := s.connectors + [c]))
  {
    var t := s.(connectors := s.connectors + [c]);
    assert Grows(s, t);
    Carry(s, t);
    forall j | 0 <= j < |t.connectors| ensures ConnectorOk(t, t.connectors[j]) {
      assert j < |s.connectors| ==> ConnectorOk(s, s.connectors[j]);
      ConnectorGrows(s, t, t.connectors[j]);
    }
    ConnectFiles(s, t);
  }

  lemma ConnectorKeeps(s: State, i: nat, e: ConnectorEvent)
    requires Inv(s) && i < |s.connectors|
    ensures Inv(ConnectorStep(s, i, e))
  {
    if e.Send? {
      SendKeeps(s, i);
      assert ConnectorStep(s, i, e) == SendStep(s, i);
    } else if e.Spawn? {
      SpawnKeeps(s, i, e);
    } else {
      LocalKeeps(s, i, e);
    }
  }

  lemma NextKeeps(s: State, a: Action)
    requires Inv(s)
    ensures Inv(Next(s, a))
  {
    match a
    case Launch(d) => StartKeeps(s, d);
    case Connect(v, schema, registry, port) =>
      ConnectKeeps(s, Connector(v, schema, registry, port, First, Unavailable));
    case OfDaemon(d, e) => if d < |s.daemons| { DaemonKeeps(s, d, e); }
    case OfConnector(c, e) =>
      if c < |s.connectors| { ConnectorKeeps(s, c, e); }
    case Accept(m) => if m < |s.messages| { AcceptKeeps(s, m); }
  }

  lemma {:induction false} RunKeeps(actions: seq<Action>)
    ensures Inv(Run(actions))
  {
    if actions != [] {
      RunKeeps(actions[..|actions| - 1]);
      NextKeeps(Run(actions[..|actions| - 1]), actions[|actions| - 1]);
    }
  }

  // ---------- the theorems ----------

  /** In every run, two processes past their lease are of different registries, each holds its
      registry's lease, and one that listens is alone on its port and finds exactly its own
      text in the lease file. */
  lemma SingleOwner(actions: seq<Action>, i: nat, j: nat)
    requires var s := Run(actions);
             i < |s.daemons| && j < |s.daemons| && HoldsLease(s.daemons[i].phase) && HoldsLease(s.daemons[j].phase)
    ensures var s := Run(actions);
            && s.daemons[i].registry in s.leases && s.leases[s.daemons[i].registry] == ByDaemon(i)
            && (s.daemons[i].registry == s.daemons[j].registry ==> i == j)
            && (Bound(s.daemons[i].phase) && Bound(s.daemons[j].phase) && s.daemons[i].port == s.daemons[j].port ==> i == j)
            && (Bound(s.daemons[i].phase) ==>
                  s.daemons[i].registry in s.files && s.files[s.daemons[i].registry] == LeaseText(s.daemons[i]))
  {
    RunKeeps(actions);
    var s := Run(actions);
    if s.daemons[i].registry == s.daemons[j].registry {
      HolderUnique(s, i, j);
    }
    assert Written(s, s.daemons[i]);
  }

  /** In every run, every daemon that accepted a handoff is of the sender's registry
      and of a strictly older release: a token handoff never downgrades. */
  lemma HandoffNeverDowngrades(actions: seq<Action>, c: nat, d: nat)
    requires (c, d) in Run(actions).handoffs
    ensures var s := Run(actions);
            && c < |s.connectors| && d < |s.daemons|
            && s.daemons[d].registry == s.connectors[c].registry
            && Older(s.daemons[d].version, s.connectors[c].version)
  {
    RunKeeps(actions);
  }

  /** The daemon is of the connector's exact version, schema and registry. */
  predicate SameRelease(d: Daemon, c: Connector) {
    d.version == c.version && d.schema == c.schema && d.registry == c.registry
  }

  lemma DoneMeans(s: State, c: nat)
    requires Connectors(s) && c < |s.connectors| && s.connectors[c].pc.Done?
    ensures s.connectors[c].last == Compatible
    ensures exists i :: 0 <= i < |s.daemons| && SameRelease(s.daemons[i], s.connectors[c])
  {
    assert ConnectorOk(s, s.connectors[c]);
    var i :| 0 <= i < |s.daemons| && HealthOf(s.daemons[i], s.connectors[c]) == Compatible;
    assert SameRelease(s.daemons[i], s.connectors[c]);
  }

  /** In every run, `ensure_daemon` succeeds only after a health read that found a
      process of the connector's exact version, schema and registry. */
  lemma EnsuredOnlyCompatible(actions: seq<Action>, c: nat)
    requires var s := Run(actions); c < |s.connectors| && s.connectors[c].pc.Done?
    ensures var s := Run(actions);
            && s.connectors[c].last == Compatible
            && exists i :: 0 <= i < |s.daemons| && SameRelease(s.daemons[i], s.connectors[c])
  {
    RunKeeps(actions);
    DoneMeans(Run(actions), c);
  }
}
