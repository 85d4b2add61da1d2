/** Daemon ownership and version handoff: connectors (src/main.rs), daemons
    (src/http.rs) and the lease file (src/lock.rs) as one transition system.
    A run is any list of actions; a disabled action changes nothing. */
module Handoff {
  import opened Text
  import opened Lease

  // ---------- releases ----------

  datatype Release = Release(major: nat, minor: nat, patch: nat)

  const U64_LIMIT := 0x1_0000_0000_0000_0000

  /** `ReleaseVersion::parse`: exactly three unsigned components. */
  function ParseRelease(version: string): Option<Release> {
    var parts := Split(version, '.');
    if |parts| != 3 then None
    else
      var a, b, c := ParseUnsigned(parts[0], U64_LIMIT), ParseUnsigned(parts[1], U64_LIMIT), ParseUnsigned(parts[2], U64_LIMIT);
      if a.None? || b.None? || c.None? then None else Some(Release(a.value, b.value, c.value))
  }

  /** The derived field-by-field order. */
  predicate Before(a: Release, b: Release) {
    || a.major < b.major
    || (a.major == b.major && a.minor < b.minor)
    || (a.major == b.major && a.minor == b.minor && a.patch < b.patch)
  }

  /** Strictly older, both versions being stable releases. */
  predicate Older(v: string, w: string) {
    var a, b := ParseRelease(v), ParseRelease(w);
    a.Some? && b.Some? && Before(a.value, b.value)
  }

  // ---------- state ----------

  datatype Phase =
    | Launched          // process exists, lease not tried yet
    | Locked            // lease taken, lease text still the previous owner's
    | Writing(count: nat)  // text truncated, then this many characters written
    | Serving           // listener bound
    | Notified          // shutdown notified, listener still bound
    | Unbound           // listener dropped, lease still held
    | Exited

  predicate HoldsLease(p: Phase) { !p.Launched? && !p.Exited? }
  predicate Bound(p: Phase) { p.Serving? || p.Notified? }

  /** `identity` is absent for daemons released before authenticated handoff. */
  datatype Daemon = Daemon(version: string, schema: nat, registry: nat, port: nat, pid: nat,
                           executable: string, identity: Option<Identity>, phase: Phase)

  function Resource(port: nat): string { "Coverage MCP daemon on port " + NatText(port) }

  function LeaseText(d: Daemon): string {
    Metadata(d.pid, Resource(d.port), d.executable, d.identity)
  }

  datatype Observation = Observation(healthy: bool, version: string, schema: nat, registry: nat,
                                     executable: Option<string>, pid: Option<nat>,
                                     instance: Option<string>, handoffSupported: bool)

  datatype Health = Compatible | Unavailable | Incompatible(observation: Observation)

  /** What an inspection of the held owner is for. */
  datatype Use = Inspect | WaitGone(owner: Owner) | WaitSame(owner: Owner)

  datatype Pc =
    | First                                             // ensure_daemon, first health read
    | Spawning
    | Polling                                           // start-up poll loop
    | LeaseProbe(obs: Observation, use: Use)            // held_daemon_owner: before try_lock
    | ProbeHolds(obs: Observation, use: Use)            // try_lock succeeded, unlock pending
    | LeaseRead(obs: Observation, use: Use)             // lock was busy, text not read yet
    | MissingOwner(obs: Observation)
    | SendToken(obs: Observation, owner: Owner, token: string)
    | AwaitReply(obs: Observation, owner: Owner, token: string, to: nat)
    | Recheck(obs: Observation, owner: Owner)           // pre-handoff daemon: read health again
    | Waiting(obs: Observation, owner: Owner)
    | Done
    | Failed

  datatype Connector = Connector(version: string, schema: nat, registry: nat, port: nat, pc: Pc, last: Health)

  datatype Holder = ByDaemon(daemon: nat) | ByProbe(connector: nat)

  datatype Message = Message(from: nat, to: nat, token: string)

  datatype State = State(daemons: seq<Daemon>, connectors: seq<Connector>,
                         leases: map<nat, Holder>, files: map<nat, string>, ports: map<nat, nat>,
                         messages: seq<Message>, handoffs: set<(nat, nat)>)

  function Initial(): State { State([], [], map[], map[], map[], [], {}) }

  // ---------- pure decisions of the connector ----------

  /** The health payload of an honest daemon. */
  function ObservationOf(d: Daemon): Observation {
    Observation(true, d.version, d.schema, d.registry, Some(d.executable),
                if d.identity.Some? then Some(d.pid) else None,
                if d.identity.Some? then Some(d.identity.value.instance) else None,
                d.identity.Some?)
  }

  function HealthOf(d: Daemon, c: Connector): Health {
    if d.version == c.version && d.schema == c.schema && d.registry == c.registry then Compatible
    else Incompatible(ObservationOf(d))
  }

  /** `validate_recoverable_daemon`. */
  predicate Recoverable(c: Connector, o: Observation) {
    o.healthy && o.registry == c.registry && Older(o.version, c.version)
  }

  /** `validate_daemon_owner`. */
  predicate ValidOwner(c: Connector, o: Observation, owner: Owner) {
    && owner.resource == Resource(c.port)
    && o.executable == Some(owner.executable)
    && (o.pid.Some? ==> o.pid.value == owner.pid)
    && o.instance == owner.instance
  }

  /** `recover_incompatible_daemon` once an owner was read. */
  function AfterOwner(c: Connector, o: Observation, owner: Owner): Pc {
    if !ValidOwner(c, o, owner) then Failed
    else if o.handoffSupported then
      if owner.token.Some? then SendToken(o, owner, owner.token.value) else Failed
    else if owner.instance.Some? || owner.token.Some? then Failed
    else Recheck(o, owner)
  }

  function AfterLeaseFree(obs: Observation, use: Use): Pc {
    match use
    case Inspect => MissingOwner(obs)
    case WaitGone(_) => Spawning
    case WaitSame(owner) => Waiting(obs, owner)
  }

  function AfterLeaseHeld(c: Connector, obs: Observation, use: Use, current: Owner): Pc {
    match use
    case Inspect => AfterOwner(c, obs, current)
    case WaitGone(owner) => Waiting(obs, owner)
    case WaitSame(owner) => if current == owner then Waiting(obs, owner) else Failed
  }

  predicate ReadsHealth(pc: Pc) {
    pc.First? || pc.Polling? || pc.MissingOwner? || pc.Recheck? || pc.Waiting?
  }

  /** What the connector does with a health read, wherever it makes one. */
  function AfterHealth(c: Connector, h: Health): Pc
    requires ReadsHealth(c.pc)
  {
    match h
    case Compatible => Done
    case Unavailable =>
      if c.pc.Polling? then Polling
      else if c.pc.Waiting? then LeaseProbe(c.pc.obs, WaitGone(c.pc.owner))
      else Spawning
    case Incompatible(o) =>
      match c.pc
      case First => if Recoverable(c, o) then LeaseProbe(o, Inspect) else Failed
      case Polling => if Recoverable(c, o) then LeaseProbe(o, Inspect) else Failed
      case Recheck(obs, owner) => if o == obs then Waiting(obs, owner) else Failed
      case Waiting(obs, owner) => if o == obs then LeaseProbe(obs, WaitSame(owner)) else Failed
      case _ => Failed
  }

  // ---------- actions ----------

  datatype DaemonEvent =
    | TryLease
    | Truncate
    | Write(amount: nat)
    | Bind
    | Notify                                            // handoff timer, or an operator's signal
    | CloseListener
    | ReleaseLease
    | Die                                               // crash, failed write or failed accept

  datatype ConnectorEvent =
    | ReadHealth(reached: bool)
    | Probe
    | ProbeUnlock
    | ReadLease
    | Send
    | Reply(arrived: bool)
    | Spawn(pid: nat, executable: string, identity: Identity)
    | GiveUp

  datatype Action =
    | Launch(daemon: Daemon)                            // any release, started by hand
    | Connect(version: string, schema: nat, registry: nat, port: nat)
    | OfDaemon(d: nat, event: DaemonEvent)
    | OfConnector(c: nat, step: ConnectorEvent)
    | Accept(message: nat)                              // dispatch_daemon_handoff

  const ID_LENGTH := 36

  predicate UsesIdentity(d: Daemon, id: Identity) {
    d.identity.Some? && (d.identity.value.instance == id.instance || d.identity.value.token == id.token)
  }

  /** Identities are fresh version-4 UUID texts; lease fields hold no line breaks. */
  predicate Startable(s: State, d: Daemon) {
    && d.phase.Launched?
    && WellFormed(d.pid, Resource(d.port), d.executable, d.identity)
    && (d.identity.Some? ==>
          && |d.identity.value.instance| == ID_LENGTH
          && |d.identity.value.token| == ID_LENGTH
          && forall i :: 0 <= i < |s.daemons| ==> !UsesIdentity(s.daemons[i], d.identity.value))
  }

  function SetPhase(s: State, i: nat, p: Phase): State
    requires i < |s.daemons|
  {
    s.(daemons := s.daemons[i := s.daemons[i].(phase := p)])
  }

  function SetPc(s: State, i: nat, pc: Pc): State
    requires i < |s.connectors|
  {
    s.(connectors := s.connectors[i := s.connectors[i].(pc := pc)])
  }

  function StartDaemon(s: State, d: Daemon): State {
    if Startable(s, d) then s.(daemons := s.daemons + [d]) else s
  }

  /** The process ends: the system drops its listener and its lock. */
  function Terminate(s: State, i: nat): State
    requires i < |s.daemons|
  {
    var d := s.daemons[i];
    SetPhase(s, i, Exited).(
      leases := if HoldsLease(d.phase) then s.leases - {d.registry} else s.leases,
      ports := if Bound(d.phase) then s.ports - {d.port} else s.ports)
  }

  /** One step of daemon `i`. */
  function DaemonStep(s: State, i: nat, e: DaemonEvent): State
    requires i < |s.daemons|
  {
    var d := s.daemons[i];
    match e
    case TryLease =>
      if !d.phase.Launched? then s
      else
        var t := if d.registry in s.files then s else s.(files := s.files[d.registry := ""]);
        if d.registry in t.leases then SetPhase(t, i, Exited)
        else SetPhase(t, i, Locked).(leases := t.leases[d.registry := ByDaemon(i)])
    case Truncate =>
      if !d.phase.Locked? then s
      else SetPhase(s, i, Writing(0)).(files := s.files[d.registry := ""])
    case Write(amount) =>
      if !d.phase.Writing? || d.phase.count + amount > |LeaseText(d)| then s
      else
        var n := d.phase.count + amount;
        SetPhase(s, i, Writing(n)).(files := s.files[d.registry := LeaseText(d)[..n]])
    case Bind =>
      if d.phase != Writing(|LeaseText(d)|) then s
      else if d.port in s.ports then Terminate(s, i)
      else SetPhase(s, i, Serving).(ports := s.ports[d.port := i])
    case Notify =>
      if d.phase.Serving? then SetPhase(s, i, Notified) else s
    case CloseListener =>
      if d.phase.Notified? then SetPhase(s, i, Unbound).(ports := s.ports - {d.port}) else s
    case ReleaseLease =>
      if d.phase.Unbound? then Terminate(s, i) else s
    case Die =>
      if d.phase.Exited? then s else Terminate(s, i)
  }

  /** `dispatch_daemon_handoff` at the daemon the connection reached. */
  function AcceptStep(s: State, m: Message): State {
    if m.to < |s.daemons| && HoldsLease(s.daemons[m.to].phase) && s.daemons[m.to].identity.Some?
       && s.daemons[m.to].identity.value.token == m.token
    then s.(handoffs := s.handoffs + {(m.from, m.to)})
    else s
  }

  /** The handoff request goes to whichever process listens on the port at that moment. */
  function SendStep(s: State, i: nat): State
    requires i < |s.connectors|
  {
    var c := s.connectors[i];
    if !c.pc.SendToken? then s
    else if c.port in s.ports then
      var to := s.ports[c.port];
      SetPc(s, i, AwaitReply(c.pc.obs, c.pc.owner, c.pc.token, to))
        .(messages := s.messages + [Message(i, to, c.pc.token)])
    else SetPc(s, i, Waiting(c.pc.obs, c.pc.owner))
  }

  /** One step of connector `i`. */
  function ConnectorStep(s: State, i: nat, e: ConnectorEvent): State
    requires i < |s.connectors|
  {
    var c := s.connectors[i];
    match e
    case ReadHealth(reached) =>
      if !ReadsHealth(c.pc) then s
      else
        var h := if reached && c.port in s.ports && s.ports[c.port] < |s.daemons|
                 then HealthOf(s.daemons[s.ports[c.port]], c) else Unavailable;
        s.(connectors := s.connectors[i := c.(pc := AfterHealth(c, h), last := h)])
    case Probe =>
      if !c.pc.LeaseProbe? then s
      else if c.registry !in s.files then SetPc(s, i, AfterLeaseFree(c.pc.obs, c.pc.use))
      else if c.registry in s.leases then SetPc(s, i, LeaseRead(c.pc.obs, c.pc.use))
      else SetPc(s, i, ProbeHolds(c.pc.obs, c.pc.use)).(leases := s.leases[c.registry := ByProbe(i)])
    case ProbeUnlock =>
      if !c.pc.ProbeHolds? then s
      else SetPc(s, i, AfterLeaseFree(c.pc.obs, c.pc.use)).(leases := s.leases - {c.registry})
    case ReadLease =>
      if !c.pc.LeaseRead? || c.registry !in s.files then s
      else
        var p := ParseOwner(s.files[c.registry]);
        SetPc(s, i, if p.Malformed? then Failed else AfterLeaseHeld(c, c.pc.obs, c.pc.use, p.owner))
    case Send => SendStep(s, i)
    case Reply(arrived) =>
      if !c.pc.AwaitReply? then s
      else if arrived && (i, c.pc.to) !in s.handoffs then SetPc(s, i, Failed)
      else SetPc(s, i, Waiting(c.pc.obs, c.pc.owner))
    case Spawn(pid, executable, identity) =>
      var d := Daemon(c.version, c.schema, c.registry, c.port, pid, executable, Some(identity), Launched);
      if c.pc.Spawning? && Startable(s, d) then SetPc(StartDaemon(s, d), i, Polling) else s
    case GiveUp =>
      if c.pc.Polling? || c.pc.Waiting? then SetPc(s, i, Failed) else s
  }

  function Next(s: State, a: Action): State {
    match a
    case Launch(d) => StartDaemon(s, d)
    case Connect(v, schema, registry, port) =>
      s.(connectors := s.connectors + [Connector(v, schema, registry, port, First, Unavailable)])
    case OfDaemon(d, e) => if d < |s.daemons| then DaemonStep(s, d, e) else s
    case OfConnector(c, e) => if c < |s.connectors| then ConnectorStep(s, c, e) else s
    case Accept(m) => if m < |s.messages| then AcceptStep(s, s.messages[m]) else s
  }

  /** The state after a whole run. */
  function Run(actions: seq<Action>): State {
    if actions == [] then Initial() else Next(Run(actions[..|actions| - 1]), actions[|actions| - 1])
  }
}
