/**
  The execution owner's side of one bounded DevGuard session: connect and Hello, Authenticate,
  Status, Register, the mutex-held registered identity, then one request and its answer.

  A session is a program counter that moves on what each client call returned. What a call returns
  is an event: the model never decides it. Every event says whether its frame was written, because
  a call may fail before or after that.
*/
module Session {

  datatype Option<+T> = None | Some(value: T)

  datatype Reply<+T> = Ok(value: T) | Err(code: Code)

  /** DevGuard's error codes, without their messages. */
  datatype Code =
    | Unauthorized | InvalidRequest | AttemptConflict | ResourceUnavailable
    | ResourceControlUnavailable | ResourcePolicyUnsupported | InvalidTransition | NotFound
    | ReconciliationRequired | JournalInvalid

  datatype Role = Workload | ControlService | Administrator

  /** The identity DevGuard registers: the instance and the session's peer process. */
  datatype Identity = Identity(instanceId: string, bootId: string, pid: nat, startTicks: nat)

  datatype Key = Key(consumer: string, generation: string, attemptId: string)

  datatype Phase =
    | Denied | Prepared | LaunchCommitted | ScopeBound | RunAuthorized
    | Draining | Suspect | Released | Cancelled | Expired

  datatype Held = Held(quantity: nat, preparedAt: nat, deadline: nat)

  /** A record of DevGuard's journal. */
  datatype Record = Record(key: Key, fingerprint: string, owner: Identity, phase: Phase,
                           denial: Option<Code>, held: Option<Held>, trackingLost: bool)

  datatype Reservation = Reservation(quantity: nat, preparedTtl: nat)

  /** What the caller is told of a record: no identities and no digests. */
  datatype Attempt = Attempt(phase: Phase, denial: Option<Code>, reservation: Option<Reservation>,
                             trackingLost: bool)

  /** The one-time launch permit is an opaque token. */
  type Permit = nat

  datatype Grant = Grant(record: Record, permit: Option<Permit>)

  datatype RegistrationState =
    | Registered | Unavailable | UntrustedAuthority | Incompatible | CredentialUnavailable
    | CredentialRefused | RoleMismatch | NotReady | Refusal | OwnerMismatch

  datatype Registration = Registration(state: RegistrationState, error: Option<Code>, pid: Option<nat>)

  datatype Kind = RegisterOnly | Admit | Lookup | Cancel | Abandon | Observe | BeginLaunch

  /** What a session is for. `valid` and `fingerprint` are what DevGuard's contract makes of the
      admission: whether it validates on the wire, and its request fingerprint if it has one. */
  datatype Job = Job(kind: Kind, attemptId: string, valid: bool, fingerprint: Option<string>)

  /** How a session ended, as its caller sees it. */
  datatype Outcome =
    | RegisterEnded(registration: Registration)
    | NotSent(registration: Registration)
    | Refused(code: Code)
    | AttemptIs(attempt: Attempt)
    | Granted(attempt: Attempt, permit: Permit)
    | Unknown

  datatype Message = Hello | Authenticate | Status | Register(instanceId: string) | Ask(kind: Kind, key: Key)

  datatype Pc =
    | AtCredential
    | AtConnect
    | AtAuthenticate
    | AtStatus(role: Role)
    | AtRegister
    | AtSettle(instance: Identity)
    | AtAsk
    | AtAnswer
    | Done(outcome: Outcome)

  /** `sent` is every frame the session wrote, in order; `claimed` is the identity its own Register
      was answered with, once that has passed the mutex. */
  datatype State = State(job: Job, pc: Pc, sent: seq<Message>, claimed: Option<Identity>)

  /** The owner process: fixed identity and settings, and the identity of its first registration
      behind a mutex that a panicking holder can poison. */
  datatype Owner = Owner(instanceId: string, pid: nat, consumer: string, generation: string,
                         registered: Option<Identity>, poisoned: bool)

  datatype Event =
    | CredentialRead(ok: bool)
    | Connected(written: bool, reply: Reply<()>)
    | Authenticated(written: bool, role: Reply<Role>)
    | StatusRead(written: bool, ready: Reply<bool>)
    | RegisterAnswered(written: bool, instance: Reply<Identity>)
    | Locked
    | Asked(written: bool)
    | Answered(grant: Reply<Grant>)

  /** The event is the return of the call the session is in; only a written frame is answered. */
  predicate Fits(pc: Pc, e: Event) {
    match e
    case CredentialRead(_) => pc.AtCredential?
    case Connected(written, reply) => pc.AtConnect? && (reply.Ok? ==> written)
    case Authenticated(written, reply) => pc.AtAuthenticate? && (reply.Ok? ==> written)
    case StatusRead(written, reply) => pc.AtStatus? && (reply.Ok? ==> written)
    case RegisterAnswered(written, reply) => pc.AtRegister? && (reply.Ok? ==> written)
    case Locked => pc.AtSettle?
    case Asked(_) => pc.AtAsk?
    case Answered(_) => pc.AtAnswer?
  }

  function KeyOf(o: Owner, job: Job): Key {
    Key(o.consumer, o.generation, job.attemptId)
  }

  /** The record's fields the caller sees; the deadline is relative and never negative. */
  function View(r: Record): Attempt {
    Attempt(r.phase, r.denial,
            match r.held
            case None => None
            case Some(h) =>
              Some(Reservation(h.quantity, if h.deadline >= h.preparedAt then h.deadline - h.preparedAt else 0)),
            r.trackingLost)
  }

  datatype Step = ConnectStep | AuthenticateStep | StatusStep

  function Failed(step: Step, code: Code): Registration {
    var state :=
      match (step, code)
      case (ConnectStep, Unauthorized) => UntrustedAuthority
      case (ConnectStep, ResourcePolicyUnsupported) => Incompatible
      case (AuthenticateStep, Unauthorized) => CredentialRefused
      case _ => Unavailable;
    Registration(state, Some(code), None)
  }

  function RegisterRefusal(code: Code): Registration {
    var refused := code in {Unauthorized, AttemptConflict, ResourceUnavailable, InvalidRequest,
                            ResourcePolicyUnsupported};
    Registration(if refused then Refusal else Unavailable, Some(code), None)
  }

  /** A registration that stopped: the whole outcome of a registering session, and for any other
      one the reason its request was not sent. */
  function Stop(s: State, registration: Registration): State {
    s.(pc := Done(if s.job.kind.RegisterOnly? then RegisterEnded(registration) else NotSent(registration)))
  }

  function Wrote(s: State, written: bool, m: Message): State {
    if written then s.(sent := s.sent + [m]) else s
  }

  /** A session before its first call. A request that does not encode opens no session. */
  function Begin(job: Job): State {
    var refused := !job.kind.RegisterOnly? && (!job.valid || job.fingerprint.None?);
    State(job, if refused then Done(Refused(InvalidRequest)) else AtCredential, [], None)
  }

  /** The identity the owner's mutex holds, unless it is poisoned. */
  function RegisteredIdentity(o: Owner): Option<Identity> {
    if o.poisoned then None else o.registered
  }

  /** The record is this owner's record of this attempt for this meaning. */
  predicate Ours(o: Owner, job: Job, r: Record) {
    r.key == KeyOf(o, job) && Some(r.fingerprint) == job.fingerprint && RegisteredIdentity(o) == Some(r.owner)
  }

  /** What an answer to the request establishes. */
  function Judge(o: Owner, job: Job, reply: Reply<Grant>): Outcome {
    match reply
    case Err(ResourceControlUnavailable) => Unknown
    case Err(code) => Refused(code)
    case Ok(grant) =>
      if !Ours(o, job, grant.record) then Unknown
      else if !job.kind.BeginLaunch? then AttemptIs(View(grant.record))
      else if grant.permit.Some? && grant.record.phase.LaunchCommitted?
        then Granted(View(grant.record), grant.permit.value)
      else Unknown
  }

  /** The record is of exactly this request, by the identity the owner first registered. */
  ghost predicate Usable(o: Owner, job: Job, r: Record) {
    && r.key.consumer == o.consumer && r.key.generation == o.generation && r.key.attemptId == job.attemptId
    && job.fingerprint == Some(r.fingerprint)
    && !o.poisoned && o.registered == Some(r.owner)
  }

  /** What an attempt must say of a record: a reservation's time to live ends at its deadline, or at
      once when that had passed. */
  ghost predicate Describes(a: Attempt, r: Record) {
    && a.phase == r.phase && a.denial == r.denial && a.trackingLost == r.trackingLost
    && (a.reservation.Some? <==> r.held.Some?)
    && (a.reservation.Some? ==>
          && a.reservation.value.quantity == r.held.value.quantity
          && var until := r.held.value.preparedAt + a.reservation.value.preparedTtl;
             && until >= r.held.value.deadline
             && (until == r.held.value.deadline || a.reservation.value.preparedTtl == 0))
  }

  /** Exactly what an answer is reported as: an error by its own code, except the transport's; a usable
      record as itself, and one that begins a launch only when committed and with its permit. */
  ghost predicate ReportedAs(o: Owner, job: Job, reply: Reply<Grant>, outcome: Outcome) {
    && (outcome.Unknown? || outcome.Refused? || outcome.AttemptIs? || outcome.Granted?)
    && (forall code :: outcome == Refused(code) <==> reply == Err(code) && code != ResourceControlUnavailable)
    && (outcome.Unknown? <==>
        || reply == Err(ResourceControlUnavailable)
        || (reply.Ok? && !Usable(o, job, reply.value.record))
        || (reply.Ok? && job.kind.BeginLaunch?
            && (reply.value.permit.None? || !reply.value.record.phase.LaunchCommitted?)))
    && (outcome.AttemptIs? ==> !job.kind.BeginLaunch?) && (outcome.Granted? ==> job.kind.BeginLaunch?)
    && (outcome.AttemptIs? || outcome.Granted? ==> reply.Ok? && Describes(outcome.attempt, reply.value.record))
    && (outcome.Granted? ==> reply.value.permit == Some(outcome.permit))
  }

  lemma ReportsExactly(o: Owner, job: Job, reply: Reply<Grant>)
    ensures ReportedAs(o, job, reply, Judge(o, job, reply))
  {
  }

  /** The block that holds the mutex: the first registered identity sticks, and every later one
      must be the same. */
  function Settle(o: Owner, s: State): (r: (Owner, State))
    requires s.pc.AtSettle?
  {
    var instance := s.pc.instance;
    if o.poisoned || (o.registered.Some? && o.registered.value != instance) then
      (o, Stop(s, Registration(OwnerMismatch, None, None)))
    else
      var next :=
        if s.job.kind.RegisterOnly?
          then Done(RegisterEnded(Registration(Registered, None, Some(instance.pid))))
        else AtAsk;
      (o.(registered := Some(instance)), s.(pc := next, claimed := Some(instance)))
  }

  /** One move of a session. */
  function Advance(o: Owner, s: State, e: Event): (r: (Owner, State))
    requires Fits(s.pc, e)
  {
    match e
    case CredentialRead(ok) =>
      (o, if ok then s.(pc := AtConnect) else Stop(s, Registration(CredentialUnavailable, None, None)))
    case Connected(written, reply) =>
      var t := Wrote(s, written, Hello);
      (o, if reply.Ok? then t.(pc := AtAuthenticate) else Stop(t, Failed(ConnectStep, reply.code)))
    case Authenticated(written, role) =>
      var t := Wrote(s, written, Authenticate);
      (o, if role.Ok? then t.(pc := AtStatus(role.value)) else Stop(t, Failed(AuthenticateStep, role.code)))
    case StatusRead(written, ready) =>
      var t := Wrote(s, written, Status);
      (o, if ready.Err? then Stop(t, Failed(StatusStep, ready.code))
          else if !s.pc.role.ControlService? then Stop(t, Registration(RoleMismatch, None, None))
          else if !ready.value then Stop(t, Registration(NotReady, None, None))
          else t.(pc := AtRegister))
    case RegisterAnswered(written, instance) =>
      var t := Wrote(s, written, Register(o.instanceId));
      (o, if instance.Err? then Stop(t, RegisterRefusal(instance.code))
          else if instance.value.instanceId != o.instanceId || instance.value.pid != o.pid
            then Stop(t, Registration(OwnerMismatch, None, None))
          else t.(pc := AtSettle(instance.value)))
    case Locked => Settle(o, s)
    case Asked(written) =>
      var t := Wrote(s, written, Ask(s.job.kind, KeyOf(o, s.job)));
      (o, t.(pc := if written then AtAnswer else Done(Unknown)))
    case Answered(grant) =>
      (o, s.(pc := Done(Judge(o, s.job, grant))))
  }

  /** Everything a session may ever write, in order. */
  function Transcript(o: Owner, job: Job): seq<Message> {
    [Hello, Authenticate, Status, Register(o.instanceId)]
    + if job.kind.RegisterOnly? then [] else [Ask(job.kind, KeyOf(o, job))]
  }

  /** The owner's fixed part. */
  predicate SameOwner(o: Owner, p: Owner) {
    o.instanceId == p.instanceId && o.pid == p.pid && o.consumer == p.consumer && o.generation == p.generation
  }

  /** How many frames a session in progress has written. */
  function Written(pc: Pc): nat
    requires !pc.Done?
  {
    match pc
    case AtCredential => 0
    case AtConnect => 0
    case AtAuthenticate => 1
    case AtStatus(_) => 2
    case AtRegister => 3
    case AtSettle(_) => 4
    case AtAsk => 4
    case AtAnswer => 5
  }

  /** What holds of one session whatever DevGuard and the other sessions do. */
  ghost predicate Orderly(o: Owner, s: State) {
    var all := Transcript(o, s.job);
    && s.sent <= all
    && (!s.pc.Done? ==> |s.sent| == Written(s.pc))
    && (s.pc.AtAsk? || s.pc.AtAnswer? ==> !s.job.kind.RegisterOnly?)
    && (s.pc.AtSettle? ==> s.pc.instance.instanceId == o.instanceId && s.pc.instance.pid == o.pid)
    && (s.pc.AtAsk? || |s.sent| == 5 ==> s.claimed.Some?)
    && (s.claimed.Some? ==> o.registered == s.claimed)
    && (o.registered.Some? ==> o.registered.value.instanceId == o.instanceId && o.registered.value.pid == o.pid)
    && (s.pc.Done? ==> OutcomeFits(o, s))
  }

  /** How an outcome relates to what was written and registered. */
  ghost predicate OutcomeFits(o: Owner, s: State)
    requires s.pc.Done?
  {
    match s.pc.outcome
    case RegisterEnded(reg) =>
      && s.job.kind.RegisterOnly?
      && (reg.state.Registered? ==> |s.sent| == 4 && s.claimed.Some? && reg.pid == Some(s.claimed.value.pid))
    case NotSent(reg) => !s.job.kind.RegisterOnly? && |s.sent| <= 4 && !reg.state.Registered?
    case Refused(code) => !s.job.kind.RegisterOnly? && |s.sent| in {0, 5}
    case AttemptIs(_) => !s.job.kind.RegisterOnly? && !s.job.kind.BeginLaunch? && |s.sent| == 5
    case Granted(_, _) => s.job.kind.BeginLaunch? && |s.sent| == 5
    case Unknown => !s.job.kind.RegisterOnly? && 4 <= |s.sent| <= 5
  }

  lemma BeginIsOrderly(o: Owner, job: Job)
    requires o.registered.Some? ==> o.registered.value.instanceId == o.instanceId && o.registered.value.pid == o.pid
    ensures Orderly(o, Begin(job))
  {
  }

  /** A move writes nothing, or the next frame of the transcript. */
  lemma AdvanceWritesInOrder(o: Owner, s: State, e: Event)
    requires Orderly(o, s) && Fits(s.pc, e)
    ensures var all, t := Transcript(o, s.job), Advance(o, s, e).1;
            && t.job == s.job && |t.sent| <= |all| && s.sent <= t.sent <= all
            && (!t.pc.Done? ==> |t.sent| == Written(t.pc))
  {
    var all, t := Transcript(o, s.job), Advance(o, s, e).1;
    if |t.sent| > |s.sent| {
      assert t.sent == s.sent + [all[|s.sent|]];
    }
  }

  /** One move keeps a session orderly, and the owner's registered identity is set at most once. */
  lemma AdvanceIsOrderly(o: Owner, s: State, e: Event)
    requires Orderly(o, s) && Fits(s.pc, e)
    ensures var (p, t) := Advance(o, s, e);
            && SameOwner(o, p) && t.job == s.job && s.sent <= t.sent
            && (o.registered.Some? ==> p.registered == o.registered)
            && (p.registered != o.registered ==> s.pc.AtSettle?)
            && Orderly(p, t)
  {
    AdvanceWritesInOrder(o, s, e);
    assert Transcript(Advance(o, s, e).0, s.job) == Transcript(o, s.job);
  }

  /** Another session's move never spoils this one. */
  lemma OthersStayOrderly(o: Owner, p: Owner, s: State)
    requires Orderly(o, s) && SameOwner(o, p)
    requires o.registered.Some? ==> p.registered == o.registered
    requires p.registered.Some? ==> p.registered.value.instanceId == p.instanceId && p.registered.value.pid == p.pid
    ensures Orderly(p, s)
  {
  }
}
