/**
  Any number of sessions of one owner, interleaved, against an authority behind a lossy channel.

  The authority is DevGuard's: it is not part of the repository, so what it does is an action with
  a guard. An unconstrained authority answers anything. A transactional one keeps what the owner's
  module comments promise: each request is one journal transaction, an error answer commits nothing,
  an answered record is the journal's after the commit, and an attempt's permit is issued once.
  Replies may be lost or late, and the answered record may be another attempt's.
*/
module Authority {
  import opened Session

  /** Where a session's request is: written and not yet processed, or processed and answered. */
  datatype Transit = Pending | Replied(reply: Reply<Grant>)

  /** A transaction that changed the journal: whose request it was and what it answered. */
  datatype Commit = Commit(sid: nat, grant: Grant, before: map<Key, Record>, after: map<Key, Record>)

  datatype World = World(owner: Owner, sessions: map<nat, State>, channel: map<nat, Transit>,
                         journal: map<Key, Record>, permits: map<Permit, Key>, commits: seq<Commit>)

  datatype Action =
    | Open(sid: nat, job: Job)
    // A call of the session before its request returns, or its request is written.
    | Move(sid: nat, event: Event)
    // The authority processes a written request, perhaps long after the session gave up.
    | Transact(sid: nat, reply: Reply<Grant>, journal: map<Key, Record>)
    // The session reads the answer, or its transport fails instead.
    | Deliver(sid: nat)
    | Lose(sid: nat)
    // Other consumers, expiry and settlement change the journal and issue other permits.
    | Elsewhere(journal: map<Key, Record>, permits: map<Permit, Key>)
    | Poison

  ghost predicate OnePermitPerAttempt(permits: map<Permit, Key>) {
    forall p, q | p in permits && q in permits && permits[p] == permits[q] :: p == q
  }

  ghost predicate Extends(permits: map<Permit, Key>, more: map<Permit, Key>) {
    forall p | p in permits :: p in more && more[p] == permits[p]
  }

  /** What a transactional authority promises of one answer. */
  ghost predicate Transactional(w: World, kind: Kind, reply: Reply<Grant>, journal: map<Key, Record>) {
    match reply
    case Err(_) => journal == w.journal
    case Ok(Grant(record, permit)) =>
      && record.key in journal && journal[record.key] == record
      && (permit.Some? ==>
            kind.BeginLaunch? && permit.value !in w.permits && record.key !in w.permits.Values)
  }

  ghost predicate Allowed(w: World, a: Action, transactional: bool) {
    match a
    case Open(sid, _) => sid !in w.sessions
    case Move(sid, e) => sid in w.sessions && !e.Answered? && Fits(w.sessions[sid].pc, e)
    case Transact(sid, reply, journal) =>
      && sid in w.sessions && sid in w.channel && w.channel[sid].Pending?
      && (transactional ==> Transactional(w, w.sessions[sid].job.kind, reply, journal))
    case Deliver(sid) =>
      sid in w.sessions && w.sessions[sid].pc.AtAnswer? && sid in w.channel && w.channel[sid].Replied?
    case Lose(sid) => sid in w.sessions && w.sessions[sid].pc.AtAnswer?
    case Elsewhere(_, permits) =>
      transactional ==> Extends(w.permits, permits) && OnePermitPerAttempt(permits)
    case Poison => true
  }

  /** The session takes a step of its own. */
  ghost function Stepped(w: World, sid: nat, e: Event): World
    requires sid in w.sessions && Fits(w.sessions[sid].pc, e)
  {
    var (o, s) := Advance(w.owner, w.sessions[sid], e);
    var channel := if e.Asked? && e.written then w.channel[sid := Pending] else w.channel;
    w.(owner := o, sessions := w.sessions[sid := s], channel := channel)
  }

  ghost function Perform(w: World, a: Action): World
    requires Allowed(w, a, false)
  {
    match a
    case Open(sid, job) => w.(sessions := w.sessions[sid := Begin(job)])
    case Move(sid, e) => Stepped(w, sid, e)
    case Transact(sid, reply, journal) =>
      var t := w.(channel := w.channel[sid := Replied(reply)], journal := journal);
      if reply.Err? then t
      else
        var permits :=
          if reply.value.permit.Some? then w.permits[reply.value.permit.value := reply.value.record.key] else w.permits;
        t.(permits := permits, commits := w.commits + [Commit(sid, reply.value, w.journal, journal)])
    case Deliver(sid) => Stepped(w, sid, Answered(w.channel[sid].reply))
    // DevGuard's client gives one code for every transport failure.
    case Lose(sid) => Stepped(w, sid, Answered(Err(ResourceControlUnavailable)))
    case Elsewhere(journal, permits) => w.(journal := journal, permits := permits)
    case Poison => w.(owner := w.owner.(poisoned := true))
  }

  ghost predicate Legal(w: World, actions: seq<Action>, transactional: bool)
    decreases |actions|
  {
    actions == [] ||
    (Allowed(w, actions[0], transactional) && Allowed(w, actions[0], false)
     && Legal(Perform(w, actions[0]), actions[1..], transactional))
  }

  /** The world after a run. */
  ghost function Run(w: World, actions: seq<Action>): World
    requires Legal(w, actions, false)
    decreases |actions|
  {
    if actions == [] then w else Run(Perform(w, actions[0]), actions[1..])
  }

  ghost predicate Initial(w: World) {
    && w.owner.registered.None? && !w.owner.poisoned
    && w.sessions == map[] && w.channel == map[] && w.commits == []
    && OnePermitPerAttempt(w.permits)
  }

  /** A run of a transactional authority is a run of an unconstrained one. */
  lemma LegalIsLegal(w: World, actions: seq<Action>)
    requires Legal(w, actions, true)
    ensures Legal(w, actions, false)
    decreases |actions|
  {
    if actions != [] {
      LegalIsLegal(Perform(w, actions[0]), actions[1..]);
    }
  }

  // ---------------------------------------------------------------- whatever the authority does

  /** The owner's identity is its own, and every session is orderly. */
  ghost predicate OwnerInv(w: World) {
    && (w.owner.registered.Some? ==>
          w.owner.registered.value.instanceId == w.owner.instanceId && w.owner.registered.value.pid == w.owner.pid)
    && forall sid {:trigger Orderly(w.owner, w.sessions[sid])} | sid in w.sessions :: Orderly(w.owner, w.sessions[sid])
  }

  /** What only grows along a run: the sticky identity, each session's transcript, its outcome. */
  ghost predicate Later(w: World, v: World) {
    && SameOwner(w.owner, v.owner)
    && (w.owner.registered.Some? ==> v.owner.registered == w.owner.registered)
    && forall sid | sid in w.sessions ::
         && sid in v.sessions && v.sessions[sid].job == w.sessions[sid].job
         && w.sessions[sid].sent <= v.sessions[sid].sent
         && (w.sessions[sid].pc.Done? ==> v.sessions[sid] == w.sessions[sid])
  }

  lemma SteppedKeepsOwner(w: World, sid: nat, e: Event)
    requires OwnerInv(w) && sid in w.sessions && Fits(w.sessions[sid].pc, e)
    ensures OwnerInv(Stepped(w, sid, e)) && Later(w, Stepped(w, sid, e))
  {
    var v := Stepped(w, sid, e);
    AdvanceIsOrderly(w.owner, w.sessions[sid], e);
    forall other | other in v.sessions ensures Orderly(v.owner, v.sessions[other]) {
      if other != sid {
        OthersStayOrderly(w.owner, v.owner, w.sessions[other]);
      }
    }
  }

  lemma RestKeepsOwner(w: World, a: Action)
    requires OwnerInv(w) && (a.Open? || a.Transact? || a.Elsewhere? || a.Poison?) && Allowed(w, a, false)
    ensures OwnerInv(Perform(w, a)) && Later(w, Perform(w, a))
  {
    var v := Perform(w, a);
    assert SameOwner(w.owner, v.owner) && v.owner.registered == w.owner.registered;
    if a.Open? {
      BeginIsOrderly(w.owner, a.job);
    }
    forall other | other in w.sessions ensures Orderly(v.owner, w.sessions[other]) {
      OthersStayOrderly(w.owner, v.owner, w.sessions[other]);
    }
  }

  lemma PerformKeepsOwner(w: World, a: Action)
    requires OwnerInv(w) && Allowed(w, a, false)
    ensures OwnerInv(Perform(w, a)) && Later(w, Perform(w, a))
  {
    match a
    case Move(sid, e) => SteppedKeepsOwner(w, sid, e);
    case Deliver(sid) => SteppedKeepsOwner(w, sid, Answered(w.channel[sid].reply));
    case Lose(sid) => SteppedKeepsOwner(w, sid, Answered(Err(ResourceControlUnavailable)));
    case _ => RestKeepsOwner(w, a);
  }

  lemma {:induction false} RunKeepsOwner(w: World, actions: seq<Action>)
    requires OwnerInv(w) && Legal(w, actions, false)
    ensures OwnerInv(Run(w, actions)) && Later(w, Run(w, actions))
    decreases |actions|
  {
    if actions != [] {
      PerformKeepsOwner(w, actions[0]);
      RunKeepsOwner(Perform(w, actions[0]), actions[1..]);
    }
  }

  /** For every interleaving and every authority: the registered identity never changes once set,
      a session that registered did so under that identity, and what a session wrote is a prefix of
      Hello, Authenticate, Status, Register and its one request, which it wrote only after its own
      Register was answered with that identity. */
  lemma StickyIdentity(w: World, before: seq<Action>, after: seq<Action>, sid: nat)
    requires Initial(w) && Legal(w, before, false) && Legal(Run(w, before), after, false)
    requires sid in Run(w, before).sessions
    ensures var u, v := Run(w, before), Run(Run(w, before), after);
            && sid in v.sessions
            && (u.owner.registered.Some? ==> v.owner.registered == u.owner.registered)
            && v.sessions[sid].sent <= Transcript(w.owner, v.sessions[sid].job)
            && (v.sessions[sid].pc.Done? && v.sessions[sid].pc.outcome.RegisterEnded?
                && v.sessions[sid].pc.outcome.registration.state.Registered? ==>
                  && v.owner.registered.Some? && v.sessions[sid].claimed == v.owner.registered
                  && v.sessions[sid].pc.outcome.registration.pid == Some(v.owner.registered.value.pid)
                  && v.owner.registered.value.instanceId == w.owner.instanceId)
            && (|u.sessions[sid].sent| == 5 ==>
                  && u.owner.registered.Some? && u.sessions[sid].claimed == u.owner.registered
                  && u.owner.registered.value.pid == w.owner.pid)
  {
    RunKeepsOwner(w, before);
    var u := Run(w, before);
    RunKeepsOwner(u, after);
    var v := Run(u, after);
    assert Orderly(u.owner, u.sessions[sid]) && Orderly(v.owner, v.sessions[sid]);
    assert Transcript(v.owner, v.sessions[sid].job) == Transcript(w.owner, v.sessions[sid].job);
  }

  ghost predicate OpenedFor(actions: seq<Action>, sid: nat, job: Job) {
    exists i :: 0 <= i < |actions| && actions[i] == Open(sid, job)
  }

  /** A run's sessions are those that were opened, each for the job it was opened with. */
  lemma {:induction false} SessionsWereOpened(w: World, actions: seq<Action>, sid: nat, job: Job)
    requires OwnerInv(w) && Legal(w, actions, false)
    ensures var v := Run(w, actions);
            sid in v.sessions && v.sessions[sid].job == job <==>
              (sid in w.sessions && w.sessions[sid].job == job) || (sid !in w.sessions && OpenedFor(actions, sid, job))
    decreases |actions|
  {
    if actions != [] {
      var v, rest := Perform(w, actions[0]), actions[1..];
      PerformKeepsOwner(w, actions[0]);
      RunKeepsOwner(v, rest);
      SessionsWereOpened(v, rest, sid, job);
      OpenedFirst(actions, sid, job);
      if actions[0].Open? && actions[0].sid == sid {
        assert sid in v.sessions && v.sessions[sid].job == actions[0].job;
        OpenedOnce(v, rest, sid);
      } else {
        assert sid in v.sessions <==> sid in w.sessions;
      }
    }
  }

  lemma OpenedFirst(actions: seq<Action>, sid: nat, job: Job)
    requires actions != []
    ensures OpenedFor(actions, sid, job) <==> actions[0] == Open(sid, job) || OpenedFor(actions[1..], sid, job)
  {
    assert forall i | 0 < i < |actions| :: actions[i] == actions[1..][i - 1];
    assert forall i | 0 <= i < |actions[1..]| :: actions[1..][i] == actions[i + 1];
  }

  lemma {:induction false} OpenedOnce(w: World, actions: seq<Action>, sid: nat)
    requires OwnerInv(w) && Legal(w, actions, false) && sid in w.sessions
    ensures forall job :: !OpenedFor(actions, sid, job)
    decreases |actions|
  {
    if actions != [] {
      PerformKeepsOwner(w, actions[0]);
      OpenedOnce(Perform(w, actions[0]), actions[1..], sid);
      forall job ensures !OpenedFor(actions, sid, job) {
        OpenedFirst(actions, sid, job);
      }
    }
  }

  /** How a session that waits for its answer ends: the answer is lost, or delivered to the owner as it
      then is. */
  datatype Ending = AnswerLost | AnswerDelivered(owner: Owner, reply: Reply<Grant>)

  ghost function EndingOf(w: World, actions: seq<Action>, sid: nat): Option<Ending>
    requires Legal(w, actions, false)
    decreases |actions|
  {
    if actions == [] then None
    else if actions[0] == Lose(sid) then Some(AnswerLost)
    else if actions[0] == Deliver(sid) then Some(AnswerDelivered(w.owner, w.channel[sid].reply))
    else EndingOf(Perform(w, actions[0]), actions[1..], sid)
  }

  /** What a waiting session becomes: itself, until its answer is lost or delivered. */
  ghost predicate EndsAs(waiting: State, s: State, ending: Option<Ending>) {
    match ending
    case None => s == waiting
    case Some(AnswerLost) => s.pc == Done(Unknown)
    case Some(AnswerDelivered(o, reply)) => s.pc.Done? && ReportedAs(o, waiting.job, reply, s.pc.outcome)
  }

  /** Only its own loss or delivery moves a session that waits for its answer. */
  lemma WaitsForItsAnswer(w: World, a: Action, sid: nat)
    requires Allowed(w, a, false) && sid in w.sessions && w.sessions[sid].pc.AtAnswer?
    requires a != Lose(sid) && a != Deliver(sid)
    ensures sid in Perform(w, a).sessions && Perform(w, a).sessions[sid] == w.sessions[sid]
  {
  }

  /** Over every run, whatever the authority does: a session that waits for its answer goes on waiting
      until that is lost or delivered. Lost, it ends Unknown. Delivered, a usable answer is reported as
      what it is, and Unknown only for the transport's code, for a record that is not this request's, and
      for a launch without a permit or not committed. */
  lemma {:induction false} AnswersAreReported(w: World, actions: seq<Action>, sid: nat)
    requires OwnerInv(w) && Legal(w, actions, false) && sid in w.sessions && w.sessions[sid].pc.AtAnswer?
    ensures var v := Run(w, actions);
            sid in v.sessions && EndsAs(w.sessions[sid], v.sessions[sid], EndingOf(w, actions, sid))
    decreases |actions|
  {
    if actions != [] {
      var v := Perform(w, actions[0]);
      PerformKeepsOwner(w, actions[0]);
      RunKeepsOwner(v, actions[1..]);
      if actions[0] == Deliver(sid) {
        ReportsExactly(w.owner, w.sessions[sid].job, w.channel[sid].reply);
      } else if actions[0] != Lose(sid) {
        WaitsForItsAnswer(w, actions[0], sid);
        AnswersAreReported(v, actions[1..], sid);
      }
    }
  }

  /** Once the owner is poisoned it stays so. */
  lemma {:induction false} PoisonStays(w: World, actions: seq<Action>)
    requires Legal(w, actions, false) && (w.owner.poisoned || Poison in actions)
    ensures Run(w, actions).owner.poisoned
    decreases |actions|
  {
    if actions != [] {
      PoisonStays(Perform(w, actions[0]), actions[1..]);
    }
  }

  lemma {:induction false} DeliveredPoisoned(w: World, actions: seq<Action>, sid: nat)
    requires Legal(w, actions, false) && w.owner.poisoned
    ensures var ending := EndingOf(w, actions, sid);
            ending.Some? && ending.value.AnswerDelivered? ==> ending.value.owner.poisoned
    decreases |actions|
  {
    if actions != [] {
      PoisonStays(w, [actions[0]]);
      DeliveredPoisoned(Perform(w, actions[0]), actions[1..], sid);
    }
  }

  /** After the owner was poisoned, no answer that arrives makes a session report an attempt or a permit. */
  lemma PoisonedReportsNothing(w: World, before: seq<Action>, after: seq<Action>, sid: nat)
    requires OwnerInv(w) && Legal(w, before, false) && Poison in before && Legal(Run(w, before), after, false)
    requires sid in Run(w, before).sessions && Run(w, before).sessions[sid].pc.AtAnswer?
    ensures var v := Run(Run(w, before), after);
            && sid in v.sessions
            && (v.sessions[sid].pc.Done? ==> !v.sessions[sid].pc.outcome.AttemptIs? && !v.sessions[sid].pc.outcome.Granted?)
  {
    RunKeepsOwner(w, before);
    PoisonStays(w, before);
    DeliveredPoisoned(Run(w, before), after, sid);
    AnswersAreReported(Run(w, before), after, sid);
  }

  // ---------------------------------------------------------------- under a transactional authority

  /** The journal's side of one session. A request is in the channel exactly when it was written, and
      it committed exactly when it was answered with a record. */
  ghost predicate Traced(w: World, sid: nat)
    requires sid in w.sessions
  {
    var s := w.sessions[sid];
    && (sid in w.channel <==> |s.sent| == 5)
    && (sid in w.channel && w.channel[sid].Replied? && w.channel[sid].reply.Ok? <==> CommittedBy(w, sid))
    && (sid in w.channel && w.channel[sid].Replied? && w.channel[sid].reply.Ok? ==>
          CommittedAs(w, sid, w.channel[sid].reply.value))
    && (s.pc.Done? ==>
          match s.pc.outcome
          case Refused(code) =>
            |s.sent| == 5 ==> w.channel[sid] == Replied(Err(code)) && !code.ResourceControlUnavailable?
          case AttemptIs(attempt) =>
            && sid in w.channel && w.channel[sid].Replied? && w.channel[sid].reply.Ok?
            && var r := w.channel[sid].reply.value.record;
               attempt == View(r) && ForJob(w, s, r)
          case Granted(attempt, permit) =>
            && sid in w.channel && w.channel[sid].Replied? && w.channel[sid].reply.Ok?
            && var Grant(r, p) := w.channel[sid].reply.value;
               attempt == View(r) && ForJob(w, s, r) && p == Some(permit) && r.phase.LaunchCommitted?
          case _ => true)
  }

  /** The record is for exactly this session's key and fingerprint, and for the owner's identity. */
  ghost predicate ForJob(w: World, s: State, r: Record) {
    r.key == KeyOf(w.owner, s.job) && Some(r.fingerprint) == s.job.fingerprint && w.owner.registered == Some(r.owner)
  }

  ghost predicate CommittedBy(w: World, sid: nat) {
    exists i :: 0 <= i < |w.commits| && w.commits[i].sid == sid
  }

  ghost predicate CommittedAs(w: World, sid: nat, grant: Grant) {
    exists i :: 0 <= i < |w.commits| && w.commits[i].sid == sid && w.commits[i].grant == grant
  }

  /** Commits belong to distinct sessions, answered records the journal then held, and carried
      permits that are issued and each carried once. */
  ghost predicate CommitsInv(w: World) {
    && OnePermitPerAttempt(w.permits)
    && (forall i, j | 0 <= i < j < |w.commits| :: w.commits[i].sid != w.commits[j].sid)
    && (forall i, j | 0 <= i < j < |w.commits| && w.commits[i].grant.permit.Some? ::
          w.commits[i].grant.permit != w.commits[j].grant.permit)
    && forall i | 0 <= i < |w.commits| ::
         var c := w.commits[i];
         && c.sid in w.sessions
         && c.grant.record.key in c.after && c.after[c.grant.record.key] == c.grant.record
         && (c.grant.permit.Some? ==>
               c.grant.permit.value in w.permits && w.permits[c.grant.permit.value] == c.grant.record.key)
  }

  ghost predicate Inv(w: World) {
    && OwnerInv(w) && CommitsInv(w)
    && (forall sid | sid in w.channel :: sid in w.sessions)
    && forall sid {:trigger Traced(w, sid)} | sid in w.sessions :: Traced(w, sid)
  }

  /** Nothing changes for a session that did not move while another one's commit was added. */
  lemma OthersStayTraced(w: World, v: World, sid: nat)
    requires sid in w.sessions && Traced(w, sid) && Orderly(w.owner, w.sessions[sid])
    requires sid in v.sessions && v.sessions[sid] == w.sessions[sid]
    requires (sid in v.channel <==> sid in w.channel) && (sid in w.channel ==> v.channel[sid] == w.channel[sid])
    requires SameOwner(w.owner, v.owner) && (w.owner.registered.Some? ==> v.owner.registered == w.owner.registered)
    requires w.commits <= v.commits
    requires forall i | |w.commits| <= i < |v.commits| :: v.commits[i].sid != sid
    ensures Traced(v, sid)
  {
  }

  /** The session that moves stays traced. */
  lemma MoverStaysTraced(w: World, sid: nat, e: Event)
    requires sid in w.sessions && Fits(w.sessions[sid].pc, e)
    requires Orderly(w.owner, w.sessions[sid]) && Traced(w, sid)
    requires e.Answered? ==>
               || e == Answered(Err(ResourceControlUnavailable))
               || (sid in w.channel && w.channel[sid] == Replied(e.grant))
    ensures Traced(Stepped(w, sid, e), sid)
  {
    var v := Stepped(w, sid, e);
    AdvanceIsOrderly(w.owner, w.sessions[sid], e);
    assert CommittedBy(v, sid) == CommittedBy(w, sid);
    if CommittedBy(w, sid) {
      assert CommittedAs(v, sid, w.channel[sid].reply.value);
    }
  }

  lemma SteppedKeepsJournal(w: World, sid: nat, e: Event)
    requires Inv(w) && sid in w.sessions && Fits(w.sessions[sid].pc, e)
    requires e.Answered? ==>
               || e == Answered(Err(ResourceControlUnavailable))
               || (sid in w.channel && w.channel[sid] == Replied(e.grant))
    ensures Inv(Stepped(w, sid, e))
  {
    var v := Stepped(w, sid, e);
    SteppedKeepsOwner(w, sid, e);
    MoverStaysTraced(w, sid, e);
    forall other | other in v.sessions && other != sid ensures Traced(v, other) {
      OthersStayTraced(w, v, other);
    }
  }

  lemma TransactKeepsCommits(w: World, a: Action)
    requires Inv(w) && a.Transact? && Allowed(w, a, true) && Allowed(w, a, false)
    ensures CommitsInv(Perform(w, a)) && Traced(Perform(w, a), a.sid)
  {
    var v := Perform(w, a);
    assert Traced(w, a.sid) && !CommittedBy(w, a.sid);
    if a.reply.Ok? {
      assert v.commits[|w.commits|] == Commit(a.sid, a.reply.value, w.journal, a.journal);
      assert forall i | 0 <= i < |w.commits| :: v.commits[i] == w.commits[i];
    }
  }

  lemma TransactKeepsJournal(w: World, a: Action)
    requires Inv(w) && a.Transact? && Allowed(w, a, true) && Allowed(w, a, false)
    ensures Inv(Perform(w, a))
  {
    var v := Perform(w, a);
    PerformKeepsOwner(w, a);
    TransactKeepsCommits(w, a);
    forall other | other in w.sessions && other != a.sid ensures Traced(v, other) {
      OthersStayTraced(w, v, other);
    }
  }

  lemma OpenKeepsJournal(w: World, a: Action)
    requires Inv(w) && a.Open? && Allowed(w, a, false)
    ensures Inv(Perform(w, a))
  {
    var v := Perform(w, a);
    PerformKeepsOwner(w, a);
    forall other | other in w.sessions ensures Traced(v, other) {
      OthersStayTraced(w, v, other);
    }
    assert !CommittedBy(v, a.sid);
  }

  lemma RestKeepsJournal(w: World, a: Action)
    requires Inv(w) && (a.Elsewhere? || a.Poison?) && Allowed(w, a, true) && Allowed(w, a, false)
    ensures Inv(Perform(w, a))
  {
    var v := Perform(w, a);
    PerformKeepsOwner(w, a);
    forall other | other in w.sessions ensures Traced(v, other) {
      OthersStayTraced(w, v, other);
    }
  }

  lemma PerformKeepsJournal(w: World, a: Action)
    requires Inv(w) && Allowed(w, a, true) && Allowed(w, a, false)
    ensures Inv(Perform(w, a))
  {
    match a
    case Open(_, _) => OpenKeepsJournal(w, a);
    case Move(sid, e) => SteppedKeepsJournal(w, sid, e);
    case Transact(_, _, _) => TransactKeepsJournal(w, a);
    case Deliver(sid) => SteppedKeepsJournal(w, sid, Answered(w.channel[sid].reply));
    case Lose(sid) => SteppedKeepsJournal(w, sid, Answered(Err(ResourceControlUnavailable)));
    case _ => RestKeepsJournal(w, a);
  }

  lemma {:induction false} RunKeepsJournal(w: World, actions: seq<Action>)
    requires Inv(w) && Legal(w, actions, true) && Legal(w, actions, false)
    ensures Inv(Run(w, actions))
    decreases |actions|
  {
    if actions != [] {
      PerformKeepsJournal(w, actions[0]);
      RunKeepsJournal(Perform(w, actions[0]), actions[1..]);
    }
  }

  /** A transactional run from a fresh owner. */
  lemma ReachableInv(w: World, actions: seq<Action>)
    requires Initial(w) && Legal(w, actions, true)
    ensures Legal(w, actions, false) && Inv(Run(w, actions))
  {
    LegalIsLegal(w, actions);
    RunKeepsJournal(w, actions);
  }

  /** The commit of this session's request, with a record the journal then held, for exactly this
      key, fingerprint and owner. */
  ghost predicate Proven(w: World, sid: nat, attempt: Attempt, permit: Option<Permit>)
    requires sid in w.sessions
  {
    exists i :: 0 <= i < |w.commits| &&
      var Commit(who, Grant(r, p), _, after) := w.commits[i];
      && who == sid && ForJob(w, w.sessions[sid], r) && attempt == View(r)
      && r.key in after && after[r.key] == r
      && (permit.Some? ==> p == permit && p.value in w.permits && w.permits[p.value] == r.key
                           && r.phase.LaunchCommitted?)
  }

  /** Over every run with lost, late and misaddressed replies: once a session has ended, its outcome
      stands, and at any later point of the run NotSent and Refused still mean that its request
      committed nothing, while Attempt and Granted mean a commit that held that very record. */
  lemma AnswersAreSound(w: World, before: seq<Action>, after: seq<Action>, sid: nat)
    requires Initial(w) && Legal(w, before, true) && Legal(w, before, false)
    requires Legal(Run(w, before), after, true) && Legal(Run(w, before), after, false)
    requires sid in Run(w, before).sessions && Run(w, before).sessions[sid].pc.Done?
    ensures var u, v := Run(w, before), Run(Run(w, before), after);
            && sid in v.sessions && v.sessions[sid] == u.sessions[sid]
            && match u.sessions[sid].pc.outcome
               case RegisterEnded(_) => !CommittedBy(v, sid)
               case NotSent(_) => !CommittedBy(v, sid)
               case Refused(_) => !CommittedBy(v, sid)
               case AttemptIs(attempt) => Proven(v, sid, attempt, None)
               case Granted(attempt, permit) => Proven(v, sid, attempt, Some(permit))
               case Unknown => true
  {
    ReachableInv(w, before);
    var u := Run(w, before);
    RunKeepsOwner(u, after);
    RunKeepsJournal(u, after);
    var v := Run(u, after);
    OutcomeIsSound(v, sid);
  }

  lemma OutcomeIsSound(v: World, sid: nat)
    requires Inv(v) && sid in v.sessions && v.sessions[sid].pc.Done?
    ensures match v.sessions[sid].pc.outcome
            case RegisterEnded(_) => !CommittedBy(v, sid)
            case NotSent(_) => !CommittedBy(v, sid)
            case Refused(_) => !CommittedBy(v, sid)
            case AttemptIs(attempt) => Proven(v, sid, attempt, None)
            case Granted(attempt, permit) => Proven(v, sid, attempt, Some(permit))
            case Unknown => true
  {
    assert Traced(v, sid) && Orderly(v.owner, v.sessions[sid]);
    var outcome := v.sessions[sid].pc.outcome;
    if outcome.AttemptIs? || outcome.Granted? {
      var grant := v.channel[sid].reply.value;
      var i :| 0 <= i < |v.commits| && v.commits[i].sid == sid && v.commits[i].grant == grant;
      assert v.commits[i].grant.record.key in v.commits[i].after;
    }
  }

  /** A request that committed is never reported as not sent or refused, whatever became of its
      answer: the session still waits, reports exactly that record, or reports Unknown. */
  lemma CommitsAreNeverDenied(w: World, actions: seq<Action>, i: nat)
    requires Initial(w) && Legal(w, actions, true) && Legal(w, actions, false)
    requires i < |Run(w, actions).commits|
    ensures var v := Run(w, actions);
            var Commit(sid, Grant(record, permit), _, _) := v.commits[i];
            && sid in v.sessions
            && (v.sessions[sid].pc.AtAnswer? ||
                (v.sessions[sid].pc.Done? &&
                 match v.sessions[sid].pc.outcome
                 case Unknown => true
                 case AttemptIs(attempt) => attempt == View(record) && ForJob(v, v.sessions[sid], record)
                 case Granted(attempt, p) =>
                   attempt == View(record) && permit == Some(p) && ForJob(v, v.sessions[sid], record)
                 case _ => false))
  {
    ReachableInv(w, actions);
    var v := Run(w, actions);
    var sid := v.commits[i].sid;
    assert CommittedBy(v, sid);
    assert Traced(v, sid) && Orderly(v.owner, v.sessions[sid]);
    var grant := v.channel[sid].reply.value;
    var j :| 0 <= j < |v.commits| && v.commits[j].sid == sid && v.commits[j].grant == grant;
    assert i == j;
  }

  /** However many sessions begin an attempt's launch, at most one of them is granted it. */
  lemma AtMostOneGrant(w: World, actions: seq<Action>, a: nat, b: nat)
    requires Initial(w) && Legal(w, actions, true) && Legal(w, actions, false)
    requires var v := Run(w, actions);
             && a in v.sessions && v.sessions[a].pc.Done? && v.sessions[a].pc.outcome.Granted?
             && b in v.sessions && v.sessions[b].pc.Done? && v.sessions[b].pc.outcome.Granted?
             && v.sessions[a].job.attemptId == v.sessions[b].job.attemptId
    ensures a == b
  {
    ReachableInv(w, actions);
    var v := Run(w, actions);
    OutcomeIsSound(v, a);
    OutcomeIsSound(v, b);
    var p, q := v.sessions[a].pc.outcome.permit, v.sessions[b].pc.outcome.permit;
    var i :| 0 <= i < |v.commits| && v.commits[i].sid == a && v.commits[i].grant.permit == Some(p)
             && p in v.permits && v.permits[p] == KeyOf(v.owner, v.sessions[a].job);
    var j :| 0 <= j < |v.commits| && v.commits[j].sid == b && v.commits[j].grant.permit == Some(q)
             && q in v.permits && v.permits[q] == KeyOf(v.owner, v.sessions[b].job);
    assert p == q;
    assert i == j;
  }

  /** Unknown cannot be narrowed. From any world in which a request is in flight, the answer being
      lost before the authority processed it, after it committed, or before it commits later leave
      the owner and every session exactly the same, and only in the first did nothing commit. */
  lemma UnknownIsOpen(w: World, sid: nat, reply: Reply<Grant>, journal: map<Key, Record>)
    requires Inv(w) && sid in w.sessions && w.sessions[sid].pc.AtAnswer?
    requires reply.Ok? && Allowed(w, Transact(sid, reply, journal), true)
    ensures Allowed(w, Lose(sid), true) && Allowed(w, Transact(sid, reply, journal), false)
    ensures var lost, committed := Perform(w, Lose(sid)), Perform(w, Transact(sid, reply, journal));
            && Allowed(committed, Lose(sid), true)
            && Allowed(lost, Transact(sid, reply, journal), true) && Allowed(lost, Transact(sid, reply, journal), false)
            && var dropped, late := Perform(committed, Lose(sid)), Perform(lost, Transact(sid, reply, journal));
               && lost.owner == dropped.owner == late.owner
               && lost.sessions == dropped.sessions == late.sessions
               && sid in lost.sessions && lost.sessions[sid].pc == Done(Unknown)
               && !CommittedBy(lost, sid) && CommittedBy(dropped, sid) && CommittedBy(late, sid)
  {
    var lost, committed := Perform(w, Lose(sid)), Perform(w, Transact(sid, reply, journal));
    assert Traced(w, sid) && !CommittedBy(w, sid);
    assert committed.commits[|w.commits|].sid == sid;
    assert Perform(lost, Transact(sid, reply, journal)).commits == committed.commits;
  }

  /** A change of the journal: a commit of a session's request, or one made elsewhere. */
  datatype Change = ByRequest(commit: Commit) | ByOthers(before: map<Key, Record>, after: map<Key, Record>)

  /** What a step does to the journal. */
  ghost function Changed(w: World, a: Action): seq<Change> {
    match a
    case Transact(sid, Ok(grant), journal) => [ByRequest(Commit(sid, grant, w.journal, journal))]
    case Elsewhere(journal, _) => [ByOthers(w.journal, journal)]
    case _ => []
  }

  ghost function Changes(w: World, actions: seq<Action>): seq<Change>
    requires Legal(w, actions, false)
    decreases |actions|
  {
    if actions == [] then [] else Changed(w, actions[0]) + Changes(Perform(w, actions[0]), actions[1..])
  }

  /** Each change starts where the one before ended. */
  ghost predicate Chained(changes: seq<Change>, start: map<Key, Record>, end: map<Key, Record>) {
    if changes == [] then start == end
    else match changes[0]
      case ByRequest(commit) => commit.before == start && Chained(changes[1..], commit.after, end)
      case ByOthers(before, after) => before == start && Chained(changes[1..], after, end)
  }

  ghost function CommitsAmong(changes: seq<Change>): seq<Commit> {
    if changes == [] then []
    else (if changes[0].ByRequest? then [changes[0].commit] else []) + CommitsAmong(changes[1..])
  }

  lemma StepIsLogged(w: World, a: Action)
    requires Allowed(w, a, true) && Allowed(w, a, false)
    ensures var v := Perform(w, a);
            Chained(Changed(w, a), w.journal, v.journal) && v.commits == w.commits + CommitsAmong(Changed(w, a))
  {
    var v := Perform(w, a);
    match a
    case Transact(_, Ok(_), _) => assert Changed(w, a)[1..] == [] && CommitsAmong([]) == [];
    case Elsewhere(_, _) => assert Changed(w, a)[1..] == [];
    case _ => assert v.journal == w.journal && v.commits == w.commits;
  }

  lemma OneMoreChange(some: seq<Change>, more: seq<Change>, start: map<Key, Record>, middle: map<Key, Record>, end: map<Key, Record>)
    requires |some| <= 1 && Chained(some, start, middle) && Chained(more, middle, end)
    ensures Chained(some + more, start, end) && CommitsAmong(some + more) == CommitsAmong(some) + CommitsAmong(more)
  {
    if some == [] {
      assert some + more == more;
    } else {
      assert (some + more)[1..] == more && some[1..] == [];
    }
  }

  /** Commits account for the journal in every run: from the first journal to the last it changes only
      by other consumers and by commits of the sessions' requests, and those are exactly the commits
      the sessions are judged by. */
  lemma {:induction false} CommitsAccountForTheJournal(w: World, actions: seq<Action>)
    requires Legal(w, actions, true) && Legal(w, actions, false)
    ensures var v := Run(w, actions);
            && Chained(Changes(w, actions), w.journal, v.journal)
            && v.commits == w.commits + CommitsAmong(Changes(w, actions))
    decreases |actions|
  {
    if actions != [] {
      var v := Perform(w, actions[0]);
      StepIsLogged(w, actions[0]);
      CommitsAccountForTheJournal(v, actions[1..]);
      var some, more := Changed(w, actions[0]), Changes(v, actions[1..]);
      OneMoreChange(some, more, w.journal, v.journal, Run(v, actions[1..]).journal);
      Regroup(w.commits, CommitsAmong(some), CommitsAmong(more));
    }
  }

  lemma Regroup(a: seq<Commit>, b: seq<Commit>, c: seq<Commit>)
    ensures (a + b) + c == a + (b + c)
  {
  }

  lemma {:induction false} AmongIff(changes: seq<Change>, i: nat)
    requires i < |changes| && changes[i].ByRequest?
    ensures changes[i].commit in CommitsAmong(changes)
  {
    if i > 0 {
      AmongIff(changes[1..], i - 1);
    }
  }

  /** A session whose request did not commit has changed nothing: none of the journal's changes is its. */
  lemma UncommittedChangedNothing(w: World, actions: seq<Action>, sid: nat, i: nat)
    requires Legal(w, actions, true) && Legal(w, actions, false) && i < |Changes(w, actions)|
    requires !CommittedBy(Run(w, actions), sid)
    ensures Changes(w, actions)[i].ByOthers? || Changes(w, actions)[i].commit.sid != sid
  {
    var v, changes := Run(w, actions), Changes(w, actions);
    CommitsAccountForTheJournal(w, actions);
    if changes[i].ByRequest? {
      AmongIff(changes, i);
      assert changes[i].commit in v.commits;
    }
  }
}
