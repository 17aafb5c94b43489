/** The contest server's submission queue: every transaction as one atomic step of a single
    replica, and what holds after every run. */
module Queue {
  import opened ReferenceFold

  /** Submission IDs are random, and are only compared in the order of the database. */
  type Id = nat
  type User = string

  datatype Status = Uploading | Queued | Running | Completed | InfrastructureFailed | Disqualified

  datatype Verdict = Accepted | Other(name: string)

  datatype Submission = Submission(
    user: User, status: Status, startedAt: nat, language: Option<string>,
    publicVerdict: Option<Verdict>, publicScore: Option<string>,
    privateVerdict: Option<Verdict>, privateScore: Option<string>,
    disqualified: Option<string>)

  datatype Benchmark = Benchmark(verdict: Verdict, score: Option<string>)

  datatype Config = Config(contestStart: nat, contestEnd: nat)

  /** The tables, and the job the one benchmark worker is running. */
  datatype State = State(rows: map<Id, Submission>, users: map<User, Option<Id>>, job: Option<Id>, published: Option<nat>)

  datatype Outcome =
    | Done | Nothing
    | ContestNotStarted | ActiveSubmission | DuplicateId | UploadExpired
    | RetryNotAllowed | NotFound | SubmissionActive
    | AlreadyPublished | ContestNotEnded | QueueNotDrained | NotPublished

  const NO_STATE := State(map[], map[], None, None)

  predicate Active(s: Status) { s == Uploading || s == Queued || s == Running }

  predicate UserActive(rows: map<Id, Submission>, user: User) {
    exists id :: id in rows && rows[id].user == user && Active(rows[id].status)
  }

  predicate AnyActive(rows: map<Id, Submission>) { exists id :: id in rows && Active(rows[id].status) }

  // ---- The transactions --------------------------------------------------------------

  /** reserveSubmission */
  function Reserve(s: State, config: Config, user: User, id: Id, now: nat): (State, Outcome) {
    var t := s.(users := if user in s.users then s.users else s.users[user := None]);
    if now < config.contestStart then (s, ContestNotStarted)
    else if UserActive(s.rows, user) then (s, ActiveSubmission)
    else if id in s.rows then (s, DuplicateId)
    else
      (t.(rows := s.rows[id := Submission(user, Uploading, now, None, None, None, None, None, None)]), Done)
  }

  predicate HasStatus(s: State, id: Id, status: Status) { id in s.rows && s.rows[id].status == status }

  /** queueUpload */
  function QueueUpload(s: State, id: Id, language: string): (State, Outcome) {
    if HasStatus(s, id, Uploading)
    then (s.(rows := s.rows[id := s.rows[id].(status := Queued, language := Some(language))]), Done)
    else (s, UploadExpired)
  }

  /** discardUpload */
  function DiscardUpload(s: State, id: Id): (State, Outcome) {
    if HasStatus(s, id, Uploading) then (s.(rows := s.rows - {id}), Done) else (s, Nothing)
  }

  predicate Earlier(rows: map<Id, Submission>, a: Id, b: Id)
    requires a in rows && b in rows
  {
    rows[a].startedAt < rows[b].startedAt || (rows[a].startedAt == rows[b].startedAt && a < b)
  }

  /** ORDER BY upload_started_at, id LIMIT 1 among the queued rows. */
  predicate NextInQueue(rows: map<Id, Submission>, id: Id) {
    && id in rows && rows[id].status == Queued
    && forall o :: o in rows && rows[o].status == Queued ==> o == id || Earlier(rows, id, o)
  }

  /** claimNext, when the worker has no job in hand. */
  function Claim(s: State, id: Id): (State, Outcome) {
    if s.job.None? && NextInQueue(s.rows, id)
    then (s.(rows := s.rows[id := s.rows[id].(status := Running)], job := Some(id)), Done)
    else (s, Nothing)
  }

  /** markInfrastructureFailure for the job in hand. */
  function MarkFailure(s: State): (State, Outcome) {
    if s.job.None? then (s, Nothing)
    else
      var t := s.(job := None);
      if HasStatus(s, s.job.value, Running)
      then (t.(rows := s.rows[s.job.value := s.rows[s.job.value].(status := InfrastructureFailed)]), Done)
      else (t, Nothing)
  }

  /** The submission UPDATE of storeResult: it has no status guard. */
  function Stored(r: Submission, public: Benchmark, private: Option<Benchmark>): Submission {
    r.(status := Completed, publicVerdict := Some(public.verdict), publicScore := public.score,
       privateVerdict := if private.Some? then Some(private.value.verdict) else None,
       privateScore := if private.Some? then private.value.score else None)
  }

  /** The users UPDATE of storeResult: a later accepted candidate replaces the current one. */
  function Promote(s: State, config: Config, candidate: Id): State
    requires candidate in s.rows
  {
    var user := s.rows[candidate].user;
    if user in s.users && s.rows[candidate].startedAt <= config.contestEnd &&
       (s.users[user].None? || s.users[user].value !in s.rows || Earlier(s.rows, s.users[user].value, candidate))
    then s.(users := s.users[user := Some(candidate)])
    else s
  }

  /** storeResult for the job in hand. */
  function StoreResult(s: State, config: Config, public: Benchmark, private: Option<Benchmark>): (State, Outcome) {
    if s.job.None? || s.job.value !in s.rows then (s, Nothing)
    else
      var id := s.job.value;
      var t := s.(rows := s.rows[id := Stored(s.rows[id], public, private)], job := None);
      (if public.verdict == Accepted then Promote(t, config, id) else t, Done)
  }

  /** recoverInterrupted, which runs when the process starts. */
  function Recover(s: State): (State, Outcome) {
    (s.(rows := map id | id in s.rows && s.rows[id].status != Uploading ::
                  if s.rows[id].status == Running then s.rows[id].(status := InfrastructureFailed) else s.rows[id],
        job := None), Done)
  }

  /** retrySubmission: it does not look for another active row of the user. */
  function Retry(s: State, id: Id): (State, Outcome) {
    if HasStatus(s, id, InfrastructureFailed)
    then (s.(rows := s.rows[id := s.rows[id].(status := Queued)]), Done)
    else (s, RetryNotAllowed)
  }

  /** disqualifySubmission */
  function Disqualify(s: State, id: Id, reason: string): (State, Outcome) {
    if id !in s.rows then (s, NotFound)
    else if s.rows[id].status == Uploading || s.rows[id].status == Running then (s, SubmissionActive)
    else (s.(rows := s.rows[id := s.rows[id].(status := Disqualified, disqualified := Some(reason))]), Done)
  }

  /** publishPrivate */
  function PublishPrivate(s: State, config: Config, now: nat): (State, Outcome) {
    if s.published.Some? then (s, AlreadyPublished)
    else if now <= config.contestEnd then (s, ContestNotEnded)
    else if AnyActive(s.rows) then (s, QueueNotDrained)
    else (s.(published := Some(now)), Done)
  }

  function UnpublishPrivate(s: State): (State, Outcome) {
    if s.published.None? then (s, NotPublished) else (s.(published := None), Done)
  }

  // ---- Runs --------------------------------------------------------------------------

  datatype Step =
    | StepReserve(user: User, id: Id, now: nat)
    | StepQueue(id: Id, language: string)
    | StepDiscard(id: Id)
    | StepClaim(id: Id)
    | StepFail
    | StepStore(public: Benchmark, private: Option<Benchmark>)
    | StepRecover
    | StepRetry(id: Id)
    | StepDisqualify(id: Id, reason: string)
    | StepPublish(now: nat)
    | StepUnpublish

  function Apply(s: State, config: Config, step: Step): (State, Outcome) {
    match step
    case StepReserve(user, id, now) => Reserve(s, config, user, id, now)
    case StepQueue(id, language) => QueueUpload(s, id, language)
    case StepDiscard(id) => DiscardUpload(s, id)
    case StepClaim(id) => Claim(s, id)
    case StepFail => MarkFailure(s)
    case StepStore(public, private) => StoreResult(s, config, public, private)
    case StepRecover => Recover(s)
    case StepRetry(id) => Retry(s, id)
    case StepDisqualify(id, reason) => Disqualify(s, id, reason)
    case StepPublish(now) => PublishPrivate(s, config, now)
    case StepUnpublish => UnpublishPrivate(s)
  }

  function Run(config: Config, steps: seq<Step>): State {
    if |steps| == 0 then NO_STATE else Apply(Run(config, steps[..|steps| - 1]), config, steps[|steps| - 1]).0
  }

  // ---- What every run keeps ----------------------------------------------------------

  /** Verdicts exist exactly from completion on, and a reason exactly once disqualified. */
  predicate RowOk(r: Submission) {
    && (r.status == Completed ==> r.publicVerdict.Some?)
    && (r.publicVerdict.Some? ==> r.status == Completed || r.status == Disqualified)
    && (r.publicVerdict.None? ==> r.privateVerdict.None? && r.privateScore.None? && r.publicScore.None?)
    && (r.disqualified.Some? <==> r.status == Disqualified)
    && (r.status != Uploading ==> r.language.Some?)
  }

  ghost predicate RowsOk(s: State) {
    && (forall id :: id in s.rows ==> RowOk(s.rows[id]))
    && (forall id :: id in s.rows ==> s.rows[id].user in s.users)
  }

  /** The running rows are the job in hand, or nothing is in hand. */
  ghost predicate JobOk(s: State) {
    && (forall id :: id in s.rows && s.rows[id].status == Running ==> s.job == Some(id))
    && (s.job.Some? ==> HasStatus(s, s.job.value, Running))
  }

  ghost predicate OneUploading(s: State) {
    forall a, b :: (a in s.rows && b in s.rows && a != b && s.rows[a].status == Uploading &&
                    s.rows[b].status == Uploading) ==> s.rows[a].user != s.rows[b].user
  }

  predicate Eligible(rows: map<Id, Submission>, config: Config, user: User, id: Id) {
    id in rows && rows[id].user == user && rows[id].publicVerdict == Some(Accepted) && rows[id].startedAt <= config.contestEnd
  }

  /** The greatest by start and ID of a user's accepted submissions, or none of them. */
  ghost predicate IsRepresentative(rows: map<Id, Submission>, config: Config, user: User, id: Option<Id>) {
    match id
    case None => forall o :: o in rows ==> !Eligible(rows, config, user, o)
    case Some(r) => Eligible(rows, config, user, r) &&
                    forall o :: o in rows && Eligible(rows, config, user, o) ==> o == r || Earlier(rows, o, r)
  }

  ghost predicate Represented(s: State, config: Config) {
    forall user :: user in s.users ==> IsRepresentative(s.rows, config, user, s.users[user])
  }

  ghost predicate Inv(s: State, config: Config) {
    RowsOk(s) && JobOk(s) && OneUploading(s) && Represented(s, config)
  }

  /** The same rows carry an accepted verdict, and the same representatives stand. */
  ghost predicate SameAccepted(s: State, t: State) {
    && (forall user :: user in s.users ==> user in t.users && t.users[user] == s.users[user])
    && (forall user :: user in t.users && user !in s.users ==> t.users[user].None?)
    && (forall id :: id in t.rows && t.rows[id].publicVerdict.Some? ==> id in s.rows && s.rows[id].publicVerdict.Some?)
    && (forall id :: id in s.rows && s.rows[id].publicVerdict.Some? ==> id in t.rows && SameResult(s.rows[id], t.rows[id]))
  }

  /** A stored result is never touched again, except that its row may become disqualified. */
  predicate SameResult(a: Submission, b: Submission) {
    && b.user == a.user && b.startedAt == a.startedAt && b.language == a.language
    && b.publicVerdict == a.publicVerdict && b.publicScore == a.publicScore
    && b.privateVerdict == a.privateVerdict && b.privateScore == a.privateScore
    && (a.disqualified.Some? ==> b.disqualified.Some?)
  }

  /** Rows whose verdicts did not change keep everyone's representative. */
  lemma SameVerdicts(s: State, t: State, config: Config)
    requires Represented(s, config) && RowsOk(s) && SameAccepted(s, t)
    ensures Represented(t, config)
  {
  }

  lemma KeepsResult(s: State, config: Config, step: Step, id: Id)
    requires (step.StepStore? ==> s.job.None?) && (id in s.rows ==> RowOk(s.rows[id]))
    ensures var t := Apply(s, config, step).0;
            && (id in t.rows && t.rows[id].publicVerdict.Some? ==> id in s.rows && s.rows[id].publicVerdict.Some?)
            && (id in s.rows && s.rows[id].publicVerdict.Some? ==> id in t.rows && SameResult(s.rows[id], t.rows[id]))
  {
  }

  lemma KeepsAccepted(s: State, config: Config, step: Step)
    requires RowsOk(s) && JobOk(s) && (step.StepStore? ==> s.job.None?)
    ensures SameAccepted(s, Apply(s, config, step).0)
  {
    var t := Apply(s, config, step).0;
    forall id | id in t.rows && t.rows[id].publicVerdict.Some? ensures id in s.rows && s.rows[id].publicVerdict.Some? {
      KeepsResult(s, config, step, id);
    }
    forall id | id in s.rows && s.rows[id].publicVerdict.Some? ensures id in t.rows && SameResult(s.rows[id], t.rows[id]) {
      KeepsResult(s, config, step, id);
    }
  }

  /** Only the stored row's eligibility changes. */
  lemma StoredEligible(s: State, config: Config, public: Benchmark, private: Option<Benchmark>, user: User, o: Id)
    requires RowsOk(s) && JobOk(s) && s.job.Some?
    ensures var t := StoreResult(s, config, public, private).0;
            && (forall x :: x in t.rows <==> x in s.rows)
            && Eligible(t.rows, config, user, o) ==
               if o == s.job.value
               then user == s.rows[o].user && public.verdict == Accepted && s.rows[o].startedAt <= config.contestEnd
               else Eligible(s.rows, config, user, o)
  {
  }

  /** The pointer moves exactly when the stored row is accepted, in time, and later. */
  lemma StoredPointer(s: State, config: Config, public: Benchmark, private: Option<Benchmark>, user: User)
    requires JobOk(s) && s.job.Some? && user in s.users && (s.users[user].Some? ==> s.users[user].value in s.rows)
    ensures var id := s.job.value;
            var t := StoreResult(s, config, public, private).0;
            && user in t.users
            && t.users[user] ==
               if public.verdict == Accepted && user == s.rows[id].user && s.rows[id].startedAt <= config.contestEnd &&
                  (s.users[user].None? || Earlier(s.rows, s.users[user].value, id)) then Some(id)
               else s.users[user]
    ensures var t := StoreResult(s, config, public, private).0;
            forall o :: o in s.rows ==> o in t.rows && t.rows[o].startedAt == s.rows[o].startedAt
  {
  }

  /** storeResult moves the representative exactly when the stored row is later. */
  lemma PromoteRepresents(s: State, config: Config, public: Benchmark, private: Option<Benchmark>, user: User)
    requires RowsOk(s) && JobOk(s) && s.job.Some? && user in s.users
    requires IsRepresentative(s.rows, config, user, s.users[user])
    ensures var t := StoreResult(s, config, public, private).0;
            user in t.users && IsRepresentative(t.rows, config, user, t.users[user])
  {
    var t := StoreResult(s, config, public, private).0;
    StoredPointer(s, config, public, private, user);
    StoredEligible(s, config, public, private, user, s.job.value);
    forall o | o in t.rows && o != s.job.value
      ensures Eligible(t.rows, config, user, o) == Eligible(s.rows, config, user, o)
    {
      StoredEligible(s, config, public, private, user, o);
    }
    Promoted(s, t, config, user);
  }

  /** On such a pointer the new row competes with the old maximum only. */
  lemma Promoted(s: State, t: State, config: Config, user: User)
    requires s.job.Some? && s.job.value in s.rows && s.rows[s.job.value].publicVerdict.None?
    requires user in s.users && user in t.users && IsRepresentative(s.rows, config, user, s.users[user])
    requires forall o :: o in t.rows <==> o in s.rows
    requires forall o :: o in s.rows ==> t.rows[o].startedAt == s.rows[o].startedAt
    requires forall o :: o in t.rows && o != s.job.value ==>
               Eligible(t.rows, config, user, o) == Eligible(s.rows, config, user, o)
    requires t.users[user] == if Eligible(t.rows, config, user, s.job.value) &&
                                 (s.users[user].None? || Earlier(s.rows, s.users[user].value, s.job.value))
                              then Some(s.job.value) else s.users[user]
    ensures IsRepresentative(t.rows, config, user, t.users[user])
  {
  }

  lemma RowStaysOk(s: State, config: Config, step: Step, id: Id)
    requires RowsOk(s) && JobOk(s) && id in Apply(s, config, step).0.rows
    ensures RowOk(Apply(s, config, step).0.rows[id])
    ensures Apply(s, config, step).0.rows[id].user in Apply(s, config, step).0.users
  {
    if id in s.rows {
      assert RowOk(s.rows[id]) && s.rows[id].user in s.users;
    }
  }

  lemma RowsStayOk(s: State, config: Config, step: Step)
    requires RowsOk(s) && JobOk(s)
    ensures RowsOk(Apply(s, config, step).0)
  {
    forall id | id in Apply(s, config, step).0.rows
      ensures RowOk(Apply(s, config, step).0.rows[id])
      ensures Apply(s, config, step).0.rows[id].user in Apply(s, config, step).0.users
    {
      RowStaysOk(s, config, step, id);
    }
  }

  lemma JobStaysOk(s: State, config: Config, step: Step)
    requires JobOk(s)
    ensures JobOk(Apply(s, config, step).0)
  {
  }

  lemma UploadingStaysSingle(s: State, config: Config, step: Step)
    requires RowsOk(s) && JobOk(s) && OneUploading(s)
    ensures OneUploading(Apply(s, config, step).0)
  {
  }

  lemma StaysRepresented(s: State, config: Config, step: Step)
    requires Inv(s, config)
    ensures Represented(Apply(s, config, step).0, config)
  {
    var t := Apply(s, config, step).0;
    if step.StepStore? && s.job.Some? {
      forall user | user in t.users ensures IsRepresentative(t.rows, config, user, t.users[user]) {
        PromoteRepresents(s, config, step.public, step.private, user);
      }
    } else {
      KeepsAccepted(s, config, step);
      SameVerdicts(s, t, config);
    }
  }

  /** Every step keeps the invariant. */
  lemma StepKeeps(s: State, config: Config, step: Step)
    requires Inv(s, config)
    ensures Inv(Apply(s, config, step).0, config)
  {
    RowsStayOk(s, config, step);
    JobStaysOk(s, config, step);
    UploadingStaysSingle(s, config, step);
    StaysRepresented(s, config, step);
  }

  lemma {:induction false} RunKeeps(config: Config, steps: seq<Step>)
    ensures Inv(Run(config, steps), config)
  {
    if |steps| > 0 {
      RunKeeps(config, steps[..|steps| - 1]);
      StepKeeps(Run(config, steps[..|steps| - 1]), config, steps[|steps| - 1]);
    }
  }

  // ---- What runs never do ------------------------------------------------------------

  /** At most one row is running, and it is the job of the one worker. */
  lemma AtMostOneRunning(config: Config, steps: seq<Step>, a: Id, b: Id)
    requires HasStatus(Run(config, steps), a, Running) && HasStatus(Run(config, steps), b, Running)
    ensures a == b && Run(config, steps).job == Some(a)
  {
    RunKeeps(config, steps);
  }

  /** A stored result survives every step, and its row never becomes active again. */
  lemma ResultStays(s: State, config: Config, step: Step, id: Id)
    requires JobOk(s) && id in s.rows && RowOk(s.rows[id]) && s.rows[id].publicVerdict.Some?
    ensures var t := Apply(s, config, step).0;
            id in t.rows && SameResult(s.rows[id], t.rows[id]) && !Active(t.rows[id].status)
  {
    assert s.rows[id].status == Completed || s.rows[id].status == Disqualified;
  }

  /** Over whole runs: completed rows never re-enter the queue, their results never change, and
      a reason for disqualification is never cleared. */
  lemma {:induction false} CompletedForever(config: Config, steps: seq<Step>, more: seq<Step>, id: Id)
    requires id in Run(config, steps).rows && Run(config, steps).rows[id].publicVerdict.Some?
    ensures var t := Run(config, steps + more);
            id in t.rows && SameResult(Run(config, steps).rows[id], t.rows[id]) && !Active(t.rows[id].status)
    decreases |more|
  {
    if |more| == 0 {
      assert steps + more == steps;
      RunKeeps(config, steps);
    } else {
      var front, last := more[..|more| - 1], more[|more| - 1];
      CompletedForever(config, steps, front, id);
      RunSnoc(config, steps, more);
      RunKeeps(config, steps + front);
      ResultStays(Run(config, steps + front), config, last, id);
    }
  }

  lemma RunSnoc(config: Config, steps: seq<Step>, more: seq<Step>)
    requires |more| > 0
    ensures Run(config, steps + more) ==
            Apply(Run(config, steps + more[..|more| - 1]), config, more[|more| - 1]).0
  {
    assert (steps + more)[..|steps + more| - 1] == steps + more[..|more| - 1];
    assert (steps + more)[|steps + more| - 1] == more[|more| - 1];
  }

  /** A disqualified row stays disqualified. */
  lemma DisqualifiedStays(s: State, config: Config, step: Step, id: Id)
    requires JobOk(s) && id in s.rows && RowOk(s.rows[id]) && s.rows[id].disqualified.Some?
    ensures var t := Apply(s, config, step).0; id in t.rows && t.rows[id].disqualified.Some?
  {
    assert s.rows[id].status == Disqualified;
    if step.StepStore? && s.job.Some? {
      assert s.rows[s.job.value].status == Running;
    }
  }

  lemma {:induction false} DisqualifiedForever(config: Config, steps: seq<Step>, more: seq<Step>, id: Id)
    requires id in Run(config, steps).rows && Run(config, steps).rows[id].disqualified.Some?
    ensures id in Run(config, steps + more).rows && Run(config, steps + more).rows[id].disqualified.Some?
    decreases |more|
  {
    if |more| == 0 {
      assert steps + more == steps;
    } else {
      var front, last := more[..|more| - 1], more[|more| - 1];
      DisqualifiedForever(config, steps, front, id);
      RunSnoc(config, steps, more);
      RunKeeps(config, steps + front);
      DisqualifiedStays(Run(config, steps + front), config, last, id);
    }
  }

  /** The representative is unique: whatever order results were stored in, it is the greatest. */
  lemma RepresentativeIsUnique(rows: map<Id, Submission>, config: Config, user: User, a: Option<Id>, b: Option<Id>)
    requires IsRepresentative(rows, config, user, a) && IsRepresentative(rows, config, user, b)
    ensures a == b
  {
  }

  /** In every run, each user's representative is the greatest by start and ID of the user's
      accepted submissions that started by the contest's end. */
  lemma RepresentativeIsGreatest(config: Config, steps: seq<Step>, user: User)
    requires user in Run(config, steps).users
    ensures IsRepresentative(Run(config, steps).rows, config, user, Run(config, steps).users[user])
  {
    RunKeeps(config, steps);
  }

  // ---- One active submission per user, and the retry that breaks it ------------------

  ghost predicate OneActive(s: State) {
    forall a, b :: (a in s.rows && b in s.rows && a != b && Active(s.rows[a].status) && Active(s.rows[b].status)) ==>
                     s.rows[a].user != s.rows[b].user
  }

  /** A retry that succeeds while its user has another active row. */
  predicate CrowdingRetry(s: State, step: Step) {
    step.StepRetry? && HasStatus(s, step.id, InfrastructureFailed) && UserActive(s.rows, s.rows[step.id].user)
  }

  /** Exactly the crowding retries give a user a second active row. */
  lemma OneActiveStep(s: State, config: Config, step: Step)
    requires RowsOk(s) && JobOk(s) && OneActive(s)
    ensures OneActive(Apply(s, config, step).0) <==> !CrowdingRetry(s, step)
  {
    var t := Apply(s, config, step).0;
    if CrowdingRetry(s, step) {
      var other :| other in s.rows && s.rows[other].user == s.rows[step.id].user && Active(s.rows[other].status);
      assert Active(t.rows[other].status) && Active(t.rows[step.id].status) && other != step.id;
    } else {
      forall a, b | a in t.rows && b in t.rows && a != b && Active(t.rows[a].status) && Active(t.rows[b].status)
        ensures t.rows[a].user != t.rows[b].user
      {
        NewlyActive(s, config, step, a);
        NewlyActive(s, config, step, b);
      }
    }
  }

  /** A row that is active after a step was active before it, or its user had no active row. */
  lemma NewlyActive(s: State, config: Config, step: Step, a: Id)
    requires RowsOk(s) && JobOk(s) && !CrowdingRetry(s, step)
    requires a in Apply(s, config, step).0.rows && Active(Apply(s, config, step).0.rows[a].status)
    ensures var t := Apply(s, config, step).0; WasActive(s, t, a) || IsOnlyActive(s, t, a)
  {
    var t := Apply(s, config, step).0;
    if step.StepReserve? {
      ReserveActive(s, config, step.user, step.id, step.now, a);
    } else if step.StepRetry? {
      assert a == step.id ==> IsOnlyActive(s, t, a) || t == s;
    } else {
      assert WasActive(s, t, a);
    }
  }

  ghost predicate WasActive(s: State, t: State, a: Id) {
    a in s.rows && a in t.rows && Active(s.rows[a].status) && t.rows[a].user == s.rows[a].user
  }

  ghost predicate IsOnlyActive(s: State, t: State, a: Id) {
    && a in t.rows && !UserActive(s.rows, t.rows[a].user)
    && forall o :: o in t.rows && o != a ==> o in s.rows && t.rows[o] == s.rows[o]
  }

  lemma ReserveActive(s: State, config: Config, user: User, id: Id, now: nat, a: Id)
    requires a in Reserve(s, config, user, id, now).0.rows && Active(Reserve(s, config, user, id, now).0.rows[a].status)
    ensures var t := Reserve(s, config, user, id, now).0; WasActive(s, t, a) || IsOnlyActive(s, t, a)
  {
  }

  /** No retry of the run was crowding. */
  ghost predicate QuietRetries(config: Config, steps: seq<Step>) {
    forall k :: 0 <= k < |steps| ==> !CrowdingRetry(Run(config, steps[..k]), steps[k])
  }

  ghost predicate AlwaysOneActive(config: Config, steps: seq<Step>) {
    forall k :: 0 <= k <= |steps| ==> OneActive(Run(config, steps[..k]))
  }

  /** A user never has two active submissions, exactly as long as no retry is crowding. */
  lemma {:induction false} OneActivePerUser(config: Config, steps: seq<Step>)
    ensures AlwaysOneActive(config, steps) <==> QuietRetries(config, steps)
  {
    if |steps| > 0 {
      var front, last := steps[..|steps| - 1], steps[|steps| - 1];
      OneActivePerUser(config, front);
      RunKeeps(config, front);
      LastQuiet(config, steps);
      LastOneActive(config, steps);
      LastIsOneActive(config, front);
      if OneActive(Run(config, front)) {
        OneActiveStep(Run(config, front), config, last);
      }
    }
  }

  lemma LastQuiet(config: Config, steps: seq<Step>)
    requires |steps| > 0
    ensures var n := |steps| - 1;
            QuietRetries(config, steps) <==>
            QuietRetries(config, steps[..n]) && !CrowdingRetry(Run(config, steps[..n]), steps[n])
  {
    var n := |steps| - 1;
    assert forall k :: 0 <= k < n ==> steps[..n][..k] == steps[..k] && steps[..n][k] == steps[k];
    if QuietRetries(config, steps) {
      forall k | 0 <= k < n ensures !CrowdingRetry(Run(config, steps[..n][..k]), steps[..n][k]) {
        assert !CrowdingRetry(Run(config, steps[..k]), steps[k]);
      }
    }
  }

  /** What holds of every prefix holds of the shorter ones and of the whole. */
  lemma AllPrefixes<T>(ok: seq<T> -> bool, s: seq<T>)
    requires |s| > 0
    ensures var n := |s| - 1;
            (forall k :: 0 <= k <= |s| ==> ok(s[..k])) <==> (forall k :: 0 <= k <= n ==> ok(s[..n][..k])) && ok(s)
  {
    var n := |s| - 1;
    assert s[..|s|] == s && forall k :: 0 <= k <= n ==> s[..n][..k] == s[..k];
    if (forall k :: 0 <= k <= n ==> ok(s[..n][..k])) && ok(s) {
      forall k | 0 <= k <= |s| ensures ok(s[..k]) {
        if k <= n {
          assert ok(s[..n][..k]);
        }
      }
    }
    if forall k :: 0 <= k <= |s| ==> ok(s[..k]) {
      forall k | 0 <= k <= n ensures ok(s[..n][..k]) {
        assert ok(s[..k]);
      }
    }
  }

  lemma LastOneActive(config: Config, steps: seq<Step>)
    requires |steps| > 0
    ensures var n := |steps| - 1;
            AlwaysOneActive(config, steps) <==> AlwaysOneActive(config, steps[..n]) && OneActive(Run(config, steps))
  {
    AllPrefixes(t => OneActive(Run(config, t)), steps);
  }

  lemma LastIsOneActive(config: Config, steps: seq<Step>)
    ensures AlwaysOneActive(config, steps) ==> OneActive(Run(config, steps))
  {
    if AlwaysOneActive(config, steps) {
      assert OneActive(Run(config, steps[..|steps|]));
      assert steps[..|steps|] == steps;
    }
  }

  const EXAMPLE_CONFIG := Config(0, 100)

  /** The example's row with ID `id`, started at that time too. */
  function ExampleRow(id: Id, status: Status): Submission {
    Submission("u", status, id, if status == Uploading then None else Some("c"), None, None, None, None, None)
  }

  const EXAMPLE_USERS: map<User, Option<Id>> := map["u" := None]

  const EXAMPLE: seq<Step> := [
    StepReserve("u", 1, 1), StepQueue(1, "c"), StepClaim(1), StepFail, StepReserve("u", 2, 2), StepRetry(1)]

  lemma ExampleFails()
    ensures Run(EXAMPLE_CONFIG, EXAMPLE[..4]) ==
            State(map[1 := ExampleRow(1, InfrastructureFailed)], EXAMPLE_USERS, None, None)
  {
    assert Run(EXAMPLE_CONFIG, EXAMPLE[..0]) == NO_STATE;
    RunTo(EXAMPLE_CONFIG, EXAMPLE, 0, State(map[1 := ExampleRow(1, Uploading)], EXAMPLE_USERS, None, None));
    RunTo(EXAMPLE_CONFIG, EXAMPLE, 1, State(map[1 := ExampleRow(1, Queued)], EXAMPLE_USERS, None, None));
    RunTo(EXAMPLE_CONFIG, EXAMPLE, 2, State(map[1 := ExampleRow(1, Running)], EXAMPLE_USERS, Some(1), None));
    RunTo(EXAMPLE_CONFIG, EXAMPLE, 3, State(map[1 := ExampleRow(1, InfrastructureFailed)], EXAMPLE_USERS, None, None));
  }

  /** Retrying a failed submission during the user's next upload: two active rows. */
  lemma RetryCanCrowd()
    ensures !OneActive(Run(EXAMPLE_CONFIG, EXAMPLE))
  {
    ExampleFails();
    var failed := ExampleRow(1, InfrastructureFailed);
    RunTo(EXAMPLE_CONFIG, EXAMPLE, 4,
          State(map[1 := failed, 2 := ExampleRow(2, Uploading)], EXAMPLE_USERS, None, None));
    var t := State(map[1 := ExampleRow(1, Queued), 2 := ExampleRow(2, Uploading)], EXAMPLE_USERS, None, None);
    RunTo(EXAMPLE_CONFIG, EXAMPLE, 5, t);
    assert EXAMPLE[..6] == EXAMPLE;
    assert 1 in t.rows && 2 in t.rows && t.rows[1].user == t.rows[2].user;
  }

  lemma RunTo(config: Config, steps: seq<Step>, k: nat, t: State)
    requires k < |steps| && Apply(Run(config, steps[..k]), config, steps[k]).0 == t
    ensures Run(config, steps[..k + 1]) == t
  {
    assert steps[..k + 1][..k] == steps[..k];
  }

  // ---- What each transaction means ----------------------------------------------------

  /** No other row differs, nor does any representative or the publication. */
  ghost predicate OnlyRow(s: State, t: State, id: Id) {
    && t.rows.Keys == s.rows.Keys && t.users == s.users && t.published == s.published
    && forall o :: o in s.rows && o != id ==> t.rows[o] == s.rows[o]
  }

  ghost predicate NothingRuns(s: State) { s.job.None? && forall id :: id in s.rows ==> s.rows[id].status != Running }

  ghost predicate NoUpload(s: State, user: User) {
    forall id :: id in s.rows && s.rows[id].user == user ==> s.rows[id].status != Uploading
  }

  /** A row that enters the queue takes the place its start gives it. */
  ghost predicate InPlace(s: State, t: State, id: Id) {
    forall o :: NextInQueue(s.rows, o) && id in t.rows && o in t.rows ==>
                  NextInQueue(t.rows, if Earlier(t.rows, id, o) then id else o)
  }

  lemma EntersInPlace(s: State, t: State, id: Id)
    requires OnlyRow(s, t, id) && HasStatus(t, id, Queued) && id in s.rows && s.rows[id].status != Queued
    requires t.rows[id].startedAt == s.rows[id].startedAt
    ensures InPlace(s, t, id)
  {
    forall o | NextInQueue(s.rows, o) ensures NextInQueue(t.rows, if Earlier(t.rows, id, o) then id else o) {
      assert o != id && t.rows[o] == s.rows[o];
      forall x | x in t.rows && t.rows[x].status == Queued && x != id ensures x == o || Earlier(t.rows, o, x) {
        assert t.rows[x] == s.rows[x];
      }
    }
  }

  /** The user has one new row, being uploaded since `now` and without any result; every other row,
      and every pointer there was, is as before. */
  ghost predicate Admitted(s: State, t: State, user: User, id: Id, now: nat) {
    && id !in s.rows && t.rows.Keys == s.rows.Keys + {id} && t.job == s.job && t.published == s.published
    && (forall o :: o in s.rows ==> t.rows[o] == s.rows[o])
    && HasStatus(t, id, Uploading) && t.rows[id].user == user && t.rows[id].startedAt == now
    && t.rows[id].language.None? && Unjudged(t.rows[id]) && t.rows[id].disqualified.None?
    && t.users.Keys == s.users.Keys + {user}
    && forall u :: u in t.users ==> t.users[u] == if u in s.users then s.users[u] else None
  }

  predicate Unjudged(r: Submission) {
    r.publicVerdict.None? && r.publicScore.None? && r.privateVerdict.None? && r.privateScore.None?
  }

  /** The user has a row that is being uploaded, waits or runs. */
  ghost predicate Busy(s: State, user: User) {
    exists o :: o in s.rows && s.rows[o].user == user && s.rows[o].status in {Uploading, Queued, Running}
  }

  lemma ReserveMeaning(s: State, config: Config, user: User, id: Id, now: nat, t: State, outcome: Outcome)
    requires Reserve(s, config, user, id, now) == (t, outcome)
    ensures outcome == if now < config.contestStart then ContestNotStarted else if Busy(s, user) then ActiveSubmission
                       else if id in s.rows then DuplicateId else Done
    ensures outcome == Done ==> Admitted(s, t, user, id, now)
    ensures outcome != Done ==> t == s
  {
    if UserActive(s.rows, user) {
      var o :| o in s.rows && s.rows[o].user == user && Active(s.rows[o].status);
      assert s.rows[o].status in {Uploading, Queued, Running};
    }
    if Busy(s, user) {
      var o :| o in s.rows && s.rows[o].user == user && s.rows[o].status in {Uploading, Queued, Running};
      assert Active(s.rows[o].status);
    }
  }

  /** The upload is in the queue under its user and start, and its user has no other one. */
  ghost predicate Enqueued(s: State, t: State, id: Id, language: string) {
    && OnlyRow(s, t, id) && HasStatus(t, id, Queued) && id in s.rows && t.job == s.job
    && t.rows[id].user == s.rows[id].user && t.rows[id].startedAt == s.rows[id].startedAt
    && t.rows[id].language == Some(language) && InPlace(s, t, id) && NoUpload(t, t.rows[id].user)
  }

  lemma QueueMeaning(s: State, config: Config, id: Id, language: string, t: State, outcome: Outcome)
    requires Inv(s, config) && QueueUpload(s, id, language) == (t, outcome)
    ensures outcome == if HasStatus(s, id, Uploading) then Done else UploadExpired
    ensures outcome == Done ==> Enqueued(s, t, id, language)
    ensures outcome != Done ==> t == s
  {
    if HasStatus(s, id, Uploading) {
      EntersInPlace(s, t, id);
    }
  }

  /** The row is gone, no result is, and a user who had but this active row has none. */
  ghost predicate Discarded(s: State, t: State, id: Id) {
    && id in s.rows && t == s.(rows := s.rows - {id})
    && (forall o :: o in s.rows && s.rows[o].publicVerdict.Some? ==> o in t.rows)
    && (OneActive(s) ==> !UserActive(t.rows, s.rows[id].user))
  }

  lemma DiscardMeaning(s: State, config: Config, id: Id, t: State)
    requires Inv(s, config) && t == DiscardUpload(s, id).0
    ensures !HasStatus(t, id, Uploading)
    ensures HasStatus(s, id, Uploading) ==> Discarded(s, t, id)
    ensures !HasStatus(s, id, Uploading) ==> t == s
  {
    if HasStatus(s, id, Uploading) && OneActive(s) {
      forall o | o in t.rows && t.rows[o].user == s.rows[id].user ensures !Active(t.rows[o].status) {
        assert o in s.rows && o != id;
      }
    }
  }

  /** The earliest queued row is the job and runs, still as the submission it was. */
  ghost predicate Claimed(s: State, t: State, id: Id) {
    && OnlyRow(s, t, id) && HasStatus(s, id, Queued) && t.job == Some(id) && HasStatus(t, id, Running)
    && (forall o :: HasStatus(s, o, Queued) && o != id ==>
          s.rows[id].startedAt < s.rows[o].startedAt || (s.rows[id].startedAt == s.rows[o].startedAt && id < o))
    && SameSubmission(s.rows[id], t.rows[id]) && Unjudged(t.rows[id]) && t.rows[id].disqualified.None?
    && forall o :: HasStatus(t, o, Running) ==> o == id
  }

  /** The same user's submission in the same language, started at the same time. */
  predicate SameSubmission(a: Submission, b: Submission) {
    b.user == a.user && b.startedAt == a.startedAt && b.language == a.language
  }

  lemma ClaimMeaning(s: State, config: Config, id: Id, t: State, outcome: Outcome)
    requires Inv(s, config) && Claim(s, id) == (t, outcome)
    ensures outcome == if s.job.None? && NextInQueue(s.rows, id) then Done else Nothing
    ensures outcome == Done ==> Claimed(s, t, id)
    ensures outcome != Done ==> t == s
  {
    if outcome == Done {
      ClaimsRow(s, t, id);
    }
  }

  lemma ClaimsRow(s: State, t: State, id: Id)
    requires JobOk(s) && s.job.None? && NextInQueue(s.rows, id) && RowOk(s.rows[id])
    requires t == s.(rows := s.rows[id := s.rows[id].(status := Running)], job := Some(id))
    ensures Claimed(s, t, id)
  {
  }

  /** The job's row has failed without a result and can be retried; nothing runs any more. */
  ghost predicate Failed(s: State, t: State) {
    && s.job.Some? && OnlyRow(s, t, s.job.value) && NothingRuns(t)
    && HasStatus(t, s.job.value, InfrastructureFailed) && s.job.value in s.rows
    && t.rows[s.job.value] == s.rows[s.job.value].(status := InfrastructureFailed)
    && t.rows[s.job.value].publicVerdict.None? && Retry(t, s.job.value).1 == Done
  }

  lemma FailMeaning(s: State, config: Config, t: State)
    requires Inv(s, config) && s.job.Some? && t == MarkFailure(s).0
    ensures Failed(s, t)
  {
    assert RowOk(s.rows[s.job.value]);
  }

  /** The job's row has its result, and nothing runs any more. */
  ghost predicate HasResult(s: State, t: State, public: Benchmark, private: Option<Benchmark>) {
    && s.job.Some? && OnlyRow(s, t.(users := s.users), s.job.value) && NothingRuns(t)
    && HasStatus(t, s.job.value, Completed) && s.job.value in s.rows
    && t.rows[s.job.value].user == s.rows[s.job.value].user
    && t.rows[s.job.value].startedAt == s.rows[s.job.value].startedAt
    && t.rows[s.job.value].language == s.rows[s.job.value].language
    && t.rows[s.job.value].publicVerdict == Some(public.verdict) && t.rows[s.job.value].publicScore == public.score
    && (private.Some? ==> t.rows[s.job.value].privateVerdict == Some(private.value.verdict) &&
                          t.rows[s.job.value].privateScore == private.value.score)
    && (private.None? ==> t.rows[s.job.value].privateVerdict.None? && t.rows[s.job.value].privateScore.None?)
  }

  /** Only the user of the stored row may have a new representative, which is then this row. */
  ghost predicate Repointed(s: State, t: State) {
    && s.job.Some? && s.job.value in s.rows && t.users.Keys == s.users.Keys
    && forall user :: user in s.users && t.users[user] != s.users[user] ==>
                        user == s.rows[s.job.value].user && t.users[user] == s.job
  }

  lemma StoreResultMeaning(s: State, config: Config, public: Benchmark, private: Option<Benchmark>, t: State)
    requires Inv(s, config) && s.job.Some? && t == StoreResult(s, config, public, private).0
    ensures HasResult(s, t, public, private)
  {
    assert s.job.value in s.rows;
    ResultStored(s, t, s.job.value, public, private);
  }

  lemma ResultStored(s: State, t: State, id: Id, public: Benchmark, private: Option<Benchmark>)
    requires JobOk(s) && s.job == Some(id) && id in s.rows
    requires t.rows == s.rows[id := Stored(s.rows[id], public, private)] && t.job.None? && t.published == s.published
    ensures HasResult(s, t, public, private)
  {
  }

  lemma StorePointerMeaning(s: State, config: Config, public: Benchmark, private: Option<Benchmark>, t: State)
    requires Inv(s, config) && s.job.Some? && t == StoreResult(s, config, public, private).0
    ensures Repointed(s, t)
  {
    assert s.job.value in s.rows;
  }

  /** Nothing runs and nothing is being uploaded; what was running can be retried, and everything
      else is as it was. */
  ghost predicate Recovered(s: State, t: State) {
    && NothingRuns(t) && t.users == s.users && t.published == s.published
    && (forall id :: id in t.rows ==> id in s.rows && t.rows[id].status != Uploading)
    && (forall id :: id in s.rows && s.rows[id].status != Uploading && s.rows[id].status != Running ==>
                       id in t.rows && t.rows[id] == s.rows[id])
    && (forall id :: HasStatus(s, id, Running) ==>
                       id in t.rows && t.rows[id] == s.rows[id].(status := InfrastructureFailed) && Retry(t, id).1 == Done)
  }

  lemma RecoverMeaning(s: State, t: State)
    requires t == Recover(s).0
    ensures Recovered(s, t)
  {
  }

  /** The failed row is back in the queue, at the place its start gives it.  Its user has one active
      row if and only if the user had none. */
  ghost predicate Retried(s: State, t: State, id: Id) {
    && OnlyRow(s, t, id) && id in s.rows && t.rows[id] == s.rows[id].(status := Queued) && t.job == s.job
    && InPlace(s, t, id) && (OneActive(s) ==> (OneActive(t) <==> !UserActive(s.rows, s.rows[id].user)))
  }

  lemma RetryMeaning(s: State, config: Config, id: Id, t: State, outcome: Outcome)
    requires Inv(s, config) && Retry(s, id) == (t, outcome)
    ensures outcome == if HasStatus(s, id, InfrastructureFailed) then Done else RetryNotAllowed
    ensures outcome == Done ==> Retried(s, t, id)
    ensures outcome != Done ==> t == s
  {
    if HasStatus(s, id, InfrastructureFailed) {
      EntersInPlace(s, t, id);
      if OneActive(s) {
        OneActiveStep(s, config, StepRetry(id));
      }
    }
  }

  /** The row has its reason, keeps its result and is out of the queue. */
  ghost predicate Removed(s: State, t: State, id: Id, reason: string) {
    && OnlyRow(s, t, id) && id in s.rows && SameResult(s.rows[id], t.rows[id]) && t.job == s.job
    && t.rows[id].disqualified == Some(reason) && !Active(t.rows[id].status) && !NextInQueue(t.rows, id)
  }

  lemma DisqualifyMeaning(s: State, id: Id, reason: string, t: State, outcome: Outcome)
    requires Disqualify(s, id, reason) == (t, outcome)
    ensures outcome == NotFound <==> id !in s.rows
    ensures outcome == SubmissionActive <==> HasStatus(s, id, Uploading) || HasStatus(s, id, Running)
    ensures outcome == Done ==> Removed(s, t, id, reason)
    ensures outcome != Done ==> t == s
  {
  }

  /** Publishing is refused while published, then before the end, then while anything is still active. */
  lemma PublishMeaning(s: State, config: Config, now: nat, t: State, outcome: Outcome)
    requires PublishPrivate(s, config, now) == (t, outcome)
    ensures outcome == if s.published.Some? then AlreadyPublished else if now <= config.contestEnd then ContestNotEnded
                       else if exists user :: Busy(s, user) then QueueNotDrained else Done
    ensures t == if outcome == Done then s.(published := Some(now)) else s
  {
    if AnyActive(s.rows) {
      var o :| o in s.rows && Active(s.rows[o].status);
      assert s.rows[o].status in {Uploading, Queued, Running} && Busy(s, s.rows[o].user);
    }
    if exists user :: Busy(s, user) {
      var user :| Busy(s, user);
      var o :| o in s.rows && s.rows[o].user == user && s.rows[o].status in {Uploading, Queued, Running};
      assert Active(s.rows[o].status);
    }
  }

  // ---- An upload between its reservation and the queue --------------------------------

  /** The steps after which a row is no longer being uploaded. */
  predicate EndsUpload(step: Step, id: Id) {
    step.StepRecover? || step == StepDiscard(id) || (step.StepQueue? && step.id == id)
  }

  predicate Reserves(step: Step, id: Id) { step.StepReserve? && step.id == id }

  ghost predicate NoneReserves(steps: seq<Step>, id: Id) { forall k :: 0 <= k < |steps| ==> !Reserves(steps[k], id) }

  ghost predicate NoneEnds(steps: seq<Step>, id: Id) { forall k :: 0 <= k < |steps| ==> !EndsUpload(steps[k], id) }

  lemma UploadStep(s: State, config: Config, step: Step, id: Id)
    requires JobOk(s) && HasStatus(s, id, Uploading)
    ensures HasStatus(Apply(s, config, step).0, id, Uploading) <==> !EndsUpload(step, id)
    ensures !EndsUpload(step, id) ==> Apply(s, config, step).0.rows[id] == s.rows[id]
  {
  }

  lemma NoUploadStep(s: State, config: Config, step: Step, id: Id)
    requires JobOk(s) && !HasStatus(s, id, Uploading) && !Reserves(step, id)
    ensures !HasStatus(Apply(s, config, step).0, id, Uploading)
  {
  }

  /** Whatever other transactions run, an uploading row stays as it is exactly until its own queue
      or discard step, or a recovery. */
  lemma {:induction false} UploadUntil(config: Config, steps: seq<Step>, more: seq<Step>, id: Id)
    requires HasStatus(Run(config, steps), id, Uploading) && NoneReserves(more, id)
    ensures HasStatus(Run(config, steps + more), id, Uploading) <==> NoneEnds(more, id)
    ensures NoneEnds(more, id) ==> Run(config, steps + more).rows[id] == Run(config, steps).rows[id]
    decreases |more|
  {
    if |more| == 0 {
      assert steps + more == steps;
    } else {
      var front, last := more[..|more| - 1], more[|more| - 1];
      UploadUntil(config, steps, front, id);
      RunSnoc(config, steps, more);
      RunKeeps(config, steps + front);
      assert NoneEnds(more, id) <==> NoneEnds(front, id) && !EndsUpload(last, id) by {
        assert more == front + [last];
      }
      if NoneEnds(front, id) {
        UploadStep(Run(config, steps + front), config, last, id);
      } else {
        NoUploadStep(Run(config, steps + front), config, last, id);
      }
    }
  }

  /** An upload that was reserved is queued at last exactly when nothing has ended it meanwhile, and
      then as the row that was reserved. */
  lemma ReservedUploadQueues(config: Config, steps: seq<Step>, user: User, id: Id, now: nat, more: seq<Step>,
                             language: string)
    requires Reserve(Run(config, steps), config, user, id, now).1 == Done && NoneReserves(more, id)
    ensures var s := Run(config, steps + [StepReserve(user, id, now)] + more);
            var (t, outcome) := QueueUpload(s, id, language);
            && (outcome == Done <==> NoneEnds(more, id))
            && (outcome == Done ==> HasStatus(t, id, Queued) && t.rows[id].user == user && t.rows[id].startedAt == now)
  {
    var reserved := steps + [StepReserve(user, id, now)];
    assert reserved[..|reserved| - 1] == steps;
    assert Run(config, reserved) == Reserve(Run(config, steps), config, user, id, now).0;
    UploadUntil(config, reserved, more, id);
  }

  lemma SubmissionStep(s: State, config: Config, step: Step, id: Id)
    requires id in s.rows && s.rows[id].status != Uploading
    ensures var t := Apply(s, config, step).0;
            id in t.rows && SameSubmission(s.rows[id], t.rows[id]) && t.rows[id].status != Uploading
  {
  }

  /** Once queued, a submission is never lost and stays its user's, in its language and with its start,
      through claims, results, failures, recoveries, retries and disqualification. */
  lemma {:induction false} SubmittedForever(config: Config, steps: seq<Step>, more: seq<Step>, id: Id)
    requires id in Run(config, steps).rows && Run(config, steps).rows[id].status != Uploading
    ensures var t := Run(config, steps + more);
            id in t.rows && SameSubmission(Run(config, steps).rows[id], t.rows[id]) && t.rows[id].status != Uploading
    decreases |more|
  {
    if |more| == 0 {
      assert steps + more == steps;
    } else {
      SubmittedForever(config, steps, more[..|more| - 1], id);
      RunSnoc(config, steps, more);
      SubmissionStep(Run(config, steps + more[..|more| - 1]), config, more[|more| - 1], id);
    }
  }

  /** Discarding an upload undoes its reservation. */
  lemma DiscardUndoesReserve(s: State, config: Config, user: User, id: Id, now: nat)
    requires Reserve(s, config, user, id, now).1 == Done
    ensures var t := DiscardUpload(Reserve(s, config, user, id, now).0, id).0;
            t.rows == s.rows && t.job == s.job && t.published == s.published
  {
  }
}
