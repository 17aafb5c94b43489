/** The server object: each transaction of the queue in place on its tables, as a step of the
    machine of module Queue, so that everything proved of its runs holds of the object; and an
    upload from reservation to queue. */
module Server {
  import opened ReferenceFold
  import opened Queue

  class Server {
    const config: Config
    var rows: map<Id, Submission>
    var users: map<User, Option<Id>>
    var job: Option<Id>
    var published: Option<nat>
    /** The steps so far. */
    ghost var log: seq<Step>

    ghost function Contents(): State
      reads this
    {
      State(rows, users, job, published)
    }

    /** The tables are those after a run of the machine. */
    ghost predicate Valid()
      reads this
    {
      Contents() == Run(config, log)
    }

    /** So they keep what every run keeps. */
    lemma InOrder()
      requires Valid()
      ensures Inv(Contents(), config)
    {
      RunKeeps(config, log);
    }

    constructor (config: Config)
      ensures Valid() && log == [] && this.config == config
    {
      this.config := config;
      rows, users, job, published, log := map[], map[], None, None, [];
    }

    /** The machine's next step. */
    lemma Next(step: Step)
      requires Valid()
      ensures Run(config, log + [step]) == Apply(Contents(), config, step).0
    {
      assert (log + [step])[..|log|] == log;
    }

    /** SELECT COUNT(*) over the active rows, of one user or of all. */
    method CountActive(user: Option<User>) returns (active: nat)
      ensures user.Some? ==> (active > 0 <==> UserActive(rows, user.value))
      ensures user.None? ==> (active > 0 <==> AnyActive(rows))
    {
      active := 0;
      var left := rows.Keys;
      while left != {}
        invariant left <= rows.Keys
        invariant active > 0 <==> exists id :: id in rows.Keys - left && Active(rows[id].status) &&
                                               (user.Some? ==> rows[id].user == user.value)
        decreases |left|
      {
        var id :| id in left;
        left := left - {id};
        if Active(rows[id].status) && (user.Some? ==> rows[id].user == user.value) {
          active := active + 1;
          assert id in rows.Keys - left;
        }
      }
    }

    /** reserveSubmission: refused before the start, then while the user has an active row; else the
        user has exactly one new row, being uploaded. */
    method ReserveSubmission(user: User, id: Id, now: nat) returns (outcome: Outcome)
      requires Valid()
      modifies this
      ensures Valid() && log == old(log) + [StepReserve(user, id, now)]
      ensures (Contents(), outcome) == Reserve(old(Contents()), config, user, id, now)
      ensures outcome == if now < config.contestStart then ContestNotStarted
                         else if Busy(old(Contents()), user) then ActiveSubmission
                         else if id in old(rows) then DuplicateId else Done
      ensures outcome == Done ==> Admitted(old(Contents()), Contents(), user, id, now)
      ensures outcome != Done ==> Contents() == old(Contents())
    {
      Next(StepReserve(user, id, now));
      ReserveMeaning(Contents(), config, user, id, now, Reserve(Contents(), config, user, id, now).0,
                     Reserve(Contents(), config, user, id, now).1);
      log := log + [StepReserve(user, id, now)];
      if now < config.contestStart {
        return ContestNotStarted;
      }
      var active := CountActive(Some(user));
      if active > 0 {
        return ActiveSubmission;
      }
      if id in rows {
        return DuplicateId;
      }
      if user !in users {
        users := users[user := None];
      }
      rows := rows[id := Submission(user, Uploading, now, None, None, None, None, None, None)];
      outcome := Done;
    }

    /** queueUpload: exactly an uploading row enters the queue, at the place its start gives it, and
        its user has no upload left; anything else changes nothing. */
    method QueueUpload(id: Id, language: string) returns (outcome: Outcome)
      requires Valid()
      modifies this
      ensures Valid() && log == old(log) + [StepQueue(id, language)]
      ensures outcome == if HasStatus(old(Contents()), id, Uploading) then Done else UploadExpired
      ensures outcome == Done ==> Enqueued(old(Contents()), Contents(), id, language)
      ensures outcome != Done ==> Contents() == old(Contents())
    {
      InOrder();
      Next(StepQueue(id, language));
      log := log + [StepQueue(id, language)];
      if id !in rows || rows[id].status != Uploading {
        return UploadExpired;
      }
      rows := rows[id := rows[id].(language := Some(language), status := Queued)];
      QueueMeaning(old(Contents()), config, id, language, Contents(), Done);
      outcome := Done;
    }

    /** discardUpload: afterwards the row is not being uploaded.  No result is lost, and a user with
        no other active row may reserve again. */
    method DiscardUpload(id: Id)
      requires Valid()
      modifies this
      ensures Valid() && log == old(log) + [StepDiscard(id)]
      ensures !HasStatus(Contents(), id, Uploading)
      ensures HasStatus(old(Contents()), id, Uploading) ==> Discarded(old(Contents()), Contents(), id)
      ensures !HasStatus(old(Contents()), id, Uploading) ==> Contents() == old(Contents())
    {
      InOrder();
      Next(StepDiscard(id));
      log := log + [StepDiscard(id)];
      if id in rows && rows[id].status == Uploading {
        rows := rows - {id};
      }
      DiscardMeaning(old(Contents()), config, id, Contents());
    }

    /** What acceptSubmission does with a reserved row, whatever has happened to it meanwhile: the
        upload is parsed, stored and sent, then queued; every failure discards the row. */
    method FinishUpload(id: Id, parsed: Option<string>, stored: bool, sent: bool) returns (outcome: Outcome)
      requires Valid()
      modifies this
      ensures Valid()
      ensures outcome == Done <==> HasStatus(old(Contents()), id, Uploading) && parsed.Some? && stored && sent
      ensures outcome == Done ==> Enqueued(old(Contents()), Contents(), id, parsed.value)
      ensures outcome != Done && HasStatus(old(Contents()), id, Uploading) ==> Discarded(old(Contents()), Contents(), id)
      ensures outcome != Done && !HasStatus(old(Contents()), id, Uploading) ==> Contents() == old(Contents())
    {
      if parsed.None? || !stored || !sent {
        DiscardUpload(id);
        return Nothing;
      }
      outcome := QueueUpload(id, parsed.value);
      if outcome != Done {
        DiscardUpload(id);
      }
    }

    /** acceptSubmission with no other transaction between its own: an upload ends queued exactly when
        it was reserved, parsed, stored and sent, and any failure leaves the rows as they were. */
    method AcceptSubmission(user: User, id: Id, now: nat, parsed: Option<string>, stored: bool, sent: bool)
      returns (outcome: Outcome)
      requires Valid()
      modifies this
      ensures Valid()
      ensures outcome == Done <==>
              && now >= config.contestStart && !Busy(old(Contents()), user) && id !in old(rows)
              && parsed.Some? && stored && sent
      ensures outcome == Done ==> HasStatus(Contents(), id, Queued) && rows[id].language == parsed &&
                                  rows[id].user == user && rows[id].startedAt == now && rows - {id} == old(rows)
      ensures outcome != Done ==> rows == old(rows)
      ensures job == old(job) && published == old(published)
    {
      outcome := ReserveSubmission(user, id, now);
      if outcome == Done {
        outcome := FinishUpload(id, parsed, stored, sent);
      }
    }

    /** The SELECT of claimNext: the earliest queued row, and none exactly when nothing is queued. */
    method FirstQueued() returns (first: Option<Id>)
      ensures first.None? ==> forall id :: id in rows ==> rows[id].status != Queued
      ensures first.Some? ==> NextInQueue(rows, first.value)
    {
      first := None;
      var left := rows.Keys;
      while left != {}
        invariant left <= rows.Keys
        invariant first.None? ==> forall id :: id in rows.Keys - left ==> rows[id].status != Queued
        invariant first.Some? ==> first.value in rows.Keys - left && rows[first.value].status == Queued
        invariant first.Some? ==> forall id :: id in rows.Keys - left && rows[id].status == Queued ==>
                    id == first.value || Earlier(rows, first.value, id)
        decreases |left|
      {
        var id :| id in left;
        left := left - {id};
        if rows[id].status == Queued && (first.None? || Earlier(rows, id, first.value)) {
          first := Some(id);
        }
      }
    }

    /** claimNext: the earliest queued row, if any, is the job and the one row that runs, still in the
        same language and without a result; nothing else changes. */
    method ClaimNext() returns (claimed: Option<Id>)
      requires Valid() && job.None?
      modifies this
      ensures Valid()
      ensures claimed.None? ==> Contents() == old(Contents()) && forall id :: id in rows ==> rows[id].status != Queued
      ensures claimed.Some? ==> log == old(log) + [StepClaim(claimed.value)]
      ensures claimed.Some? ==> Claimed(old(Contents()), Contents(), claimed.value)
    {
      InOrder();
      claimed := FirstQueued();
      if claimed.Some? {
        Next(StepClaim(claimed.value));
        log := log + [StepClaim(claimed.value)];
        rows := rows[claimed.value := rows[claimed.value].(status := Running)];
        job := claimed;
        ClaimMeaning(old(Contents()), config, claimed.value, Contents(), Done);
      }
    }

    /** markInfrastructureFailure for the job in hand: its row has failed without a result, nothing
        runs any more, and the row can be retried. */
    method MarkInfrastructureFailure()
      requires Valid() && job.Some?
      modifies this
      ensures Valid() && log == old(log) + [StepFail]
      ensures Failed(old(Contents()), Contents())
    {
      InOrder();
      Next(StepFail);
      FailRunning();
      log := log + [StepFail];
      FailMeaning(old(Contents()), config, Contents());
    }

    /** The guarded update of markInfrastructureFailure. */
    method FailRunning()
      requires job.Some?
      modifies this`rows, this`job
      ensures Contents() == MarkFailure(old(Contents())).0
    {
      if job.value in rows && rows[job.value].status == Running {
        rows := rows[job.value := rows[job.value].(status := InfrastructureFailed)];
      }
      job := None;
    }

    /** storeResult for the job in hand: the row has its result and nothing runs any more.  Every
        user's pointer is the greatest eligible submission again, and only the row's own user can have
        a new one, the row itself. */
    method StoreResult(public: Benchmark, private: Option<Benchmark>)
      requires Valid() && job.Some?
      modifies this
      ensures Valid() && log == old(log) + [StepStore(public, private)]
      ensures HasResult(old(Contents()), Contents(), public, private)
      ensures Repointed(old(Contents()), Contents()) && Represented(Contents(), config)
    {
      InOrder();
      StaysRepresented(Contents(), config, StepStore(public, private));
      Next(StepStore(public, private));
      Store(public, private);
      log := log + [StepStore(public, private)];
      StoreResultMeaning(old(Contents()), config, public, private, Contents());
      StorePointerMeaning(old(Contents()), config, public, private, Contents());
    }

    /** The two updates of storeResult. */
    method Store(public: Benchmark, private: Option<Benchmark>)
      requires job.Some? && job.value in rows
      modifies this`rows, this`users, this`job
      ensures Contents() == Queue.StoreResult(old(Contents()), config, public, private).0
    {
      var id := job.value;
      var privateVerdict: Option<Verdict>, privateScore: Option<string> := None, None;
      if private.Some? {
        privateVerdict, privateScore := Some(private.value.verdict), private.value.score;
      }
      rows := rows[id := rows[id].(status := Completed, publicVerdict := Some(public.verdict), publicScore := public.score,
                                   privateVerdict := privateVerdict, privateScore := privateScore)];
      job := None;
      if public.verdict == Accepted {
        var user := rows[id].user;
        if user in users && rows[id].startedAt <= config.contestEnd {
          var current := users[user];
          if current.None? || current.value !in rows || Earlier(rows, current.value, id) {
            users := users[user := Some(id)];
          }
        }
      }
    }

    /** recoverInterrupted: running rows fail, unfinished uploads disappear, and everything else,
        queue and results, is as it was. */
    method RecoverInterrupted()
      requires Valid()
      modifies this
      ensures Valid() && log == old(log) + [StepRecover]
      ensures Recovered(old(Contents()), Contents())
    {
      Next(StepRecover);
      FailAndDelete();
      log := log + [StepRecover];
      RecoverMeaning(old(Contents()), Contents());
    }

    /** The two statements of recoverInterrupted. */
    method FailAndDelete()
      modifies this`rows, this`job
      ensures Contents() == Recover(old(Contents())).0
    {
      rows := map id | id in rows :: if rows[id].status == Running then rows[id].(status := InfrastructureFailed) else rows[id];
      rows := map id | id in rows && rows[id].status != Uploading :: rows[id];
      job := None;
    }

    /** retrySubmission: exactly a failed row goes back to its place in the queue.  The user then has
        one active row if and only if the user had none. */
    method RetrySubmission(id: Id) returns (outcome: Outcome)
      requires Valid()
      modifies this
      ensures Valid() && log == old(log) + [StepRetry(id)]
      ensures outcome == if HasStatus(old(Contents()), id, InfrastructureFailed) then Done else RetryNotAllowed
      ensures outcome == Done ==> Retried(old(Contents()), Contents(), id)
      ensures outcome != Done ==> Contents() == old(Contents())
    {
      InOrder();
      Next(StepRetry(id));
      log := log + [StepRetry(id)];
      if id !in rows || rows[id].status != InfrastructureFailed {
        return RetryNotAllowed;
      }
      rows := rows[id := rows[id].(status := Queued)];
      RetryMeaning(old(Contents()), config, id, Contents(), Done);
      outcome := Done;
    }

    /** disqualifySubmission: refused exactly for rows that are unknown, being uploaded or running.
        A disqualified row has its reason, keeps its result and is out of the queue. */
    method DisqualifySubmission(id: Id, reason: string) returns (outcome: Outcome)
      requires Valid()
      modifies this
      ensures Valid() && log == old(log) + [StepDisqualify(id, reason)]
      ensures outcome == NotFound <==> id !in old(rows)
      ensures outcome == SubmissionActive <==>
              HasStatus(old(Contents()), id, Uploading) || HasStatus(old(Contents()), id, Running)
      ensures outcome in {Done, NotFound, SubmissionActive}
      ensures outcome == Done ==> Removed(old(Contents()), Contents(), id, reason)
      ensures outcome != Done ==> Contents() == old(Contents())
    {
      Next(StepDisqualify(id, reason));
      log := log + [StepDisqualify(id, reason)];
      if id !in rows {
        return NotFound;
      }
      if rows[id].status == Uploading || rows[id].status == Running {
        return SubmissionActive;
      }
      rows := rows[id := rows[id].(disqualified := Some(reason), status := Disqualified)];
      DisqualifyMeaning(old(Contents()), id, reason, Contents(), Done);
      outcome := Done;
    }

    /** publishPrivate: succeeds exactly after the contest's end, with nothing active and nothing
        published, so that every row there is has its final place. */
    method PublishPrivate(now: nat) returns (outcome: Outcome)
      requires Valid()
      modifies this
      ensures Valid() && log == old(log) + [StepPublish(now)]
      ensures outcome == if old(published).Some? then AlreadyPublished else if now <= config.contestEnd then ContestNotEnded
                         else if exists o :: o in rows && rows[o].status in {Uploading, Queued, Running} then QueueNotDrained
                         else Done
      ensures published == if outcome == Done then Some(now) else old(published)
      ensures outcome == Done ==>
                forall o :: o in rows ==> rows[o].status in {Completed, InfrastructureFailed, Disqualified}
      ensures rows == old(rows) && users == old(users) && job == old(job)
    {
      Next(StepPublish(now));
      log := log + [StepPublish(now)];
      if published.Some? {
        return AlreadyPublished;
      }
      if now <= config.contestEnd {
        return ContestNotEnded;
      }
      var active := CountActive(None);
      if active > 0 {
        return QueueNotDrained;
      }
      published := Some(now);
      outcome := Done;
    }

    /** unpublishPrivate: nothing is published afterwards, and publishing depends on the clock and the
        queue alone again. */
    method UnpublishPrivate() returns (outcome: Outcome)
      requires Valid()
      modifies this
      ensures Valid() && log == old(log) + [StepUnpublish]
      ensures outcome == if old(published).Some? then Done else NotPublished
      ensures published.None?
      ensures forall now: nat :: Queue.PublishPrivate(Contents(), config, now).1 == Done <==>
                                 now > config.contestEnd && !AnyActive(rows)
      ensures rows == old(rows) && users == old(users) && job == old(job)
    {
      Next(StepUnpublish);
      log := log + [StepUnpublish];
      if published.None? {
        return NotPublished;
      }
      published := None;
      outcome := Done;
    }
  }
}
