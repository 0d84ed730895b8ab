// The handlers and management commands as they run: each reads rows from the
// table into Submission objects, assigns their fields, and saves them.  Each
// method is proved to do to the table and the log what the state machine of
// module Lifecycle says.
module Handlers {
  import opened Collections
  import opened Timestamps
  import opened Submissions
  import opened Reporting
  import opened Lifecycle
  import FileDicts

  /** A model instance: a copy of a row in memory, with an id once it is in the table. */
  class Submission {
    var id: Option<Id>
    var requesterId: string
    var callbackUrl: string
    var queue: string
    var header: string
    var body: string
    var keys: string
    var urls: string
    var arrival: Time
    var pullTime: Option<Time>
    var pushTime: Option<Time>
    var returnTime: Option<Time>
    var graderId: string
    var pullkey: string
    var graderReply: string
    var failures: nat
    var lmsAck: bool
    var retired: bool

    /** A row read from the table. */
    constructor FromRow(id: Id, row: Row)
      ensures this.id == Some(id) && AsRow() == row
    {
      this.id := Some(id);
      requesterId, callbackUrl, queue := row.requesterId, row.callbackUrl, row.queue;
      header, body := row.header, row.body;
      keys, urls, arrival := row.keys, row.urls, row.arrival;
      pullTime, pushTime, returnTime := row.pullTime, row.pushTime, row.returnTime;
      graderId, pullkey, graderReply := row.graderId, row.pullkey, row.graderReply;
      failures, lmsAck, retired := row.failures, row.lmsAck, row.retired;
    }

    /** A new submission, with the columns' defaults. */
    constructor (requesterId: string, callbackUrl: string, queue: string, header: string, body: string,
                 keys: string, urls: string)
      ensures id == None
      ensures forall at: Time ::
                AsRow().(arrival := at) == Row(requesterId, callbackUrl, queue, header, body, keys, urls, at,
                                               None, None, None, "", "", "", 0, false, false)
    {
      id := None;
      this.requesterId, this.callbackUrl, this.queue := requesterId, callbackUrl, queue;
      this.header, this.body, this.keys, this.urls := header, body, keys, urls;
      arrival := 0;
      pullTime, pushTime, returnTime := None, None, None;
      graderId, pullkey, graderReply := "", "", "";
      failures, lmsAck, retired := 0, false, false;
    }

    function AsRow(): Row
      reads this
    {
      Row(requesterId, callbackUrl, queue, header, body, keys, urls, arrival, pullTime, pushTime, returnTime,
          graderId, pullkey, graderReply, failures, lmsAck, retired)
    }
  }

  datatype PullReply =
    | QueueNotFound
    | QueueEmpty
    | FetchError
    | InternalError
    | Payload(id: Id, key: string, body: string, files: string)

  /** What a worker sends to its queue's grader: the URL, and the payload's two entries. */
  datatype PushRequest = PushRequest(url: string, body: string, files: string)

  datatype ResultReply = NoSuchSubmission | IncorrectKey | ResultAccepted

  datatype SubmitReply = UnknownQueue | Queued(count: nat)

  /** The --retire-before option, parsed. */
  datatype Before = Always | BadDate | Until(cutoff: Time)

  class Xqueue {
    const cfg: Config
    var rows: Table
    var nextId: Id
    var log: seq<Post>

    constructor (cfg: Config)
      ensures this.cfg == cfg && View(0) == INIT
    {
      this.cfg := cfg;
      rows, nextId, log := map[], 1, [];
    }

    ghost function View(now: Time): State
      reads this
    {
      State(rows, nextId, now, log)
    }

    /** The table, the log and the clock are as a run from `start` leaves them. */
    ghost predicate Reached(start: State, run: Run, now: Time)
      reads this
    {
      Legal(cfg, start, run) && View(now) == After(cfg, start, run)
    }

    /** save(): every column of the instance is written, under its id or a new one. */
    method Save(s: Submission, now: Time)
      modifies this`rows, this`nextId, s`id, s`arrival
      ensures old(s.id).Some? ==> s.id == old(s.id) && s.arrival == old(s.arrival) && nextId == old(nextId)
                                  && rows == old(rows)[old(s.id).value := old(s.AsRow())]
      ensures old(s.id).None? ==> s.id == Some(old(nextId)) && s.arrival == now && nextId == old(nextId) + 1
                                  && rows == old(rows)[old(nextId) := old(s.AsRow()).(arrival := now)]
    {
      if s.id.None? {
        s.id, s.arrival := Some(nextId), now;
        nextId := nextId + 1;
      }
      rows := rows[s.id.value := s.AsRow()];
    }

    // ---------------------------------------------------------------- consumer.py

    method PostGradeToLms(header: string, body: string, answers: Attempts) returns (success: bool)
      modifies this`log
      ensures log == old(log) + Posts(header, body, answers)
      ensures success == Delivered(answers)
    {
      var attempts := 0;
      success := false;
      ghost var all := old(log) + Posts(header, body, answers);
      assert answers[0..] == answers;
      while !success && attempts < MAX_ATTEMPTS
        invariant 0 <= attempts <= MAX_ATTEMPTS
        invariant if success then Delivered(answers) else Delivered(answers) <==> Delivered(answers[attempts..])
        invariant all == if success then log else log + Posts(header, body, answers[attempts..])
      {
        NextAttempt(log, header, body, answers, attempts);
        success := answers[attempts];
        log := log + [Post(header, body, success)];
        attempts := attempts + 1;
      }
    }

    method PostFailureToLms(header: string, answers: Attempts) returns (success: bool)
      modifies this`log
      ensures log == old(log) + Posts(header, FAILURE_MESSAGE, answers)
      ensures success == Delivered(answers)
    {
      success := PostGradeToLms(header, FAILURE_MESSAGE, answers);
    }

    /** One round of a queue's push worker: nothing if no row of the queue can be pushed; otherwise one that can is
        sent to the queue's grader. */
    method DeliverSubmission(queue: string, asked: Time, at: Time, returned: Time, grading: Grading, answers: Attempts)
      returns (sent: Option<PushRequest>, ghost step: Option<Step>)
      requires queue in cfg.queues && cfg.queues[queue].Some? && asked <= at <= returned
      modifies this`rows, this`nextId, this`log
      ensures step == None ==> sent == None && View(asked) == old(View(asked))
      ensures step == None ==>
                forall id | id in rows ::
                  !(rows[id].queue == queue && !rows[id].retired
                    && (rows[id].pushTime.None? || rows[id].pushTime.value + cfg.delay <= asked))
      ensures step.Some? ==> step.value.Deliver?
                             && step.value == Deliver(step.value.id, queue, asked, at, returned, grading, answers)
                             && InTurn(cfg, old(View(asked)), step.value)
                             && View(returned) == Apply(cfg, old(View(asked)), step.value)
      ensures step.Some? ==>
                step.value.id in old(rows) && old(rows)[step.value.id].queue == queue
                && sent == Some(PushRequest(cfg.queues[queue].value, old(rows)[step.value.id].body,
                                            old(rows)[step.value.id].urls))
    {
      var candidates := PushableIds(cfg, rows, queue, asked);
      if candidates == {} {
        forall id | id in rows
          ensures !(rows[id].queue == queue && !rows[id].retired
                    && (rows[id].pushTime.None? || rows[id].pushTime.value + cfg.delay <= asked))
        {
          assert id !in candidates;
        }
        sent, step := None, None;
        return;
      }
      FirstExists(rows, candidates);
      var id :| id in candidates && IsFirst(rows, candidates, id);
      var submission := new Submission.FromRow(id, rows[id]);
      sent := Some(PushRequest(cfg.queues[queue].value, submission.body, submission.urls));
      PushAndSave(submission, cfg.queues[queue].value, at, returned, grading, answers);
      step := Some(Deliver(id, queue, asked, at, returned, grading, answers));
      OneRowSaved(cfg, old(View(asked)), step.value, id);
    }

    method PushAndSave(submission: Submission, url: string, at: Time, returned: Time, grading: Grading,
                       answers: Attempts)
      requires submission.id.Some?
      modifies this`rows, this`nextId, this`log, submission
      ensures rows == old(rows)[old(submission.id).value :=
                        Pushed(old(submission.AsRow()), url, at, returned, grading, Delivered(answers))]
      ensures nextId == old(nextId)
      ensures log == old(log) + Posts(old(submission.header),
                                      if grading.Graded? then grading.reply else FAILURE_MESSAGE, answers)
    {
      ghost var read := submission.AsRow();
      submission.graderId := url;
      submission.pushTime := Some(at);
      submission.returnTime := Some(returned);
      ReportGrading(submission, grading, answers);
      submission.retired := true;
      assert submission.AsRow() == Pushed(read, url, at, returned, grading, Delivered(answers));
      Save(submission, returned);
    }

    method ReportGrading(submission: Submission, grading: Grading, answers: Attempts)
      modifies this`log, submission
      ensures submission.id == old(submission.id)
      ensures var row := old(submission.AsRow()).(lmsAck := Delivered(answers));
              submission.AsRow() == match grading
                                    case Graded(reply) => row.(graderReply := reply)
                                    case Unreachable(_) => row.(failures := row.failures + 1)
      ensures log == old(log) + Posts(old(submission.header),
                                      if grading.Graded? then grading.reply else FAILURE_MESSAGE, answers)
    {
      match grading {
        case Graded(reply) =>
          submission.graderReply := reply;
          submission.lmsAck := PostGradeToLms(submission.header, reply, answers);
        case Unreachable(_) =>
          submission.failures := submission.failures + 1;
          submission.lmsAck := PostFailureToLms(submission.header, answers);
      }
    }

    // ------------------------------------------------------------ ext_interface.py

    /** The lease is taken whether or not the files can then be fetched. */
    method GetSubmission(queue: string, grader: string, asked: Time, at: Time, fetch: string -> Option<string>)
      returns (reply: PullReply, ghost step: Option<Step>)
      requires asked <= at
      modifies this`rows, this`nextId
      ensures step.None? <==> queue !in cfg.queues
      ensures step.None? ==> reply == QueueNotFound && View(at) == old(View(at))
      ensures step.Some? ==> step.value.Pull? && step.value == Pull(queue, grader, asked, at, step.value.choice)
                             && InTurn(cfg, old(View(asked)), step.value)
                             && View(at) == Apply(cfg, old(View(asked)), step.value)
      ensures step.Some? ==>
                match step.value.choice
                case None => reply == QueueEmpty
                case Some(id) =>
                  id in old(rows)
                  && match FileDicts.FilesForGrader(old(rows)[id].urls, fetch)
                     case Files(text) => reply == Payload(id, cfg.hash(Seed(at, id)), old(rows)[id].body, text)
                                         && id in rows && rows[id].pullkey == reply.key
                     case FetchFailed => reply == FetchError
                     case ServerError => reply == InternalError
    {
      if queue !in cfg.queues {
        reply, step := QueueNotFound, None;
        return;
      }
      var candidates := PullableIds(cfg, rows, queue, asked);
      if candidates == {} {
        reply, step := QueueEmpty, Some(Pull(queue, grader, asked, at, None));
        NoRowSaved(cfg, View(asked), step.value);
        return;
      }
      FirstExists(rows, candidates);
      var id :| id in candidates && IsFirst(rows, candidates, id);
      var submission := new Submission.FromRow(id, rows[id]);
      var pullkey := LeaseAndSave(submission, grader, at);
      step := Some(Pull(queue, grader, asked, at, Some(id)));
      OneRowSaved(cfg, old(View(asked)), step.value, id);
      match FileDicts.FilesForGrader(submission.urls, fetch) {
        case Files(text) => reply := Payload(id, pullkey, submission.body, text);
        case FetchFailed => reply := FetchError;
        case ServerError => reply := InternalError;
      }
    }

    method LeaseAndSave(submission: Submission, grader: string, at: Time) returns (pullkey: string)
      requires submission.id.Some?
      modifies this`rows, this`nextId, submission
      ensures var id, row := old(submission.id).value, old(submission.AsRow());
              rows == old(rows)[id := Pulled(cfg, row, id, grader, at)]
              && pullkey == cfg.hash(Seed(at, id))
              && submission.urls == row.urls && submission.body == row.body
      ensures nextId == old(nextId)
    {
      pullkey := cfg.hash(Seed(at, submission.id.value));
      submission.graderId := grader;
      submission.pullTime := Some(at);
      submission.pullkey := pullkey;
      Save(submission, at);
    }

    method PutResult(id: Id, key: string, graderReply: string, at: Time, answers: Attempts) returns (reply: ResultReply)
      modifies this`rows, this`nextId, this`log
      ensures Enabled(cfg, old(View(at)), Step.PutResult(id, key, graderReply, at, answers))
      ensures View(at) == Apply(cfg, old(View(at)), Step.PutResult(id, key, graderReply, at, answers))
      ensures reply == if id !in old(rows) then NoSuchSubmission
                       else if old(rows)[id].pullkey != "" && key == old(rows)[id].pullkey then ResultAccepted
                       else IncorrectKey
    {
      ghost var step := Step.PutResult(id, key, graderReply, at, answers);
      if id !in rows {
        NoRowSaved(cfg, View(at), step);
        return NoSuchSubmission;
      }
      var submission := new Submission.FromRow(id, rows[id]);
      if submission.pullkey == "" || key != submission.pullkey {
        NoRowSaved(cfg, View(at), step);
        return IncorrectKey;
      }
      Settle(submission, graderReply, at, answers);
      Save(submission, at);
      OneRowSaved(cfg, old(View(at)), step, id);
      return ResultAccepted;
    }

    /** Reports the result to the LMS, and counts a failure, retires or reopens accordingly. */
    method Settle(submission: Submission, graderReply: string, at: Time, answers: Attempts)
      modifies this`log, submission
      ensures submission.id == old(submission.id)
      ensures submission.AsRow() == Returned(cfg, old(submission.AsRow()), graderReply, at, Delivered(answers))
      ensures log == old(log) + Posts(old(submission.header), graderReply, answers)
    {
      submission.returnTime := Some(at);
      submission.graderReply := graderReply;
      var success := PostGradeToLms(submission.header, graderReply, answers);
      RecordOutcome(submission, success);
    }

    method RecordOutcome(submission: Submission, success: bool)
      modifies submission
      ensures submission.id == old(submission.id)
      ensures submission.AsRow() == WithOutcome(cfg, old(submission.AsRow()), success)
    {
      submission.lmsAck := success;
      if !success {
        submission.failures := submission.failures + 1;
      }
      if submission.failures > cfg.maxFailures {
        submission.retired := true;
      } else {
        submission.retired := submission.lmsAck;
      }
    }

    // ------------------------------------------------------------ lms_interface.py

    method InvalidatePriorSubmissions(callback: string)
      modifies this`rows
      ensures rows == RowsAfter(cfg, old(rows), SubmitAborted(callback))
    {
      rows := map id | id in rows ::
                if rows[id].callbackUrl == CallbackKey(callback) && !rows[id].retired
                then rows[id].(retired := true) else rows[id];
    }

    method Insert(requesterId: string, callback: string, queue: string, header: string, body: string,
                  columns: FileDicts.Columns, at: Time)
      modifies this`rows, this`nextId
      ensures rows == old(rows)[old(nextId) := NewRow(Step.Submit(at, requesterId, callback, queue, header, body,
                                                                  columns.keys, columns.urls))]
      ensures nextId == old(nextId) + 1
    {
      var submission := new Submission(requesterId, CallbackKey(callback), queue, header, body,
                                       columns.keys, columns.urls);
      Save(submission, at);
    }

    /** The reply counts every available row of the queue, the new one included. */
    method Submit(requesterId: string, callback: string, queue: string, header: string, body: string,
                  files: seq<FileDicts.Upload>, url: string -> string, storage: FileDicts.Storage,
                  at: Time, asked: Time)
      returns (reply: SubmitReply)
      requires Distinct(FileDicts.Names(files)) && at <= asked
      modifies this`rows, this`nextId, storage
      ensures queue !in cfg.queues ==> reply == UnknownQueue && View(at) == old(View(at))
                                       && storage.blobs == old(storage.blobs)
      ensures queue in cfg.queues ==>
                var c := FileDicts.Encoded(FileDicts.Setup(cfg.hash, url, header, queue), FileDicts.Names(files));
                && Enabled(cfg, old(View(at)),
                           Step.Submit(at, requesterId, callback, queue, header, body, c.keys, c.urls))
                && View(at) == Apply(cfg, old(View(at)),
                                     Step.Submit(at, requesterId, callback, queue, header, body, c.keys, c.urls))
                && storage.blobs == FileDicts.Uploaded(old(storage.blobs),
                                                       FileDicts.Setup(cfg.hash, url, header, queue), files)
                && reply == Queued(QueueLength(cfg, rows, queue, asked))
                && reply.count >= 1
    {
      if queue !in cfg.queues {
        return UnknownQueue;
      }
      InvalidatePriorSubmissions(callback);
      var columns := storage.EncodeFiles(FileDicts.Setup(cfg.hash, url, header, queue), files);
      ghost var step := Step.Submit(at, requesterId, callback, queue, header, body, columns.keys, columns.urls);
      SubmitIsInvalidateAndInsert(cfg, old(View(at)), step);
      Insert(requesterId, callback, queue, header, body, columns, at);
      NewRowIsAvailable(cfg, rows, old(nextId), queue, asked);
      reply := Queued(QueueLength(cfg, rows, queue, asked));
    }

    // --------------------------------------------------------- management commands

    /** Unretired rows with failures, of one queue or of all. */
    function FailedIds(queue: Option<string>): set<Id>
      reads this
    {
      set id | id in rows && IsCandidate(rows[id], queue)
    }

    /** The loop of retire_failed_submissions over one queryset: one RetireFailed step for each row that is at
        the limit, in some order, and the posts of these steps. */
    method RetireSubmissions(queue: Option<string>, force: bool, answers: Id -> Attempts, now: Time)
      returns (ghost order: seq<Id>)
      modifies this`rows, this`nextId, this`log
      ensures Reached(old(View(now)), SweepRun(OfFailed(force), order, answers), now)
      ensures IsOrderOf(order, FailedAtLimit(cfg, old(rows), queue))
      ensures rows == PassedTable(cfg, old(rows), queue, force, answers)
      ensures log == old(log) + SweepPosts(OfFailed(force), old(rows), order, answers)
    {
      order := [];
      ghost var start, sweep := View(now), OfFailed(force);
      ghost var after, due := PassedTable(cfg, rows, queue, force, answers), FailedAtLimit(cfg, rows, queue);
      var left := FailedIds(queue);
      SweepStart(cfg, start, sweep, answers, due, after, left);
      while left != {}
        invariant left <= old(FailedIds(queue))
        invariant Sweeping(cfg, start, View(now), sweep, order, answers, due, after, left)
        decreases left
      {
        var id :| id in left;  // the database returns the rows in any order
        order := RetireIfAtLimit(id, queue, force, answers, now, start, order, left);
        left := left - {id};
      }
      SweepEnd(cfg, start, View(now), sweep, order, answers, due, after);
    }

    /** One row of the queryset. */
    method RetireIfAtLimit(id: Id, queue: Option<string>, force: bool, answers: Id -> Attempts, now: Time,
                           ghost start: State, ghost order: seq<Id>, ghost left: set<Id>)
      returns (ghost longer: seq<Id>)
      requires id in left && id in start.rows && IsCandidate(start.rows[id], queue)
      requires Sweeping(cfg, start, View(now), OfFailed(force), order, answers,
                        FailedAtLimit(cfg, start.rows, queue),
                        PassedTable(cfg, start.rows, queue, force, answers), left)
      modifies this`rows, this`nextId, this`log
      ensures Sweeping(cfg, start, View(now), OfFailed(force), longer, answers,
                       FailedAtLimit(cfg, start.rows, queue),
                       PassedTable(cfg, start.rows, queue, force, answers), left - {id})
    {
      ghost var s, due := View(now), FailedAtLimit(cfg, start.rows, queue);
      ghost var after := PassedTable(cfg, start.rows, queue, force, answers);
      longer := order;
      if rows[id].failures >= cfg.maxFailures {
        RetireAndSave(id, force, answers(id), now);
        SweepNext(cfg, start, s, OfFailed(force), order, answers, due, after, left, id);
        longer := order + [id];
      } else {
        SweepSkip(cfg, start, s, OfFailed(force), order, answers, due, after, left, id);
      }
    }

    method RetireAndSave(id: Id, force: bool, answers: Attempts, now: Time)
      requires id in rows && Guard(cfg, RetireFailed(id, force, answers), rows[id])
      modifies this`rows, this`nextId, this`log
      ensures View(now) == Apply(cfg, old(View(now)), RetireFailed(id, force, answers))
    {
      OneRowSaved(cfg, View(now), RetireFailed(id, force, answers), id);
      var submission := new Submission.FromRow(id, rows[id]);
      RetireFailedOne(submission, force, answers);
      Save(submission, now);
    }

    method RetireFailedOne(submission: Submission, force: bool, answers: Attempts)
      modifies this`log, submission
      ensures submission.id == old(submission.id)
      ensures submission.AsRow() == FailureRetired(old(submission.AsRow()), force, Delivered(answers))
      ensures log == old(log) + if force then [] else Posts(old(submission.header), FAILURE_MESSAGE, answers)
    {
      if force {
        submission.retired := true;  // without contacting the LMS
      } else {
        submission.lmsAck := PostFailureToLms(submission.header, answers);
        submission.retired := submission.lmsAck;
      }
    }

    /** The passes made so far are a run from `start`, with these orders. */
    ghost predicate PassesReached(start: State, passes: seq<Option<string>>, orders: seq<seq<Id>>, force: bool,
                                  answers: seq<Id -> Attempts>, now: Time)
      reads this
    {
      && |orders| == |passes| <= |answers|
      && Reached(start, PassesRun(orders, force, answers), now)
      && OrdersOk(cfg, start.rows, passes, orders, force, answers)
      && rows == AllPassed(cfg, start.rows, passes, force, answers)
      && log == start.log + PassesPosts(start.rows, orders, force, answers)
    }

    method RetirePass(queue: Option<string>, force: bool, answers: seq<Id -> Attempts>, i: nat, now: Time,
                      ghost start: State, ghost passes: seq<Option<string>>, ghost orders: seq<seq<Id>>)
      returns (ghost longer: seq<seq<Id>>)
      requires i == |passes| < |answers| && PassesReached(start, passes, orders, force, answers, now)
      modifies this`rows, this`nextId, this`log
      ensures PassesReached(start, passes + [queue], longer, force, answers, now)
    {
      ghost var s := View(now);
      ghost var order := RetireSubmissions(queue, force, answers[i], now);
      PassesNextRun(cfg, start, s, View(now), orders, order, force, answers);
      PassesNext(cfg, start.rows, s.rows, passes, orders, queue, order, force, answers);
      LogsAssoc(start.log, PassesPosts(start.rows, orders, force, answers),
                SweepPosts(OfFailed(force), s.rows, order, answers[i]));
      longer := orders + [order];
    }

    /** retire_failed_submissions: one pass over all queues, or over each queue named, one after the other.  The
        rows are what the passes make of them; each pass has one step for every row then due and no
        other, with its posts and no others. */
    method RetireFailedSubmissions(queues: seq<string>, force: bool, answers: seq<Id -> Attempts>, now: Time)
      returns (ghost orders: seq<seq<Id>>)
      requires |answers| == |Passes(queues)|
      modifies this`rows, this`nextId, this`log
      ensures PassesReached(old(View(now)), Passes(queues), orders, force, answers, now)
    {
      ghost var start, passes := View(now), Passes(queues);
      orders := [];
      if |queues| == 0 {
        orders := RetirePass(None, force, answers, 0, now, start, [], orders);
        assert [] + [None] == passes;
      } else {
        for i := 0 to |queues|
          invariant PassesReached(start, passes[..i], orders, force, answers, now)
        {
          assert passes[..i] + [passes[i]] == passes[..i + 1];
          orders := RetirePass(Some(queues[i]), force, answers, i, now, start, passes[..i], orders);
        }
        assert passes[..|queues|] == passes;
      }
    }

    method AgeOutAndSave(id: Id, answers: Attempts, now: Time)
      requires id in rows && Guard(cfg, RetireOld(id, answers), rows[id])
      modifies this`rows, this`nextId, this`log
      ensures View(now) == Apply(cfg, old(View(now)), RetireOld(id, answers))
    {
      OneRowSaved(cfg, View(now), RetireOld(id, answers), id);
      var submission := new Submission.FromRow(id, rows[id]);
      submission.retired := true;
      submission.lmsAck := PostFailureToLms(submission.header, answers);
      assert submission.AsRow() == rows[id].(retired := true, lmsAck := Delivered(answers));
      Save(submission, now);
    }

    /** Unretired rows of a queue, up to the date if there is one. */
    function OldIds(queue: string, before: Before): set<Id>
      reads this
    {
      set id | id in rows && rows[id].queue == queue && !rows[id].retired
               && (before.Until? ==> rows[id].arrival <= before.cutoff)
    }

    /** retire_old_submissions: one RetireOld step for each of these rows, in some order, retires them whatever
        the LMS answers; unless the date cannot be read. */
    method RetireOldSubmissions(queue: string, before: Before, answers: Id -> Attempts, now: Time)
      returns (ok: bool, ghost order: seq<Id>)
      modifies this`rows, this`nextId, this`log
      ensures ok == !before.BadDate?
      ensures Reached(old(View(now)), SweepRun(OfOld, order, answers), now)
      ensures Distinct(order)
      ensures forall id :: id in order
                <==> ok && id in old(rows) && old(rows)[id].queue == queue && !old(rows)[id].retired
                     && (before.Until? ==> old(rows)[id].arrival <= before.cutoff)
      ensures rows.Keys == old(rows).Keys
      ensures forall id | id in rows ::
                rows[id] == if id in order then old(rows)[id].(retired := true, lmsAck := Delivered(answers(id)))
                            else old(rows)[id]
      ensures log == old(log) + SweepPosts(OfOld, old(rows), order, answers)
    {
      order, ok := [], !before.BadDate?;
      if ok {
        order := AgeOutAll(queue, before, answers, now);
        ElementsOf(order);
      }
    }

    /** One row of the queryset. */
    method AgeOutNext(id: Id, answers: Id -> Attempts, now: Time,
                      ghost start: State, ghost order: seq<Id>, ghost due: set<Id>, ghost left: set<Id>)
      requires id in left && id in due && id in start.rows && !start.rows[id].retired
      requires Sweeping(cfg, start, View(now), OfOld, order, answers, due, AgedOut(start.rows, due, answers), left)
      modifies this`rows, this`nextId, this`log
      ensures Sweeping(cfg, start, View(now), OfOld, order + [id], answers, due, AgedOut(start.rows, due, answers),
                       left - {id})
    {
      ghost var s := View(now);
      AgeOutAndSave(id, answers(id), now);
      SweepNext(cfg, start, s, OfOld, order, answers, due, AgedOut(start.rows, due, answers), left, id);
    }

    method AgeOutAll(queue: string, before: Before, answers: Id -> Attempts, now: Time)
      returns (ghost order: seq<Id>)
      modifies this`rows, this`nextId, this`log
      ensures Reached(old(View(now)), SweepRun(OfOld, order, answers), now)
      ensures IsOrderOf(order, old(OldIds(queue, before)))
      ensures rows == AgedOut(old(rows), old(OldIds(queue, before)), answers)
      ensures log == old(log) + SweepPosts(OfOld, old(rows), order, answers)
    {
      order := [];
      ghost var start, due := View(now), OldIds(queue, before);
      ghost var after := AgedOut(rows, due, answers);
      var left := OldIds(queue, before);
      SweepStart(cfg, start, OfOld, answers, due, after, left);
      while left != {}
        invariant left <= due && Sweeping(cfg, start, View(now), OfOld, order, answers, due, after, left)
        decreases left
      {
        var id :| id in left;  // the database returns the rows in any order
        AgeOutNext(id, answers, now, start, order, due, left);
        order := order + [id];
        left := left - {id};
      }
      SweepEnd(cfg, start, View(now), OfOld, order, answers, due, after);
    }
  }

  // -------------------------------------------------- what the retire commands leave behind

  /** Which retire command makes the steps. */
  datatype Sweep = OfFailed(force: bool) | OfOld

  function SweepStep(sweep: Sweep, id: Id, answers: Attempts): Step {
    match sweep
    case OfFailed(force) => RetireFailed(id, force, answers)
    case OfOld => RetireOld(id, answers)
  }

  /** One step for each row of the order. */
  function SweepRun(sweep: Sweep, order: seq<Id>, answers: Id -> Attempts): Run {
    if order == [] then Start
    else
      var last := order[|order| - 1];
      Then(SweepRun(sweep, order[..|order| - 1], answers), SweepStep(sweep, last, answers(last)))
  }

  /** One report of a failure for each row of the order; none by force. */
  function SweepPosts(sweep: Sweep, rows: Table, order: seq<Id>, answers: Id -> Attempts): seq<Post> {
    if order == [] || sweep == OfFailed(true) then []
    else
      var last := order[|order| - 1];
      SweepPosts(sweep, rows, order[..|order| - 1], answers)
      + (if last in rows then Posts(rows[last].header, FAILURE_MESSAGE, answers(last)) else [])
  }

  predicate IsOrderOf(order: seq<Id>, ids: set<Id>) {
    Distinct(order) && Elements(order) == ids
  }

  /** An unretired row with failures, of the queue or of any. */
  predicate IsCandidate(row: Row, queue: Option<string>) {
    (queue.Some? ==> row.queue == queue.value) && !row.retired && row.failures != 0
  }

  /** And at the limit. */
  predicate IsFailed(cfg: Config, row: Row, queue: Option<string>) {
    IsCandidate(row, queue) && row.failures >= cfg.maxFailures
  }

  function FailedAtLimit(cfg: Config, rows: Table, queue: Option<string>): set<Id> {
    set id | id in rows && IsFailed(cfg, rows[id], queue)
  }

  /** What retire_failed_submissions makes of a row in one pass over a queryset. */
  function AfterPass(cfg: Config, row: Row, queue: Option<string>, force: bool, ok: bool): Row {
    if IsFailed(cfg, row, queue) then FailureRetired(row, force, ok) else row
  }

  function PassedTable(cfg: Config, rows: Table, queue: Option<string>, force: bool, answers: Id -> Attempts): Table {
    map id | id in rows :: AfterPass(cfg, rows[id], queue, force, Delivered(answers(id)))
  }

  function AgedOut(rows: Table, ids: set<Id>, answers: Id -> Attempts): Table {
    map id | id in rows ::
      if id in ids then rows[id].(retired := true, lmsAck := Delivered(answers(id))) else rows[id]
  }

  /** The rows still to come are as they were, the others as they will be. */
  ghost predicate PartlyDone(before: Table, after: Table, rows: Table, left: set<Id>) {
    && before.Keys == after.Keys == rows.Keys
    && forall id | id in rows :: rows[id] == if id in left then before[id] else after[id]
  }

  /** In the middle of a sweep: of the rows of the queryset, `left` are still to come; those `due` among the others
      have had their step, and the table is on its way to `after`. */
  ghost predicate Sweeping(cfg: Config, start: State, s: State, sweep: Sweep, order: seq<Id>, answers: Id -> Attempts,
                           due: set<Id>, after: Table, left: set<Id>)
  {
    && Legal(cfg, start, SweepRun(sweep, order, answers)) && s == After(cfg, start, SweepRun(sweep, order, answers))
    && IsOrderOf(order, due - left) && left <= start.rows.Keys
    && PartlyDone(start.rows, after, s.rows, left)
    && forall id | id in start.rows && id !in due :: after[id] == start.rows[id]
  }

  lemma ElementsOf(order: seq<Id>)
    ensures forall id :: id in order <==> id in Elements(order)
  {
  }

  lemma SweepStart(cfg: Config, start: State, sweep: Sweep, answers: Id -> Attempts, due: set<Id>, after: Table,
                   left: set<Id>)
    requires due <= left <= start.rows.Keys == after.Keys
    requires forall id | id in start.rows && id !in due :: after[id] == start.rows[id]
    ensures Sweeping(cfg, start, start, sweep, [], answers, due, after, left)
  {
    assert due - left == {};
  }

  lemma SweepNext(cfg: Config, start: State, s: State, sweep: Sweep, order: seq<Id>, answers: Id -> Attempts,
                  due: set<Id>, after: Table, left: set<Id>, id: Id)
    requires Sweeping(cfg, start, s, sweep, order, answers, due, after, left) && id in left && id in due
    requires var step := SweepStep(sweep, id, answers(id));
             Enabled(cfg, s, step) && RowAfter(cfg, step, id, s.rows[id]) == after[id]
    ensures var s' := Apply(cfg, s, SweepStep(sweep, id, answers(id)));
            Sweeping(cfg, start, s', sweep, order + [id], answers, due, after, left - {id})
  {
    OrderNext(order, due, left, id);
    OneRowSaved(cfg, s, SweepStep(sweep, id, answers(id)), id);
  }

  lemma SweepSkip(cfg: Config, start: State, s: State, sweep: Sweep, order: seq<Id>, answers: Id -> Attempts,
                  due: set<Id>, after: Table, left: set<Id>, id: Id)
    requires Sweeping(cfg, start, s, sweep, order, answers, due, after, left) && id in left && id !in due
    ensures Sweeping(cfg, start, s, sweep, order, answers, due, after, left - {id})
  {
    assert due - (left - {id}) == due - left;
  }

  lemma SweepEnd(cfg: Config, start: State, s: State, sweep: Sweep, order: seq<Id>, answers: Id -> Attempts,
                 due: set<Id>, after: Table)
    requires Sweeping(cfg, start, s, sweep, order, answers, due, after, {}) && due <= start.rows.Keys
    ensures IsOrderOf(order, due) && s.rows == after
    ensures s.log == start.log + SweepPosts(sweep, start.rows, order, answers)
  {
    assert due - {} == due;
    SweepLog(cfg, start, sweep, order, answers);
  }

  lemma OrderNext(order: seq<Id>, ids: set<Id>, left: set<Id>, id: Id)
    requires IsOrderOf(order, ids - left) && id in ids && id in left
    ensures IsOrderOf(order + [id], ids - (left - {id}))
    ensures (order + [id])[..|order|] == order
  {
    assert id !in Elements(order);
    assert Elements(order + [id]) == Elements(order) + {id};
  }

  /** Sweeps keep every row and its header. */
  lemma {:induction false} SweepKeepsHeader(cfg: Config, s: State, sweep: Sweep, order: seq<Id>,
                                            answers: Id -> Attempts, id: Id)
    requires id in s.rows
    ensures var rows := After(cfg, s, SweepRun(sweep, order, answers)).rows;
            id in rows && rows[id].header == s.rows[id].header
  {
    if order != [] { SweepKeepsHeader(cfg, s, sweep, order[..|order| - 1], answers, id); }
  }

  lemma SweepStepLog(cfg: Config, s: State, sweep: Sweep, id: Id, answers: Attempts)
    requires id in s.rows
    ensures Apply(cfg, s, SweepStep(sweep, id, answers)).log
            == s.log + if sweep == OfFailed(true) then [] else Posts(s.rows[id].header, FAILURE_MESSAGE, answers)
  {
    OneRowSaved(cfg, s, SweepStep(sweep, id, answers), id);
  }

  /** A sweep posts a failure message for each of its rows, and by force nothing. */
  lemma {:induction false} SweepLog(cfg: Config, s: State, sweep: Sweep, order: seq<Id>, answers: Id -> Attempts)
    requires Elements(order) <= s.rows.Keys
    ensures After(cfg, s, SweepRun(sweep, order, answers)).log == s.log + SweepPosts(sweep, s.rows, order, answers)
  {
    if order != [] {
      var earlier, last := order[..|order| - 1], order[|order| - 1];
      assert last in Elements(order) && Elements(earlier) <= Elements(order);
      SweepLog(cfg, s, sweep, earlier, answers);
      SweepKeepsHeader(cfg, s, sweep, earlier, answers, last);
      SweepStepLog(cfg, After(cfg, s, SweepRun(sweep, earlier, answers)), sweep, last, answers(last));
    }
  }

  /** Every post of a sweep is the failure message, with the header of one of its rows. */
  lemma {:induction false} SweepPostsAre(sweep: Sweep, rows: Table, order: seq<Id>, answers: Id -> Attempts, post: Post)
    requires post in SweepPosts(sweep, rows, order, answers)
    ensures post.body == FAILURE_MESSAGE
    ensures exists id :: id in order && id in rows && post.header == rows[id].header
  {
    var earlier, last := order[..|order| - 1], order[|order| - 1];
    if post in SweepPosts(sweep, rows, earlier, answers) {
      SweepPostsAre(sweep, rows, earlier, answers, post);
      var id :| id in earlier && id in rows && post.header == rows[id].header;
      assert id in order;
    } else {
      PostsBudget(rows[last].header, FAILURE_MESSAGE, answers(last));
      assert last in order;
    }
  }

  // ------------------------------------------------------------- several passes in a row

  /** The querysets of retire_failed_submissions: all queues, or each of those named. */
  function Passes(queues: seq<string>): (passes: seq<Option<string>>)
    ensures |passes| == if queues == [] then 1 else |queues|
  {
    if queues == [] then [None] else seq(|queues|, i requires 0 <= i < |queues| => Some(queues[i]))
  }

  /** What the passes make of a row; one that stays unretired is tried again if its queue comes again. */
  function AfterPasses(cfg: Config, row: Row, passes: seq<Option<string>>, force: bool, outcomes: seq<bool>): Row
    requires |outcomes| >= |passes|
  {
    if passes == [] then row
    else
      var last := |passes| - 1;
      AfterPass(cfg, AfterPasses(cfg, row, passes[..last], force, outcomes), passes[last], force, outcomes[last])
  }

  /** And of the table. */
  function AllPassed(cfg: Config, rows: Table, passes: seq<Option<string>>, force: bool, answers: seq<Id -> Attempts>)
    : (result: Table)
    requires |answers| >= |passes|
    ensures result.Keys == rows.Keys
    ensures forall id | id in rows :: result[id].header == rows[id].header
  {
    if passes == [] then rows
    else
      var last := |passes| - 1;
      PassedTable(cfg, AllPassed(cfg, rows, passes[..last], force, answers), passes[last], force, answers[last])
  }

  lemma {:induction false} AllPassedRow(cfg: Config, rows: Table, passes: seq<Option<string>>, force: bool,
                                        answers: seq<Id -> Attempts>, id: Id)
    requires |answers| >= |passes| && id in rows
    ensures AllPassed(cfg, rows, passes, force, answers)[id]
            == AfterPasses(cfg, rows[id], passes, force, OutcomesOf(answers, id))
  {
    if passes != [] { AllPassedRow(cfg, rows, passes[..|passes| - 1], force, answers, id); }
  }

  /** Whether the LMS acknowledges the failure message for the row, in each pass that sends one. */
  function OutcomesOf(answers: seq<Id -> Attempts>, id: Id): (outcomes: seq<bool>)
    ensures |outcomes| == |answers|
  {
    seq(|answers|, i requires 0 <= i < |answers| => Delivered(answers[i](id)))
  }

  function PassesRun(orders: seq<seq<Id>>, force: bool, answers: seq<Id -> Attempts>): Run
    requires |answers| >= |orders|
  {
    if orders == [] then Start
    else
      var last := |orders| - 1;
      Concat(PassesRun(orders[..last], force, answers), SweepRun(OfFailed(force), orders[last], answers[last]))
  }

  function PassesPosts(rows: Table, orders: seq<seq<Id>>, force: bool, answers: seq<Id -> Attempts>): seq<Post>
    requires |answers| >= |orders|
  {
    if orders == [] then []
    else
      var last := |orders| - 1;
      PassesPosts(rows, orders[..last], force, answers) + SweepPosts(OfFailed(force), rows, orders[last], answers[last])
  }

  /** In each pass, exactly the rows then due. */
  ghost predicate OrdersOk(cfg: Config, rows: Table, passes: seq<Option<string>>, orders: seq<seq<Id>>,
                           force: bool, answers: seq<Id -> Attempts>)
    requires |orders| == |passes| <= |answers|
  {
    forall i | 0 <= i < |passes| ::
      IsOrderOf(orders[i], FailedAtLimit(cfg, AllPassed(cfg, rows, passes[..i], force, answers), passes[i]))
  }

  lemma {:induction false} SamePosts(sweep: Sweep, rows: Table, same: Table, order: seq<Id>, answers: Id -> Attempts)
    requires rows.Keys == same.Keys && forall id | id in rows :: rows[id].header == same[id].header
    ensures SweepPosts(sweep, rows, order, answers) == SweepPosts(sweep, same, order, answers)
  {
    if order != [] { SamePosts(sweep, rows, same, order[..|order| - 1], answers); }
  }

  /** A forced command posts nothing, and any other only failure messages. */
  lemma {:induction false} PassesPostsAre(rows: Table, orders: seq<seq<Id>>, force: bool, answers: seq<Id -> Attempts>)
    requires |answers| >= |orders|
    ensures force ==> PassesPosts(rows, orders, force, answers) == []
    ensures forall post | post in PassesPosts(rows, orders, force, answers) :: post.body == FAILURE_MESSAGE
  {
    if orders != [] {
      var last := |orders| - 1;
      PassesPostsAre(rows, orders[..last], force, answers);
      forall post | post in SweepPosts(OfFailed(force), rows, orders[last], answers[last])
        ensures post.body == FAILURE_MESSAGE
      {
        SweepPostsAre(OfFailed(force), rows, orders[last], answers[last], post);
      }
    }
  }

  /** The command by its arguments: without a queue it is about all rows, with some about theirs alone. */
  lemma CommandRetires(cfg: Config, row: Row, queues: seq<string>, force: bool, outcomes: seq<bool>)
    requires |outcomes| >= |Passes(queues)| && (row.lmsAck ==> row.retired)
    ensures var row' := AfterPasses(cfg, row, Passes(queues), force, outcomes);
            row'.retired ==
            (row.retired
             || (row.failures > 0 && row.failures >= cfg.maxFailures
                 && if queues == [] then force || outcomes[0]
                    else exists i | 0 <= i < |queues| :: queues[i] == row.queue && (force || outcomes[i])))
  {
    var passes := Passes(queues);
    PassesRetire(cfg, row, passes, force, outcomes);
    if queues == [] {
      assert passes[0] == None;
    } else {
      assert forall i | 0 <= i < |queues| :: passes[i] == Some(queues[i]);
    }
  }

  lemma PassesNextOrders(cfg: Config, rows: Table, passes: seq<Option<string>>, orders: seq<seq<Id>>,
                         queue: Option<string>, order: seq<Id>, force: bool, answers: seq<Id -> Attempts>)
    requires |orders| == |passes| < |answers| && OrdersOk(cfg, rows, passes, orders, force, answers)
    requires IsOrderOf(order, FailedAtLimit(cfg, AllPassed(cfg, rows, passes, force, answers), queue))
    ensures OrdersOk(cfg, rows, passes + [queue], orders + [order], force, answers)
  {
    var passes', orders' := passes + [queue], orders + [order];
    forall i | 0 <= i < |passes'|
      ensures IsOrderOf(orders'[i], FailedAtLimit(cfg, AllPassed(cfg, rows, passes'[..i], force, answers), passes'[i]))
    {
      assert passes'[..i] == passes[..i];
      if i == |passes| { assert passes[..i] == passes; }
    }
  }

  lemma AllPassedNext(cfg: Config, rows: Table, passes: seq<Option<string>>, queue: Option<string>, force: bool,
                      answers: seq<Id -> Attempts>)
    requires |passes| < |answers|
    ensures AllPassed(cfg, rows, passes + [queue], force, answers)
            == PassedTable(cfg, AllPassed(cfg, rows, passes, force, answers), queue, force, answers[|passes|])
  {
    assert (passes + [queue])[..|passes|] == passes;
  }

  lemma PassesNextRun(cfg: Config, start: State, s: State, s': State, orders: seq<seq<Id>>, order: seq<Id>,
                      force: bool, answers: seq<Id -> Attempts>)
    requires |orders| < |answers|
    requires Legal(cfg, start, PassesRun(orders, force, answers))
    requires s == After(cfg, start, PassesRun(orders, force, answers))
    requires var run := SweepRun(OfFailed(force), order, answers[|orders|]);
             Legal(cfg, s, run) && s' == After(cfg, s, run)
    ensures Legal(cfg, start, PassesRun(orders + [order], force, answers))
    ensures s' == After(cfg, start, PassesRun(orders + [order], force, answers))
  {
    assert (orders + [order])[..|orders|] == orders;
    LegalConcat(cfg, start, PassesRun(orders, force, answers), SweepRun(OfFailed(force), order, answers[|orders|]));
    AfterConcat(cfg, start, PassesRun(orders, force, answers), SweepRun(OfFailed(force), order, answers[|orders|]));
  }

  lemma PassesNextPosts(rows: Table, orders: seq<seq<Id>>, order: seq<Id>, force: bool, answers: seq<Id -> Attempts>)
    requires |orders| < |answers|
    ensures PassesPosts(rows, orders + [order], force, answers)
            == PassesPosts(rows, orders, force, answers) + SweepPosts(OfFailed(force), rows, order, answers[|orders|])
  {
    var orders' := orders + [order];
    assert orders'[..|orders|] == orders && orders'[|orders|] == order;
  }

  lemma LogsAssoc(a: seq<Post>, b: seq<Post>, c: seq<Post>)
    ensures a + b + c == a + (b + c)
  {
  }

  lemma PassesNext(cfg: Config, start: Table, rows: Table, passes: seq<Option<string>>, orders: seq<seq<Id>>,
                   queue: Option<string>, order: seq<Id>, force: bool, answers: seq<Id -> Attempts>)
    requires |orders| == |passes| < |answers| && OrdersOk(cfg, start, passes, orders, force, answers)
    requires rows == AllPassed(cfg, start, passes, force, answers)
    requires IsOrderOf(order, FailedAtLimit(cfg, rows, queue))
    ensures OrdersOk(cfg, start, passes + [queue], orders + [order], force, answers)
    ensures PassedTable(cfg, rows, queue, force, answers[|passes|])
            == AllPassed(cfg, start, passes + [queue], force, answers)
    ensures PassesPosts(start, orders, force, answers) + SweepPosts(OfFailed(force), rows, order, answers[|passes|])
            == PassesPosts(start, orders + [order], force, answers)
  {
    SamePosts(OfFailed(force), rows, start, order, answers[|passes|]);
    PassesNextPosts(start, orders, order, force, answers);
    PassesNextOrders(cfg, start, passes, orders, queue, order, force, answers);
    AllPassedNext(cfg, start, passes, queue, force, answers);
  }

  /** Of the passes' queues exactly the failed rows are retired: all of them by force, otherwise those whose failure
      message is acknowledged in some pass over their queue.  No other row changes, and only the columns of
      the retirement do. */
  lemma {:induction false} PassesRetire(cfg: Config, row: Row, passes: seq<Option<string>>, force: bool,
                                        outcomes: seq<bool>)
    requires |outcomes| >= |passes| && (row.lmsAck ==> row.retired)
    ensures var row' := AfterPasses(cfg, row, passes, force, outcomes);
            var taken := row.failures > 0 && row.failures >= cfg.maxFailures
                         && exists i | 0 <= i < |passes| ::
                              (passes[i].None? || passes[i].value == row.queue) && (force || outcomes[i]);
            && row'.retired == (row.retired || taken)
            && row' == row.(retired := row'.retired,
                            lmsAck := if row'.retired && !row.retired then !force else row.lmsAck)
  {
    if passes != [] {
      PassesRetire(cfg, row, passes[..|passes| - 1], force, outcomes);
    }
  }

  lemma NextAttempt(log: seq<Post>, header: string, body: string, answers: seq<bool>, i: nat)
    requires i < |answers|
    ensures var log' := log + [Post(header, body, answers[i])];
            log + Posts(header, body, answers[i..])
            == if answers[i] then log' else log' + Posts(header, body, answers[i + 1..])
    ensures Delivered(answers[i..]) <==> answers[i] || Delivered(answers[i + 1..])
  {
    assert answers[i..] == [answers[i]] + answers[i + 1..];
    assert answers[i..][1..] == answers[i + 1..];
    var first, more := [Post(header, body, answers[i])], Posts(header, body, answers[i + 1..]);
    assert log + (first + more) == log + first + more;
    assert first + [] == first;
  }

  /** Saving one row is what the state machine's step does to the table. */
  lemma OneRowSaved(cfg: Config, s: State, st: Step, id: Id)
    requires Target(st) == Some(id) && id in s.rows
    ensures Apply(cfg, s, st).rows == s.rows[id := Saved(cfg, st, id, s.rows[id])]
    ensures Apply(cfg, s, st).nextId == s.nextId
    ensures Apply(cfg, s, st).log == s.log + RowPosts(st, s.rows[id])
  {
  }

  lemma NoRowSaved(cfg: Config, s: State, st: Step)
    requires st.Pull? || st.PutResult?
    requires Target(st).Some? ==> Target(st).value !in s.rows
                                  || (st.PutResult? && !Accepts(s.rows[st.id], st.key))
    ensures Apply(cfg, s, st) == s.(now := Later(s.now, EndTime(st, s.now)))
  {
  }

  lemma SubmitIsInvalidateAndInsert(cfg: Config, s: State, st: Step)
    requires st.Submit?
    ensures Apply(cfg, s, st) == State(RowsAfter(cfg, s.rows, SubmitAborted(st.callback))[s.nextId := NewRow(st)],
                                       s.nextId + 1, Later(s.now, st.at), s.log)
  {
    assert RowsAfter(cfg, s.rows, st) == RowsAfter(cfg, s.rows, SubmitAborted(st.callback));
  }

  lemma NewRowIsAvailable(cfg: Config, rows: Table, id: Id, queue: string, asked: Time)
    requires id in rows && rows[id].queue == queue && !rows[id].retired && rows[id].pullTime == None
    ensures QueueLength(cfg, rows, queue, asked) >= 1
  {
    assert id in PullableIds(cfg, rows, queue, asked);
  }

  function Concat(r: Run, more: Run): Run {
    match more
    case Start => r
    case Then(before, st) => Then(Concat(r, before), st)
  }

  lemma {:induction false} AfterConcat(cfg: Config, s: State, r: Run, more: Run)
    ensures After(cfg, s, Concat(r, more)) == After(cfg, After(cfg, s, r), more)
  {
    if more.Then? { AfterConcat(cfg, s, r, more.before); }
  }

  lemma {:induction false} LegalConcat(cfg: Config, s: State, r: Run, more: Run)
    requires Legal(cfg, s, r) && Legal(cfg, After(cfg, s, r), more)
    ensures Legal(cfg, s, Concat(r, more))
  {
    if more.Then? {
      LegalConcat(cfg, s, r, more.before);
      AfterConcat(cfg, s, r, more.before);
    }
  }
}
