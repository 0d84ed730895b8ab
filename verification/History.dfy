// The table, the log and the clock as the history of a run determines them.
//
// Nothing here mentions what a step does to a row: each column is told from the
// steps that name the row -- who wrote it last, and what -- and the theorems say
// that every reachable table holds exactly that, and that exactly the rows which
// the history makes eligible are handed out, pushed and retired.
module History {
  import opened Collections
  import opened Timestamps
  import opened Submissions
  import opened Reporting
  import opened Lifecycle
  import opened Leases
  import Accounting

  // -------------------------------------------------------------------------- the rows

  function Removed(r: Run, id: Id): bool {
    match r
    case Start => false
    case Then(before, st) => Removed(before, id) || (st.Delete? && id in st.ids && Submission(before, id).Some?)
  }

  predicate Present(r: Run, id: Id) {
    Submission(r, id).Some? && !Removed(r, id)
  }

  /** Two callbacks that the key column cannot tell apart: alike in their first 128 characters, and both longer if
      not of one length. */
  predicate AgreeOn128(a: string, b: string) {
    && (|a| == |b| || (|a| >= 128 && |b| >= 128))
    && forall i | 0 <= i < 128 && i < |a| && i < |b| :: a[i] == b[i]
  }

  // ----------------------------------------------------------------------- the columns

  /** The result comes with the key of the row's last pull. */
  predicate IsAccepted(cfg: Config, before: Run, st: Step, id: Id) {
    st.PutResult? && st.id == id && LastPull(before, id).Some?
    && st.key == cfg.hash(Seed(LastPull(before, id).value, id))
  }

  /** The LMS took one of the five attempts. */
  predicate Taken(answers: Attempts) {
    answers[0] || answers[1] || answers[2] || answers[3] || answers[4]
  }

  function LastPush(r: Run, id: Id): Option<Time> {
    match r
    case Start => None
    case Then(before, st) => if st.Deliver? && st.id == id then Some(st.at) else LastPush(before, id)
  }

  /** When a grader last answered. */
  function LastReturn(cfg: Config, r: Run, id: Id): Option<Time> {
    match r
    case Start => None
    case Then(before, st) =>
      if IsAccepted(cfg, before, st, id) then Some(st.at)
      else if st.Deliver? && st.id == id then Some(st.returned)
      else LastReturn(cfg, before, id)
  }

  /** The URL in the settings for the queue that the row was submitted to. */
  function OwnUrl(cfg: Config, r: Run, id: Id): string {
    match Submission(r, id)
    case None => ""
    case Some(submit) =>
      if submit.queue in cfg.queues && cfg.queues[submit.queue].Some? then cfg.queues[submit.queue].value else ""
  }

  /** Who got the row last. */
  function LastGrader(cfg: Config, r: Run, id: Id): string {
    match r
    case Start => ""
    case Then(before, st) =>
      if st.Pull? && st.choice == Some(id) then st.grader
      else if st.Deliver? && st.id == id then OwnUrl(cfg, before, id)
      else LastGrader(cfg, before, id)
  }

  /** What a grader last said of it. */
  function LastReply(cfg: Config, r: Run, id: Id): string {
    match r
    case Start => ""
    case Then(before, st) =>
      if IsAccepted(cfg, before, st, id) then st.reply
      else if st.Deliver? && st.id == id && st.grading.Graded? then st.grading.reply
      else LastReply(cfg, before, id)
  }

  /** The results that the LMS did not take, and the graders that could not be reached. */
  function FailureCount(cfg: Config, r: Run, id: Id): nat {
    match r
    case Start => 0
    case Then(before, st) =>
      FailureCount(cfg, before, id)
      + (if IsAccepted(cfg, before, st, id) && !Taken(st.answers) then 1 else 0)
      + (if st.Deliver? && st.id == id && st.grading.Unreachable? then 1 else 0)
  }

  /** Whether the LMS took the last report about the row. */
  function LastTaken(cfg: Config, r: Run, id: Id): bool {
    match r
    case Start => false
    case Then(before, st) =>
      if IsAccepted(cfg, before, st, id) || (st.Deliver? && st.id == id) || (st.RetireOld? && st.id == id)
         || (st.RetireFailed? && st.id == id && !st.force)
      then Taken(st.answers)
      else LastTaken(cfg, before, id)
  }

  /** A later submission with the same callback, as far as the column holds it. */
  predicate IsSuperseded(before: Run, st: Step, id: Id) {
    (st.Submit? || st.SubmitAborted?) && Submission(before, id).Some?
    && AgreeOn128(st.callback, Submission(before, id).value.callback)
  }

  function IsRetired(cfg: Config, r: Run, id: Id): bool {
    match r
    case Start => false
    case Then(before, st) =>
      if IsSuperseded(before, st, id) then true
      else if IsAccepted(cfg, before, st, id) then Taken(st.answers) || FailureCount(cfg, r, id) > cfg.maxFailures
      else if (st.Deliver? || st.RetireOld?) && st.id == id then true
      else if st.RetireFailed? && st.id == id then st.force || Taken(st.answers)
      else IsRetired(cfg, before, id)
  }

  // --------------------------------------------------------------- the table is the history

  lemma AcceptedIs(cfg: Config, r: Run, st: Step, id: Id)
    requires ValidConfig(cfg) && Legal(cfg, INIT, r) && id in After(cfg, INIT, r).rows
    requires st.PutResult? && st.id == id
    ensures Accepts(After(cfg, INIT, r).rows[id], st.key) <==> IsAccepted(cfg, r, st, id)
  {
    TableHoldsLastPull(cfg, r, id);
  }

  lemma TakenIs(answers: Attempts)
    ensures Delivered(answers) <==> Taken(answers)
  {
    if Taken(answers) {
      var i :| 0 <= i < 5 && answers[i];
      assert true in answers;
    }
  }

  lemma KeysAgree(a: string, b: string)
    ensures CallbackKey(a) == CallbackKey(b) <==> AgreeOn128(a, b)
  {
    var k, l := CallbackKey(a), CallbackKey(b);
    if k == l {
      forall i | 0 <= i < 128 && i < |a| && i < |b| ensures a[i] == b[i] {
        assert k[i] == a[i] && l[i] == b[i];
      }
    }
    if AgreeOn128(a, b) {
      forall i | 0 <= i < |k| ensures k[i] == l[i] {
        assert k[i] == a[i] && l[i] == b[i];
      }
    }
  }

  lemma {:induction false} RowsAreThePresent(cfg: Config, r: Run, id: Id)
    ensures id in After(cfg, INIT, r).rows <==> Present(r, id)
    ensures Submission(r, id).Some? ==> id < Ids(r)
  {
    if r.Then? {
      RowsAreThePresent(cfg, r.before, id);
      Accounting.RowsKeepTheirOrigin(cfg, r.before, id);
      NotRemovedBefore(r.before, id);
    }
  }

  lemma {:induction false} NotRemovedBefore(r: Run, id: Id)
    ensures id >= Ids(r) ==> Submission(r, id).None?
    ensures Submission(r, id).None? ==> !Removed(r, id)
  {
    if r.Then? { NotRemovedBefore(r.before, id); }
  }

  /** No step of a legal run touches a row before it is inserted. */
  lemma {:induction false} NothingBefore(cfg: Config, r: Run, id: Id)
    requires Legal(cfg, INIT, r) && id >= Ids(r)
    ensures LastPull(r, id).None? && LastPush(r, id).None? && LastReturn(cfg, r, id).None?
    ensures LastGrader(cfg, r, id) == "" && LastReply(cfg, r, id) == ""
    ensures FailureCount(cfg, r, id) == 0 && !LastTaken(cfg, r, id) && !IsRetired(cfg, r, id)
  {
    if r.Then? {
      NothingBefore(cfg, r.before, id);
      NotRemovedBefore(r.before, id);
      Accounting.RowsKeepTheirOrigin(cfg, r.before, id);
    }
  }

  /** Who writes the columns of a grader's work. */
  lemma GraderColumns(cfg: Config, st: Step, id: Id, row: Row)
    ensures var row' := RowAfter(cfg, st, id, row);
            var accepted := st.PutResult? && st.id == id && Accepts(row, st.key);
            && row'.pushTime == (if st.Deliver? && st.id == id then Some(st.at) else row.pushTime)
            && row'.returnTime == (if accepted then Some(st.at)
                                   else if st.Deliver? && st.id == id then Some(st.returned) else row.returnTime)
            && row'.graderId == (if st.Pull? && st.choice == Some(id) then st.grader
                                 else if st.Deliver? && st.id == id then GraderUrl(cfg, st.queue) else row.graderId)
            && row'.graderReply == (if accepted then st.reply
                                    else if st.Deliver? && st.id == id && st.grading.Graded? then st.grading.reply
                                    else row.graderReply)
  {
  }

  /** And those of its outcome. */
  lemma OutcomeColumns(cfg: Config, st: Step, id: Id, row: Row)
    ensures var row' := RowAfter(cfg, st, id, row);
            var accepted := st.PutResult? && st.id == id && Accepts(row, st.key);
            && row'.failures == row.failures + (if accepted && !Delivered(st.answers) then 1 else 0)
                                + (if st.Deliver? && st.id == id && st.grading.Unreachable? then 1 else 0)
            && row'.lmsAck == (if accepted || (st.Deliver? && st.id == id) || (st.RetireOld? && st.id == id)
                                  || (st.RetireFailed? && st.id == id && !st.force)
                               then Delivered(st.answers) else row.lmsAck)
            && row'.retired ==
               if st.Submit? || st.SubmitAborted? then row.retired || row.callbackUrl == CallbackKey(st.callback)
               else if accepted then Delivered(st.answers) || row'.failures > cfg.maxFailures
               else if (st.Deliver? || st.RetireOld?) && st.id == id then true
               else if st.RetireFailed? && st.id == id then st.force || Delivered(st.answers)
               else row.retired
  {
  }

  predicate GraderColumnsTold(cfg: Config, r: Run, id: Id, row: Row) {
    && row.pushTime == LastPush(r, id) && row.returnTime == LastReturn(cfg, r, id)
    && row.graderId == LastGrader(cfg, r, id) && row.graderReply == LastReply(cfg, r, id)
  }

  predicate OutcomeColumnsTold(cfg: Config, r: Run, id: Id, row: Row) {
    && row.failures == FailureCount(cfg, r, id)
    && row.lmsAck == LastTaken(cfg, r, id) && row.retired == IsRetired(cfg, r, id)
  }

  lemma OwnUrlIs(cfg: Config, r: Run, st: Step)
    requires Legal(cfg, INIT, r) && st.Deliver? && Enabled(cfg, After(cfg, INIT, r), st)
    ensures GraderUrl(cfg, st.queue) == OwnUrl(cfg, r, st.id)
  {
    Accounting.RowsKeepTheirOrigin(cfg, r, st.id);
  }

  lemma {:induction false} GraderColumnsAreTold(cfg: Config, r: Run, id: Id)
    requires ValidConfig(cfg) && Legal(cfg, INIT, r) && id in After(cfg, INIT, r).rows
    ensures GraderColumnsTold(cfg, r, id, After(cfg, INIT, r).rows[id])
  {
    var s, st := After(cfg, INIT, r.before), r.step;
    Accounting.RowsKeepTheirOrigin(cfg, r.before, id);
    if id in s.rows {
      GraderColumnsAreTold(cfg, r.before, id);
      GraderColumns(cfg, st, id, s.rows[id]);
      if st.PutResult? && st.id == id { AcceptedIs(cfg, r.before, st, id); }
      if st.Deliver? && st.id == id { OwnUrlIs(cfg, r.before, st); }
    } else {
      NothingBefore(cfg, r.before, id);
    }
  }

  lemma SupersededIs(cfg: Config, r: Run, st: Step, id: Id)
    requires id in After(cfg, INIT, r).rows && (st.Submit? || st.SubmitAborted?)
    ensures After(cfg, INIT, r).rows[id].callbackUrl == CallbackKey(st.callback) <==> IsSuperseded(r, st, id)
  {
    Accounting.RowsKeepTheirOrigin(cfg, r, id);
    KeysAgree(st.callback, Submission(r, id).value.callback);
  }

  lemma {:induction false} OutcomeColumnsAreTold(cfg: Config, r: Run, id: Id)
    requires ValidConfig(cfg) && Legal(cfg, INIT, r) && id in After(cfg, INIT, r).rows
    ensures OutcomeColumnsTold(cfg, r, id, After(cfg, INIT, r).rows[id])
  {
    var s := After(cfg, INIT, r.before);
    Accounting.RowsKeepTheirOrigin(cfg, r.before, id);
    if id in s.rows {
      OutcomeColumnsAreTold(cfg, r.before, id);
      OutcomeStep(cfg, r, id);
    } else {
      NothingBefore(cfg, r.before, id);
    }
  }

  lemma OutcomeStep(cfg: Config, r: Run, id: Id)
    requires ValidConfig(cfg) && Legal(cfg, INIT, r) && r.Then? && id in After(cfg, INIT, r.before).rows
    requires OutcomeColumnsTold(cfg, r.before, id, After(cfg, INIT, r.before).rows[id])
    ensures OutcomeColumnsTold(cfg, r, id, RowAfter(cfg, r.step, id, After(cfg, INIT, r.before).rows[id]))
  {
    var st := r.step;
    OutcomeColumns(cfg, st, id, After(cfg, INIT, r.before).rows[id]);
    if st.PutResult? && st.id == id { AcceptedIs(cfg, r.before, st, id); }
    if st.PutResult? || st.Deliver? || st.RetireOld? || st.RetireFailed? { TakenIs(st.answers); }
    if st.Submit? || st.SubmitAborted? { SupersededIs(cfg, r.before, st, id); }
  }

  /** Every reachable table is what the history tells: the rows present, the columns submitted, and in each other
      column what the last step to write it wrote. */
  lemma TableIsHistory(cfg: Config, r: Run, id: Id)
    requires ValidConfig(cfg) && Legal(cfg, INIT, r)
    ensures var rows := After(cfg, INIT, r).rows;
            && (id in rows <==> Present(r, id))
            && (id in rows ==>
                  && IsSubmissionOf(rows[id], Submission(r, id).value)
                  && rows[id].pullTime == LastPull(r, id)
                  && rows[id].pullkey ==
                     (if LastPull(r, id).Some? then cfg.hash(Seed(LastPull(r, id).value, id)) else "")
                  && rows[id].pushTime == LastPush(r, id) && rows[id].returnTime == LastReturn(cfg, r, id)
                  && rows[id].graderId == LastGrader(cfg, r, id) && rows[id].graderReply == LastReply(cfg, r, id)
                  && rows[id].failures == FailureCount(cfg, r, id) && rows[id].lmsAck == LastTaken(cfg, r, id)
                  && rows[id].retired == IsRetired(cfg, r, id))
  {
    RowsAreThePresent(cfg, r, id);
    Accounting.RowsKeepTheirOrigin(cfg, r, id);
    TableHoldsLastPull(cfg, r, id);
    if id in After(cfg, INIT, r).rows {
      GraderColumnsAreTold(cfg, r, id);
      OutcomeColumnsAreTold(cfg, r, id);
    }
  }

  // ------------------------------------------------------------- the log and the clock

  datatype Report = Report(header: string, body: string, answers: Attempts)

  /** What the step reports to the LMS: with the submitted header, the accepted result, the push grader's
      reply, or the failure message. */
  function Reported(cfg: Config, before: Run, st: Step): Option<Report> {
    match st
    case PutResult(id, _, reply, _, answers) =>
      if Present(before, id) && IsAccepted(cfg, before, st, id)
      then Some(Report(Submission(before, id).value.header, reply, answers)) else None
    case Deliver(id, _, _, _, _, grading, answers) =>
      if Submission(before, id).None? then None
      else Some(Report(Submission(before, id).value.header,
                       if grading.Graded? then grading.reply else FAILURE_MESSAGE, answers))
    case RetireFailed(id, force, answers) =>
      if force || Submission(before, id).None? then None
      else Some(Report(Submission(before, id).value.header, FAILURE_MESSAGE, answers))
    case RetireOld(id, answers) =>
      if Submission(before, id).None? then None
      else Some(Report(Submission(before, id).value.header, FAILURE_MESSAGE, answers))
    case _ => None
  }

  /** One report after the other, each up to five posts. */
  function ToldLog(cfg: Config, r: Run): seq<Post> {
    match r
    case Start => []
    case Then(before, st) =>
      ToldLog(cfg, before)
      + match Reported(cfg, before, st)
        case None => []
        case Some(report) => Posts(report.header, report.body, report.answers)
  }

  lemma StepPostsAreTold(cfg: Config, r: Run, st: Step)
    requires ValidConfig(cfg) && Legal(cfg, INIT, r) && Enabled(cfg, After(cfg, INIT, r), st)
    ensures StepPosts(After(cfg, INIT, r).rows, st)
            == match Reported(cfg, r, st)
               case None => []
               case Some(report) => Posts(report.header, report.body, report.answers)
  {
    if Target(st).Some? {
      var id := Target(st).value;
      Accounting.RowsKeepTheirOrigin(cfg, r, id);
      RowsAreThePresent(cfg, r, id);
      if st.PutResult? && id in After(cfg, INIT, r).rows { AcceptedIs(cfg, r, st, id); }
    }
  }

  /** The log is exactly the reports of the run, in order. */
  lemma {:induction false} LogIsHistory(cfg: Config, r: Run)
    requires ValidConfig(cfg) && Legal(cfg, INIT, r)
    ensures After(cfg, INIT, r).log == ToldLog(cfg, r)
  {
    if r.Then? {
      LogIsHistory(cfg, r.before);
      StepPostsAreTold(cfg, r.before, r.step);
    }
  }

  /** The latest of the readings that the steps end with. */
  function LatestReading(r: Run): Time {
    match r
    case Start => 0
    case Then(before, st) =>
      var latest := LatestReading(before);
      match st
      case Submit(at, _, _, _, _, _, _, _) => if at > latest then at else latest
      case Pull(_, _, _, at, _) => if at > latest then at else latest
      case PutResult(_, _, _, at, _) => if at > latest then at else latest
      case Deliver(_, _, _, _, returned, _, _) => if returned > latest then returned else latest
      case Tick(at) => if at > latest then at else latest
      case _ => latest
  }

  lemma {:induction false} ClockIsHistory(cfg: Config, r: Run)
    ensures After(cfg, INIT, r).now == LatestReading(r)
  {
    if r.Then? { ClockIsHistory(cfg, r.before); }
  }

  // -------------------------------------------------- who is handed out, pushed, and retired

  /** Never handed out, or at least one delay before the query. */
  predicate LeaseRanOut(cfg: Config, last: Option<Time>, asked: Time) {
    match last
    case None => true
    case Some(t) => t + cfg.delay <= asked
  }

  predicate CanBePulled(cfg: Config, r: Run, id: Id, queue: string, asked: Time) {
    Present(r, id) && Submission(r, id).value.queue == queue && !IsRetired(cfg, r, id)
    && LeaseRanOut(cfg, LastPull(r, id), asked)
  }

  predicate CanBePushed(cfg: Config, r: Run, id: Id, queue: string, asked: Time) {
    Present(r, id) && Submission(r, id).value.queue == queue && !IsRetired(cfg, r, id)
    && LeaseRanOut(cfg, LastPush(r, id), asked)
  }

  lemma PullableIs(cfg: Config, r: Run, id: Id, queue: string, asked: Time)
    requires ValidConfig(cfg) && Legal(cfg, INIT, r)
    ensures id in PullableIds(cfg, After(cfg, INIT, r).rows, queue, asked) <==> CanBePulled(cfg, r, id, queue, asked)
    ensures id in PushableIds(cfg, After(cfg, INIT, r).rows, queue, asked) <==> CanBePushed(cfg, r, id, queue, asked)
  {
    TableIsHistory(cfg, r, id);
  }

  /** The queue length is the number of rows that could be handed out. */
  lemma QueueLengthIs(cfg: Config, r: Run, queue: string, asked: Time)
    requires ValidConfig(cfg) && Legal(cfg, INIT, r)
    ensures QueueLength(cfg, After(cfg, INIT, r).rows, queue, asked)
            == |set id: Id | id < Ids(r) && CanBePulled(cfg, r, id, queue, asked)|
  {
    forall id: Id
      ensures id in PullableIds(cfg, After(cfg, INIT, r).rows, queue, asked)
              <==> id < Ids(r) && CanBePulled(cfg, r, id, queue, asked)
    {
      PullableIs(cfg, r, id, queue, asked);
      RowsAreThePresent(cfg, r, id);
    }
    assert PullableIds(cfg, After(cfg, INIT, r).rows, queue, asked)
           == set id: Id | id < Ids(r) && CanBePulled(cfg, r, id, queue, asked);
  }

  /** The query gives nothing if no row of the queue can be handed out, and otherwise one that no other of them
      was submitted before. */
  ghost predicate FirstCome(cfg: Config, r: Run, queue: string, asked: Time, choice: Option<Id>) {
    match choice
    case None => forall id :: !CanBePulled(cfg, r, id, queue, asked)
    case Some(x) =>
      CanBePulled(cfg, r, x, queue, asked)
      && forall id | CanBePulled(cfg, r, id, queue, asked) :: Submission(r, x).value.at <= Submission(r, id).value.at
  }

  /** A request for work is answered in turn exactly like that. */
  lemma WhoIsPulled(cfg: Config, r: Run, queue: string, grader: string, asked: Time, at: Time, choice: Option<Id>)
    requires ValidConfig(cfg) && Legal(cfg, INIT, r)
    ensures InTurn(cfg, After(cfg, INIT, r), Pull(queue, grader, asked, at, choice))
            <==> queue in cfg.queues && After(cfg, INIT, r).now <= asked <= at
                 && FirstCome(cfg, r, queue, asked, choice)
  {
    var rows := After(cfg, INIT, r).rows;
    forall id: Id
      ensures id in PullableIds(cfg, rows, queue, asked) <==> CanBePulled(cfg, r, id, queue, asked)
      ensures id in rows ==> Submission(r, id).Some? && rows[id].arrival == Submission(r, id).value.at
    {
      PullableIs(cfg, r, id, queue, asked);
      TableIsHistory(cfg, r, id);
    }
    PulledInTurn(cfg, After(cfg, INIT, r), queue, grader, asked, at, choice);
  }

  lemma PulledInTurn(cfg: Config, s: State, queue: string, grader: string, asked: Time, at: Time, choice: Option<Id>)
    ensures InTurn(cfg, s, Pull(queue, grader, asked, at, choice))
            <==> queue in cfg.queues && s.now <= asked <= at
                 && IsQueryResult(s.rows, PullableIds(cfg, s.rows, queue, asked), choice)
  {
  }

  /** A worker of a push queue takes, in turn, a row of its own queue that can be pushed and that no other such row
      was submitted before. */
  lemma WhoIsPushed(cfg: Config, r: Run, st: Step)
    requires ValidConfig(cfg) && Legal(cfg, INIT, r) && st.Deliver?
    ensures InTurn(cfg, After(cfg, INIT, r), st)
            <==> && st.queue in cfg.queues && cfg.queues[st.queue].Some?
                 && After(cfg, INIT, r).now <= st.asked <= st.at <= st.returned
                 && CanBePushed(cfg, r, st.id, st.queue, st.asked)
                 && forall id | CanBePushed(cfg, r, id, st.queue, st.asked) ::
                      Submission(r, st.id).value.at <= Submission(r, id).value.at
  {
    var rows := After(cfg, INIT, r).rows;
    forall id: Id
      ensures id in PushableIds(cfg, rows, st.queue, st.asked) <==> CanBePushed(cfg, r, id, st.queue, st.asked)
      ensures id in rows ==> Submission(r, id).Some? && rows[id].arrival == Submission(r, id).value.at
    {
      PullableIs(cfg, r, id, st.queue, st.asked);
      TableIsHistory(cfg, r, id);
    }
    PushedInTurn(cfg, After(cfg, INIT, r), st);
  }

  lemma PushedInTurn(cfg: Config, s: State, st: Step)
    requires st.Deliver?
    ensures InTurn(cfg, s, st)
            <==> && st.queue in cfg.queues && cfg.queues[st.queue].Some?
                 && s.now <= st.asked <= st.at <= st.returned
                 && IsFirst(s.rows, PushableIds(cfg, s.rows, st.queue, st.asked), st.id)
  {
  }

  /** The retire commands take exactly unretired rows; the one for failures those with any, at the limit. */
  lemma WhoIsRetired(cfg: Config, r: Run, st: Step)
    requires ValidConfig(cfg) && Legal(cfg, INIT, r)
    ensures st.RetireFailed? ==>
              (Enabled(cfg, After(cfg, INIT, r), st)
               <==> Present(r, st.id) && !IsRetired(cfg, r, st.id)
                    && FailureCount(cfg, r, st.id) > 0 && FailureCount(cfg, r, st.id) >= cfg.maxFailures)
    ensures st.RetireOld? ==>
              (Enabled(cfg, After(cfg, INIT, r), st) <==> Present(r, st.id) && !IsRetired(cfg, r, st.id))
  {
    if st.RetireFailed? || st.RetireOld? { TableIsHistory(cfg, r, st.id); }
  }

  /** Nothing keeps a result, a deletion or the clock from happening; a submission needs a queue that exists. */
  lemma WhatElseHappens(cfg: Config, s: State, st: Step)
    ensures st.PutResult? || st.SubmitAborted? || st.Delete? || st.Tick? ==> Enabled(cfg, s, st)
    ensures st.Submit? ==> (Enabled(cfg, s, st) <==> st.queue in cfg.queues)
  {
  }

  /** Every pull and every delivery of the run is of a row that was submitted to the queue it was made for, and a
      delivery goes to that queue's own grader. */
  predicate HandoutsGoHome(cfg: Config, r: Run) {
    match r
    case Start => true
    case Then(before, st) =>
      && HandoutsGoHome(cfg, before)
      && (st.Pull? && st.choice.Some? ==>
            Submission(before, st.choice.value).Some? && Submission(before, st.choice.value).value.queue == st.queue)
      && (st.Deliver? ==>
            Submission(before, st.id).Some? && Submission(before, st.id).value.queue == st.queue
            && st.queue in cfg.queues && cfg.queues[st.queue] == Some(OwnUrl(cfg, before, st.id)))
  }

  lemma {:induction false} EveryHandoutGoesHome(cfg: Config, r: Run)
    requires Legal(cfg, INIT, r)
    ensures HandoutsGoHome(cfg, r)
  {
    if r.Then? {
      EveryHandoutGoesHome(cfg, r.before);
      if Target(r.step).Some? { Accounting.RowsKeepTheirOrigin(cfg, r.before, Target(r.step).value); }
    }
  }
}
