// The life of a submission as a state machine over the whole table.
//
// A step is one handler call, one iteration of a management command, or the
// clock moving on; everything the outside world decides (clock readings, the
// grader's and the LMS's answers, which of several equally old rows the
// database returns) is part of the step.  RowAfter says what a step does to
// each row, and Apply does that to every row at once.
//
// Two notions of when a step may happen are used:
//   Enabled  -- the handler's own guard on the row it saves, with no assumption
//               about order or clock.  This covers interleaved handlers too
//               (module Interleaving).
//   InTurn   -- handlers run one after another on a clock that never goes back,
//               and a query returns the row that arrived first.
module Lifecycle {
  import opened Collections
  import opened Timestamps
  import opened Submissions
  import opened Reporting

  datatype Grading = Graded(reply: string) | Unreachable(reason: string)

  datatype Step =
    | Submit(at: Time, requesterId: string, callback: string, queue: string, header: string, body: string,
             keys: string, urls: string)
      // the invalidation was committed, but the request died before the insertion
    | SubmitAborted(callback: string)
    | Pull(queue: string, grader: string, asked: Time, at: Time, choice: Option<Id>)
    | PutResult(id: Id, key: string, reply: string, at: Time, answers: Attempts)
    | Deliver(id: Id, queue: string, asked: Time, at: Time, returned: Time, grading: Grading, answers: Attempts)
    | RetireFailed(id: Id, force: bool, answers: Attempts)
    | RetireOld(id: Id, answers: Attempts)
    | Delete(ids: set<Id>)
    | Tick(at: Time)

  datatype State = State(rows: Table, nextId: Id, now: Time, log: seq<Post>)

  const INIT := State(map[], 1, 0, [])

  // ------------------------------------------------------------ effects on a row

  function NewRow(st: Step): Row
    requires st.Submit?
  {
    Row(st.requesterId, CallbackKey(st.callback), st.queue, st.header, st.body, st.keys, st.urls, st.at,
        None, None, None, "", "", "", 0, false, false)
  }

  /** The key get_submission issues: the hash of the pull time followed by the id. */
  function KeyFor(cfg: Config, at: Time, id: Id): string {
    cfg.hash(Seed(at, id))
  }

  predicate Accepts(row: Row, key: string) {
    row.pullkey != "" && key == row.pullkey
  }

  function Pulled(cfg: Config, row: Row, id: Id, grader: string, at: Time): Row {
    row.(graderId := grader, pullTime := Some(at), pullkey := KeyFor(cfg, at, id))
  }

  function Returned(cfg: Config, row: Row, reply: string, at: Time, ok: bool): Row {
    WithOutcome(cfg, row.(returnTime := Some(at), graderReply := reply), ok)
  }

  /** A result the LMS did not take counts as a failure; the row is retired if it was taken or has failed too often. */
  function WithOutcome(cfg: Config, row: Row, ok: bool): Row {
    var failures := if ok then row.failures else row.failures + 1;
    row.(lmsAck := ok, failures := failures, retired := if failures > cfg.maxFailures then true else ok)
  }

  function Pushed(row: Row, url: string, at: Time, returned: Time, grading: Grading, ok: bool): Row {
    var row := row.(graderId := url, pushTime := Some(at), returnTime := Some(returned), lmsAck := ok, retired := true);
    match grading
    case Graded(reply) => row.(graderReply := reply)
    case Unreachable(_) => row.(failures := row.failures + 1)
  }

  function FailureRetired(row: Row, force: bool, ok: bool): Row {
    if force then row.(retired := true) else row.(lmsAck := ok, retired := ok)
  }

  /** Supersession: an unretired row with the key of a new submission is retired. */
  function Superseded(row: Row, key: string): Row {
    if row.callbackUrl == key && !row.retired then row.(retired := true) else row
  }

  function GraderUrl(cfg: Config, queue: string): string {
    if queue in cfg.queues && cfg.queues[queue].Some? then cfg.queues[queue].value else ""
  }

  /** The row a step saves, if it saves one. */
  function Target(st: Step): Option<Id> {
    match st
    case Pull(_, _, _, _, choice) => choice
    case PutResult(id, _, _, _, _) => Some(id)
    case Deliver(id, _, _, _, _, _, _) => Some(id)
    case RetireFailed(id, _, _) => Some(id)
    case RetireOld(id, _) => Some(id)
    case _ => None
  }

  /** What the step's handler saves, having read `row`. */
  function Saved(cfg: Config, st: Step, id: Id, row: Row): Row {
    match st
    case Pull(_, grader, _, at, _) => Pulled(cfg, row, id, grader, at)
    case PutResult(_, key, reply, at, answers) =>
      if Accepts(row, key) then Returned(cfg, row, reply, at, Delivered(answers)) else row
    case Deliver(_, queue, _, at, returned, grading, answers) =>
      Pushed(row, GraderUrl(cfg, queue), at, returned, grading, Delivered(answers))
    case RetireFailed(_, force, answers) => FailureRetired(row, force, Delivered(answers))
    case RetireOld(_, answers) => row.(retired := true, lmsAck := Delivered(answers))
    case _ => row
  }

  /** What a step leaves of the row `id`. */
  function RowAfter(cfg: Config, st: Step, id: Id, row: Row): Row {
    if st.Submit? || st.SubmitAborted? then Superseded(row, CallbackKey(st.callback))
    else if Target(st) == Some(id) then Saved(cfg, st, id, row)
    else row
  }

  /** The posts to the LMS that a step makes, having read `row`. */
  function RowPosts(st: Step, row: Row): seq<Post> {
    match st
    case PutResult(_, key, reply, _, answers) =>
      if Accepts(row, key) then Posts(row.header, reply, answers) else []
    case Deliver(_, _, _, _, _, grading, answers) =>
      (match grading
       case Graded(reply) => Posts(row.header, reply, answers)
       case Unreachable(_) => Posts(row.header, FAILURE_MESSAGE, answers))
    case RetireFailed(_, force, answers) => if force then [] else Posts(row.header, FAILURE_MESSAGE, answers)
    case RetireOld(_, answers) => Posts(row.header, FAILURE_MESSAGE, answers)
    case _ => []
  }

  /** What the body of a post can be: the accepted result, the push grader's reply, or the fixed message. */
  predicate Says(st: Step, row: Row, body: string) {
    match st
    case PutResult(_, key, reply, _, _) => Accepts(row, key) && body == reply
    case Deliver(_, _, _, _, _, Graded(reply), _) => body == reply
    case Deliver(_, _, _, _, _, Unreachable(_), _) => body == FAILURE_MESSAGE
    case RetireFailed(_, force, _) => !force && body == FAILURE_MESSAGE
    case RetireOld(_, _) => body == FAILURE_MESSAGE
    case _ => false
  }

  /** The step reports to the LMS, having read `row`. */
  predicate MakesReport(st: Step, row: Row) {
    match st
    case PutResult(_, key, _, _, _) => Accepts(row, key)
    case Deliver(_, _, _, _, _, _, _) => true
    case RetireFailed(_, force, _) => !force
    case RetireOld(_, _) => true
    case _ => false
  }

  /** A step makes at most five posts, one of them successful, and none without a report. */
  lemma RowPostsBudget(st: Step, row: Row)
    ensures |RowPosts(st, row)| <= (if MakesReport(st, row) then MAX_ATTEMPTS else 0)
    ensures Successes(RowPosts(st, row)) <= (if MakesReport(st, row) then 1 else 0)
  {
    if MakesReport(st, row) {
      var body := if st.PutResult? then st.reply
                  else if st.Deliver? && st.grading.Graded? then st.grading.reply else FAILURE_MESSAGE;
      PostsBudget(row.header, body, st.answers);
      PostsSucceedOnce(row.header, body, st.answers);
    }
  }

  lemma RowPostsSay(st: Step, row: Row, post: Post)
    requires post in RowPosts(st, row)
    ensures post.header == row.header && Says(st, row, post.body)
  {
    var body := if st.PutResult? then st.reply
                else if st.Deliver? && st.grading.Graded? then st.grading.reply else FAILURE_MESSAGE;
    PostsBudget(row.header, body, st.answers);
  }

  // ---------------------------------------------------------- effects on the state

  function StepPosts(rows: Table, st: Step): seq<Post> {
    var target := Target(st);
    if target.Some? && target.value in rows then RowPosts(st, rows[target.value]) else []
  }

  /** The clock reading a step ends with. */
  function EndTime(st: Step, now: Time): Time {
    if st.Deliver? then st.returned
    else if st.Submit? || st.Pull? || st.PutResult? || st.Tick? then st.at
    else now
  }

  function Later(a: Time, b: Time): Time {
    if a <= b then b else a
  }

  predicate Survives(st: Step, id: Id) {
    st.Delete? ==> id !in st.ids
  }

  function RowsAfter(cfg: Config, rows: Table, st: Step): Table {
    map id | id in rows && Survives(st, id) :: RowAfter(cfg, st, id, rows[id])
  }

  function Apply(cfg: Config, s: State, st: Step): State {
    var rows := RowsAfter(cfg, s.rows, st);
    State(if st.Submit? then rows[s.nextId := NewRow(st)] else rows,
          if st.Submit? then s.nextId + 1 else s.nextId,
          Later(s.now, EndTime(st, s.now)),
          s.log + StepPosts(s.rows, st))
  }

  // -------------------------------------------------------------- when steps happen

  /** What the handler's query demands of the row it read. */
  predicate Guard(cfg: Config, st: Step, row: Row) {
    match st
    case Pull(queue, _, asked, at, _) => Pullable(cfg, row, queue, asked) && asked <= at
    case Deliver(_, queue, asked, at, returned, _, _) =>
      Pushable(cfg, row, queue, asked) && asked <= at <= returned
      && queue in cfg.queues && cfg.queues[queue].Some?
    case RetireFailed(_, _, _) => !row.retired && row.failures != 0 && row.failures >= cfg.maxFailures
    case RetireOld(_, _) => !row.retired
    case _ => true
  }

  predicate Enabled(cfg: Config, s: State, st: Step) {
    match st
    case Submit(_, _, _, queue, _, _, _, _) => queue in cfg.queues
    case Pull(queue, _, asked, at, choice) =>
      queue in cfg.queues && asked <= at
      && (choice.Some? ==> choice.value in s.rows && Guard(cfg, st, s.rows[choice.value]))
    case Deliver(id, _, _, _, _, _, _) => id in s.rows && Guard(cfg, st, s.rows[id])
    case RetireFailed(id, _, _) => id in s.rows && Guard(cfg, st, s.rows[id])
    case RetireOld(id, _) => id in s.rows && Guard(cfg, st, s.rows[id])
    case _ => true
  }

  predicate InTurn(cfg: Config, s: State, st: Step) {
    Enabled(cfg, s, st)
    && s.now <= EndTime(st, s.now)
    && (st.Pull? ==>
          s.now <= st.asked && IsQueryResult(s.rows, PullableIds(cfg, s.rows, st.queue, st.asked), st.choice))
    && (st.Deliver? ==>
          s.now <= st.asked && IsFirst(s.rows, PushableIds(cfg, s.rows, st.queue, st.asked), st.id))
  }

  // --------------------------------------------------------------------------- runs

  datatype Run = Start | Then(before: Run, step: Step)

  function After(cfg: Config, s: State, r: Run): State {
    match r
    case Start => s
    case Then(before, st) => Apply(cfg, After(cfg, s, before), st)
  }

  ghost predicate Legal(cfg: Config, s: State, r: Run) {
    match r
    case Start => true
    case Then(before, st) => Legal(cfg, s, before) && Enabled(cfg, After(cfg, s, before), st)
  }

  ghost predicate LegalInTurn(cfg: Config, s: State, r: Run) {
    match r
    case Start => true
    case Then(before, st) => LegalInTurn(cfg, s, before) && InTurn(cfg, After(cfg, s, before), st)
  }

  /** `r` begins with all of `base`. */
  predicate Extends(r: Run, base: Run) {
    r == base || (r.Then? && Extends(r.before, base))
  }

  /** The id the next submission of a run gets. */
  function Ids(r: Run): nat {
    match r
    case Start => 1
    case Then(before, st) => Ids(before) + (if st.Submit? then 1 else 0)
  }

  /** The submission that got the id. */
  function Submission(r: Run, id: Id): (submit: Option<Step>)
    ensures submit.Some? ==> submit.value.Submit?
  {
    match r
    case Start => None
    case Then(before, st) => if st.Submit? && Ids(before) == id then Some(st) else Submission(before, id)
  }

  /** Column by column, the row holds what was submitted; of the callback the first 128 characters. */
  predicate IsSubmissionOf(row: Row, submit: Step)
    requires submit.Submit?
  {
    && row.requesterId == submit.requesterId
    && row.callbackUrl == (if |submit.callback| < 128 then submit.callback else submit.callback[..128])
    && row.queue == submit.queue && row.header == submit.header && row.body == submit.body
    && row.keys == submit.keys && row.urls == submit.urls && row.arrival == submit.at
  }

  lemma {:induction false} InTurnIsLegal(cfg: Config, s: State, r: Run)
    requires LegalInTurn(cfg, s, r)
    ensures Legal(cfg, s, r)
    ensures After(cfg, s, r).now >= s.now
  {
    if r.Then? { InTurnIsLegal(cfg, s, r.before); }
  }

  // --------------------------------------------------------------------- invariants

  /** Handlers never write what a row was submitted with. */
  lemma SavedKeepsIdentity(cfg: Config, st: Step, id: Id, row: Row)
    ensures SameSubmission(Saved(cfg, st, id, row), row)
  {
  }

  lemma StepKeepsIdentity(cfg: Config, st: Step, id: Id, row: Row)
    ensures SameSubmission(RowAfter(cfg, st, id, row), row)
  {
    SavedKeepsIdentity(cfg, st, id, row);
  }

  /** What every row satisfies, whatever wrote it. */
  predicate RowOk(cfg: Config, row: Row) {
    && (row.lmsAck ==> row.retired)
    && (!row.retired ==> row.failures <= cfg.maxFailures)
    && (row.pullkey == "" <==> row.pullTime.None?)
    && (row.pushTime.Some? && row.pullkey == "" ==> row.retired)
  }

  ghost predicate Invariant(cfg: Config, s: State) {
    forall id | id in s.rows ::
      id < s.nextId && RowOk(cfg, s.rows[id]) && s.rows[id].arrival <= s.now
  }

  /** No handler, given a good row, saves a bad one. */
  lemma SavedOk(cfg: Config, st: Step, id: Id, row: Row)
    requires ValidConfig(cfg)
    requires RowOk(cfg, row) && Guard(cfg, st, row)
    ensures RowOk(cfg, Saved(cfg, st, id, row))
  {
  }

  lemma InvariantStep(cfg: Config, s: State, st: Step)
    requires ValidConfig(cfg)
    requires Invariant(cfg, s) && Enabled(cfg, s, st)
    ensures Invariant(cfg, Apply(cfg, s, st))
  {
    var s' := Apply(cfg, s, st);
    forall id | id in s'.rows
      ensures id < s'.nextId && RowOk(cfg, s'.rows[id]) && s'.rows[id].arrival <= s'.now
    {
      if id in s.rows && Target(st) == Some(id) { SavedOk(cfg, st, id, s.rows[id]); }
    }
  }

  lemma {:induction false} InvariantHolds(cfg: Config, s: State, r: Run)
    requires ValidConfig(cfg)
    requires Invariant(cfg, s) && Legal(cfg, s, r)
    ensures Invariant(cfg, After(cfg, s, r))
  {
    if r.Then? {
      InvariantHolds(cfg, s, r.before);
      InvariantStep(cfg, After(cfg, s, r.before), r.step);
    }
  }
}
