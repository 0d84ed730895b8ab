// What whole runs keep track of: where each row and each post to the LMS came
// from, why a row is retired, and how many deliveries and posts there can be.
module Accounting {
  import opened Collections
  import opened Timestamps
  import opened Submissions
  import opened Reporting
  import opened Lifecycle
  import opened Leases
  import opened Fairness
  import opened Reopening

  // --------------------------------------------------------------------- no cross-talk

  /** Identity, payload and arrival time of a row are those of the submission it was inserted for. */
  lemma {:induction false} RowsKeepTheirOrigin(cfg: Config, r: Run, id: Id)
    ensures var s := After(cfg, INIT, r);
            && s.nextId == Ids(r) && (id >= s.nextId ==> id !in s.rows && Submission(r, id).None?)
            && (id in s.rows ==> Submission(r, id).Some? && IsSubmissionOf(s.rows[id], Submission(r, id).value))
  {
    if r.Then? {
      RowsKeepTheirOrigin(cfg, r.before, id);
      var s1 := After(cfg, INIT, r.before);
      if id in s1.rows { StepKeepsIdentity(cfg, r.step, id, s1.rows[id]); }
    }
  }

  /** The step reports this post, for the row that `submit` inserted under `id`. */
  predicate Reports(s: State, st: Step, id: Id, submit: Step, post: Post)
    requires submit.Submit?
  {
    post.header == submit.header && id in s.rows && Target(st) == Some(id) && Says(st, s.rows[id], post.body)
  }

  /** Some step of the run reports the post, for a row submitted before that step. */
  ghost predicate Explained(cfg: Config, r: Run, post: Post) {
    match r
    case Start => false
    case Then(before, st) =>
      Explained(cfg, before, post)
      || (exists id: Id :: Submission(before, id).Some?
            && Reports(After(cfg, INIT, before), st, id, Submission(before, id).value, post))
  }

  /** No cross-talk: every post in the log carries the exact header of a submission made earlier in the
      run, and as its body a grader's reply accepted or received for that submission, or the fixed
      failure message. */
  lemma {:induction false} EveryPostIsExplained(cfg: Config, r: Run, post: Post)
    requires post in After(cfg, INIT, r).log
    ensures Explained(cfg, r, post)
  {
    var s1 := After(cfg, INIT, r.before);
    if post in s1.log {
      EveryPostIsExplained(cfg, r.before, post);
    } else {
      assert post in StepPosts(s1.rows, r.step);
      var id := Target(r.step).value;
      RowPostsSay(r.step, s1.rows[id], post);
      RowsKeepTheirOrigin(cfg, r.before, id);
      assert Reports(s1, r.step, id, Submission(r.before, id).value, post);
    }
  }

  // ------------------------------------------------- nothing retires unaccounted for

  /** Why a handler other than put_result retires the row. */
  datatype Reason = Supersession | Push | Age

  predicate Gives(s: State, st: Step, id: Id, reason: Reason) {
    match reason
    case Supersession => (st.Submit? || st.SubmitAborted?) && id in Live(s.rows, CallbackKey(st.callback))
    case Push => st.Deliver? && st.id == id
    case Age => st.RetireOld? && st.id == id
  }

  /** The reason was given since the row last reopened. */
  function OnRecord(cfg: Config, r: Run, id: Id, reason: Reason): bool {
    match r
    case Start => false
    case Then(before, st) =>
      var s := After(cfg, INIT, before);
      Gives(s, st, id, reason) || (OnRecord(cfg, before, id, reason) && !Reopens(cfg, s.rows, st, id))
  }

  ghost predicate Accounted(cfg: Config, r: Run, id: Id, row: Row) {
    row.retired ==>
      row.lmsAck || row.failures >= cfg.maxFailures || exists reason :: OnRecord(cfg, r, id, reason)
  }

  /** In every reachable state a retired row was acknowledged by the LMS, or has used up its failures, or
      since it last reopened was superseded, pushed, or taken by retire_old_submissions. */
  lemma {:induction false} NothingRetiresUnaccounted(cfg: Config, r: Run, id: Id)
    requires Legal(cfg, INIT, r) && id in After(cfg, INIT, r).rows
    ensures Accounted(cfg, r, id, After(cfg, INIT, r).rows[id])
  {
    var s1 := After(cfg, INIT, r.before);
    if id in s1.rows {
      NothingRetiresUnaccounted(cfg, r.before, id);
      RowsKeepTheirOrigin(cfg, r.before, id);
      AccountedStep(cfg, r, id);
    }
  }

  lemma AccountedStep(cfg: Config, r: Run, id: Id)
    requires r.Then? && id in After(cfg, INIT, r.before).rows
    requires Enabled(cfg, After(cfg, INIT, r.before), r.step)
    requires Accounted(cfg, r.before, id, After(cfg, INIT, r.before).rows[id])
    ensures Accounted(cfg, r, id, RowAfter(cfg, r.step, id, After(cfg, INIT, r.before).rows[id]))
  {
    var s, st := After(cfg, INIT, r.before), r.step;
    var row := s.rows[id];
    var row' := RowAfter(cfg, st, id, row);
    FailuresGrow(cfg, st, id, row);
    if row'.retired {
      if row.retired {
        forall reason | OnRecord(cfg, r.before, id, reason) ensures OnRecord(cfg, r, id, reason) {
        }
      } else if st.Submit? || st.SubmitAborted? {
        assert OnRecord(cfg, r, id, Supersession);
      } else if st.Deliver? {
        assert OnRecord(cfg, r, id, Push);
      } else if st.RetireOld? {
        assert OnRecord(cfg, r, id, Age);
      }
    }
  }

  // ------------------------------------------------------------- push gets one chance

  function Deliveries(r: Run, id: Id): nat {
    match r
    case Start => 0
    case Then(before, st) => Deliveries(before, id) + (if st.Deliver? && st.id == id then 1 else 0)
  }

  /** Each delivery retires its row, so another one needs a reopening in between. */
  lemma {:induction false} DeliveriesNeedReopening(cfg: Config, r: Run, id: Id)
    requires Legal(cfg, INIT, r)
    ensures Deliveries(r, id) <= RowReopenings(cfg, r, id) + 1
    ensures var s := After(cfg, INIT, r);
            && (id >= s.nextId ==> id !in s.rows && Deliveries(r, id) == 0)
            && (id in s.rows && !s.rows[id].retired ==> Deliveries(r, id) <= RowReopenings(cfg, r, id))
  {
    if r.Then? { DeliveriesNeedReopening(cfg, r.before, id); }
  }

  function RowReopenings(cfg: Config, r: Run, id: Id): nat {
    ReopenCount(cfg, INIT, r, id)
  }

  /** Without a pull there is no key, so no result is accepted and nothing reopens. */
  lemma {:induction false} UnpulledNeverReopens(cfg: Config, r: Run, id: Id)
    requires Legal(cfg, INIT, r) && Pulls(r, id) == 0
    ensures RowReopenings(cfg, r, id) == 0
  {
    if r.Then? {
      UnpulledNeverReopens(cfg, r.before, id);
      LeaseSpacing(cfg, r.before, id);
      TableHoldsLastPull(cfg, r.before, id);
      ReopenedByFailedResult(cfg, After(cfg, INIT, r.before), r.step, id);
    }
  }

  /** A submission that is never pulled goes to its push grader at most once in any run. */
  lemma PushGetsOneChance(cfg: Config, r: Run, id: Id)
    requires Legal(cfg, INIT, r) && Pulls(r, id) == 0
    ensures Deliveries(r, id) <= 1
  {
    DeliveriesNeedReopening(cfg, r, id);
    UnpulledNeverReopens(cfg, r, id);
  }

  /** The worker's query picks a never-pulled row only if it was never pushed -- the half of the filter
      for pushes that timed out never applies -- and the delivery retires it whatever the outcomes. */
  lemma NoSecondPush(cfg: Config, r: Run, st: Step)
    requires ValidConfig(cfg) && Legal(cfg, INIT, r)
    requires st.Deliver? && Enabled(cfg, After(cfg, INIT, r), st) && Pulls(r, st.id) == 0
    ensures After(cfg, INIT, r).rows[st.id].pushTime == None
    ensures Apply(cfg, After(cfg, INIT, r), st).rows[st.id].retired
  {
    InvariantHolds(cfg, INIT, r);
    LeaseSpacing(cfg, r, st.id);
    TableHoldsLastPull(cfg, r, st.id);
  }

  // -------------------------------------------------------------------- delivery budget

  /** Since `base` the row was pulled again -- at least one delay later than before -- or the last pull is still
      that of `base`. */
  lemma {:induction false} PulledAgainLater(cfg: Config, r: Run, base: Run, id: Id)
    requires Legal(cfg, INIT, r) && Extends(r, base) && LastPull(base, id).Some?
    ensures Pulls(r, id) >= Pulls(base, id) && LastPull(r, id).Some?
    ensures (id, LastPull(base, id).value) in Issued(r)
    ensures if Pulls(r, id) == Pulls(base, id) then LastPull(r, id) == LastPull(base, id)
            else LastPull(r, id).value >= LastPull(base, id).value + cfg.delay
  {
    LastPullIsIssued(base, id);
    if r != base {
      PulledAgainLater(cfg, r.before, base, id);
      if PullsRow(r.step, id) { NextPullIsLater(cfg, r, id); }
    }
  }

  /** A key is not used up by its result: however often it was accepted, and whatever the LMS answered, it is
      accepted again exactly as long as the row has not been pulled again. */
  lemma KeyLastsUntilNextPull(cfg: Config, r: Run, base: Run, id: Id, key: string)
    requires ValidConfig(cfg) && cfg.delay > 0
    requires Legal(cfg, INIT, base) && Legal(cfg, INIT, r) && Extends(r, base) && CollisionFree(cfg, Issued(r))
    requires id in After(cfg, INIT, base).rows && Accepts(After(cfg, INIT, base).rows[id], key)
    requires id in After(cfg, INIT, r).rows
    ensures Accepts(After(cfg, INIT, r).rows[id], key) <==> Pulls(r, id) == Pulls(base, id)
  {
    KeyCheck(cfg, base, id, key);
    KeyCheck(cfg, r, id, key);
    PulledAgainLater(cfg, r, base, id);
    LastPullIsIssued(r, id);
    var first, last := (id, LastPull(base, id).value), (id, LastPull(r, id).value);
    if cfg.hash(Seed(first.1, id)) == cfg.hash(Seed(last.1, id)) { SeedInjective(first.1, id, last.1, id); }
  }

  /** And each time it is accepted the result is posted, so a grade can reach the LMS more than once. */
  lemma ResultsCanRepeat(cfg: Config, r: Run, base: Run, again: Step)
    requires ValidConfig(cfg) && cfg.delay > 0
    requires Legal(cfg, INIT, base) && Legal(cfg, INIT, r) && Extends(r, base) && CollisionFree(cfg, Issued(r))
    requires again.PutResult? && again.id in After(cfg, INIT, base).rows && again.id in After(cfg, INIT, r).rows
    requires Accepts(After(cfg, INIT, base).rows[again.id], again.key)
    ensures var s := After(cfg, INIT, r);
            |Apply(cfg, s, again).log| > |s.log| <==> Pulls(r, again.id) == Pulls(base, again.id)
  {
    KeyLastsUntilNextPull(cfg, r, base, again.id, again.key);
    ResultIsPosted(cfg, After(cfg, INIT, r), again);
  }

  lemma ResultIsPosted(cfg: Config, s: State, st: Step)
    requires st.PutResult? && st.id in s.rows
    ensures |Apply(cfg, s, st).log| > |s.log| <==> Accepts(s.rows[st.id], st.key)
  {
    PostsBudget(s.rows[st.id].header, st.reply, st.answers);
  }

  /** The step makes a report to the LMS. */
  predicate IsReport(s: State, st: Step) {
    Target(st).Some? && Target(st).value in s.rows && MakesReport(st, s.rows[Target(st).value])
  }

  function ReportCount(cfg: Config, r: Run): nat {
    match r
    case Start => 0
    case Then(before, st) => ReportCount(cfg, before) + (if IsReport(After(cfg, INIT, before), st) then 1 else 0)
  }

  lemma StepBudget(s: State, st: Step)
    ensures |StepPosts(s.rows, st)| <= (if IsReport(s, st) then MAX_ATTEMPTS else 0)
    ensures Successes(StepPosts(s.rows, st)) <= (if IsReport(s, st) then 1 else 0)
  {
    if Target(st).Some? && Target(st).value in s.rows { RowPostsBudget(st, s.rows[Target(st).value]); }
  }

  /** A run makes at most five posts per report, and at most one successful post per report. */
  lemma {:induction false} DeliveryBudget(cfg: Config, r: Run)
    ensures |After(cfg, INIT, r).log| <= 5 * ReportCount(cfg, r)
    ensures Successes(After(cfg, INIT, r).log) <= ReportCount(cfg, r)
  {
    if r.Then? {
      DeliveryBudget(cfg, r.before);
      var s1 := After(cfg, INIT, r.before);
      StepBudget(s1, r.step);
      SuccessesAppend(s1.log, StepPosts(s1.rows, r.step));
    }
  }

  /** Results accepted for the row in the run. */
  function Accepted(cfg: Config, s: State, r: Run, id: Id): nat {
    match r
    case Start => 0
    case Then(before, st) =>
      var rows := After(cfg, s, before).rows;
      Accepted(cfg, s, before, id)
      + (if st.PutResult? && st.id == id && id in rows && Accepts(rows[id], st.key) then 1 else 0)
  }

  ghost predicate StaysUnretired(cfg: Config, s: State, r: Run, id: Id) {
    id in After(cfg, s, r).rows && !After(cfg, s, r).rows[id].retired
    && (r.Then? ==> StaysUnretired(cfg, s, r.before, id))
  }

  /** A row that is never retired in a run has failed with every accepted result, and had the failures
      left for it: it is retired within MAX + 1 - failures accepted results. */
  lemma {:induction false} RetiredWithinBudget(cfg: Config, s: State, r: Run, id: Id)
    requires id in s.rows && id < s.nextId && s.rows[id].failures <= cfg.maxFailures
    requires Legal(cfg, s, r) && StaysUnretired(cfg, s, r, id)
    ensures s.rows[id].failures + Accepted(cfg, s, r, id) == After(cfg, s, r).rows[id].failures
    ensures Accepted(cfg, s, r, id) < cfg.maxFailures + 1 - s.rows[id].failures
    ensures id < After(cfg, s, r).nextId
  {
    if r.Then? {
      assert StaysUnretired(cfg, s, r.before, id);
      RetiredWithinBudget(cfg, s, r.before, id);
      UnretiredStep(cfg, r.step, id, After(cfg, s, r.before).rows[id]);
    }
  }

  lemma UnretiredStep(cfg: Config, st: Step, id: Id, row: Row)
    requires !row.retired && !RowAfter(cfg, st, id, row).retired
    ensures var row' := RowAfter(cfg, st, id, row);
            if st.PutResult? && st.id == id && Accepts(row, st.key)
            then row'.failures == row.failures + 1 <= cfg.maxFailures
            else row'.failures == row.failures
  {
  }
}
