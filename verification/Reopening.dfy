// Rows that come back from retirement, and the two bounds this puts on a run:
// how often a row can reopen, and how many unretired rows a callback key has.
module Reopening {
  import opened Collections
  import opened Timestamps
  import opened Submissions
  import opened Reporting
  import opened Lifecycle

  /** The step turns the row `id` of the table from retired to unretired. */
  predicate Reopens(cfg: Config, rows: Table, st: Step, id: Id) {
    id in rows && Survives(st, id) && rows[id].retired && !RowAfter(cfg, st, id, rows[id]).retired
  }

  /** Exactly the failing results for a row that is retired do it, while the failures stay within the limit. */
  lemma ReopenedByFailedResult(cfg: Config, s: State, st: Step, id: Id)
    requires Enabled(cfg, s, st)
    ensures Reopens(cfg, s.rows, st, id) <==>
              st.PutResult? && st.id == id && id in s.rows && Accepts(s.rows[id], st.key) && !Delivered(st.answers)
              && s.rows[id].retired && s.rows[id].failures + 1 <= cfg.maxFailures
    ensures Reopens(cfg, s.rows, st, id) ==>
              RowAfter(cfg, st, id, s.rows[id]).failures == s.rows[id].failures + 1
  {
  }

  /** No step lowers a row's failure count. */
  lemma FailuresGrow(cfg: Config, st: Step, id: Id, row: Row)
    ensures RowAfter(cfg, st, id, row).failures >= row.failures
  {
  }

  function ReopenCount(cfg: Config, s: State, r: Run, id: Id): nat {
    match r
    case Start => 0
    case Then(before, st) =>
      ReopenCount(cfg, s, before, id) + (if Reopens(cfg, After(cfg, s, before).rows, st, id) then 1 else 0)
  }

  predicate IdsBelowNext(s: State) {
    forall id | id in s.rows :: id < s.nextId
  }

  /** Each reopening of a row costs it a failure, and leaves it within the limit. */
  lemma {:induction false} ReopeningCostsFailures(cfg: Config, s: State, r: Run, id: Id)
    requires id in s.rows && id < s.nextId && Legal(cfg, s, r)
    ensures ReopenCount(cfg, s, r, id) > 0 ==>
              s.rows[id].failures + ReopenCount(cfg, s, r, id) <= cfg.maxFailures
    ensures id in After(cfg, s, r).rows ==>
              s.rows[id].failures + ReopenCount(cfg, s, r, id) <= After(cfg, s, r).rows[id].failures
    ensures id < After(cfg, s, r).nextId
  {
    if r.Then? {
      ReopeningCostsFailures(cfg, s, r.before, id);
      var s1 := After(cfg, s, r.before);
      ReopenedByFailedResult(cfg, s1, r.step, id);
      if id in s1.rows { FailuresGrow(cfg, r.step, id, s1.rows[id]); }
    }
  }

  /** In any run, one row reopens at most as often as it has failures left, so at most MAX times. */
  lemma BoundedReopening(cfg: Config, s: State, r: Run, id: Id)
    requires id in s.rows && id < s.nextId && Legal(cfg, s, r)
    ensures ReopenCount(cfg, s, r, id) <= Budget(cfg, s.rows, id)
    ensures ReopenCount(cfg, s, r, id) <= cfg.maxFailures
  {
    ReopeningCostsFailures(cfg, s, r, id);
  }

  /** Retired beyond the failure limit is final until the row is deleted. */
  lemma {:induction false} ExhaustedIsFinal(cfg: Config, s: State, r: Run, id: Id)
    requires id in s.rows && id < s.nextId && Legal(cfg, s, r)
    requires s.rows[id].retired && s.rows[id].failures >= cfg.maxFailures
    ensures id in After(cfg, s, r).rows ==>
              After(cfg, s, r).rows[id].retired && After(cfg, s, r).rows[id].failures >= cfg.maxFailures
    ensures id < After(cfg, s, r).nextId
  {
    if r.Then? {
      ExhaustedIsFinal(cfg, s, r.before, id);
      var s1 := After(cfg, s, r.before);
      ReopenedByFailedResult(cfg, s1, r.step, id);
      if id in s1.rows { FailuresGrow(cfg, r.step, id, s1.rows[id]); }
    }
  }

  // ------------------------------------------------------------------ the potential

  /** The failures a row may still collect while unretired. */
  function Budget(cfg: Config, rows: Table, id: Id): nat {
    if id in rows && rows[id].failures < cfg.maxFailures then cfg.maxFailures - rows[id].failures else 0
  }

  /** Summed over the ids below n. */
  function Potential(cfg: Config, rows: Table, n: nat): nat {
    if n == 0 then 0 else Potential(cfg, rows, n - 1) + Budget(cfg, rows, n - 1)
  }

  function ReopenTotal(cfg: Config, s: State, r: Run): nat {
    match r
    case Start => 0
    case Then(before, st) =>
      var rows := After(cfg, s, before).rows;
      ReopenTotal(cfg, s, before) + (if exists id :: id in rows && Reopens(cfg, rows, st, id) then 1 else 0)
  }

  function Submits(r: Run): nat {
    match r
    case Start => 0
    case Then(before, st) => Submits(before) + (if st.Submit? then 1 else 0)
  }

  /** A step raises no old row's budget, and lowers the reopened row's. */
  lemma {:induction false} PotentialStep(cfg: Config, s: State, st: Step, n: nat)
    requires Enabled(cfg, s, st) && n <= s.nextId
    ensures Potential(cfg, Apply(cfg, s, st).rows, n)
            <= Potential(cfg, s.rows, n) - (if exists id: Id :: id < n && Reopens(cfg, s.rows, st, id) then 1 else 0)
  {
    if n > 0 {
      PotentialStep(cfg, s, st, n - 1);
      BudgetStep(cfg, s, st, n - 1);
      if exists id: Id :: id < n && Reopens(cfg, s.rows, st, id) {
        var id: Id :| id < n && Reopens(cfg, s.rows, st, id);
        ReopenedByFailedResult(cfg, s, st, id);
        ReopenedByFailedResult(cfg, s, st, n - 1);
      }
    }
  }

  lemma BudgetStep(cfg: Config, s: State, st: Step, id: Id)
    requires Enabled(cfg, s, st) && id < s.nextId
    ensures Budget(cfg, Apply(cfg, s, st).rows, id) <= Budget(cfg, s.rows, id)
    ensures Reopens(cfg, s.rows, st, id) ==> Budget(cfg, Apply(cfg, s, st).rows, id) < Budget(cfg, s.rows, id)
  {
    ReopenedByFailedResult(cfg, s, st, id);
    if id in s.rows { FailuresGrow(cfg, st, id, s.rows[id]); }
  }

  lemma {:induction false} IdsStayBelowNext(cfg: Config, s: State, r: Run)
    requires IdsBelowNext(s)
    ensures IdsBelowNext(After(cfg, s, r))
  {
    if r.Then? { IdsStayBelowNext(cfg, s, r.before); }
  }

  lemma WholePotentialStep(cfg: Config, s: State, st: Step)
    requires IdsBelowNext(s) && Enabled(cfg, s, st)
    ensures var s' := Apply(cfg, s, st);
            Potential(cfg, s'.rows, s'.nextId)
            + (if exists id :: id in s.rows && Reopens(cfg, s.rows, st, id) then 1 else 0)
            <= Potential(cfg, s.rows, s.nextId) + (if st.Submit? then cfg.maxFailures else 0)
  {
    PotentialStep(cfg, s, st, s.nextId);
  }

  /** The failures that the submissions of a run bring in. */
  ghost function Granted(cfg: Config, r: Run): nat {
    match r
    case Start => 0
    case Then(before, st) => Granted(cfg, before) + (if st.Submit? then cfg.maxFailures else 0)
  }

  lemma {:induction false} GrantedIsProduct(cfg: Config, r: Run)
    ensures Granted(cfg, r) == Submits(r) * cfg.maxFailures
  {
    if r.Then? {
      GrantedIsProduct(cfg, r.before);
      assert (Submits(r.before) + 1) * cfg.maxFailures == Submits(r.before) * cfg.maxFailures + cfg.maxFailures;
    }
  }

  lemma {:induction false} ReopeningsAreGranted(cfg: Config, s: State, r: Run)
    requires IdsBelowNext(s) && Legal(cfg, s, r)
    ensures var s' := After(cfg, s, r);
            ReopenTotal(cfg, s, r) + Potential(cfg, s'.rows, s'.nextId)
            <= Potential(cfg, s.rows, s.nextId) + Granted(cfg, r)
  {
    if r.Then? {
      ReopeningsAreGranted(cfg, s, r.before);
      IdsStayBelowNext(cfg, s, r.before);
      WholePotentialStep(cfg, After(cfg, s, r.before), r.step);
    }
  }

  /** Over the whole table: all the reopenings of a run are paid for by the budgets at its start
      and MAX for each submission since. */
  lemma ReopeningsArePaid(cfg: Config, s: State, r: Run)
    requires IdsBelowNext(s) && Legal(cfg, s, r)
    ensures ReopenTotal(cfg, s, r) <= Potential(cfg, s.rows, s.nextId) + Submits(r) * cfg.maxFailures
  {
    ReopeningsAreGranted(cfg, s, r);
    GrantedIsProduct(cfg, r);
  }

  // ------------------------------------------------------------------- supersession

  /** The unretired rows with a callback key. */
  function Live(rows: Table, key: string): set<Id> {
    set id | id in rows && rows[id].callbackUrl == key && !rows[id].retired
  }

  /** Right after a submission its row is the only unretired one with its key. */
  lemma SubmitSupersedes(cfg: Config, s: State, st: Step)
    requires st.Submit?
    ensures Live(Apply(cfg, s, st).rows, CallbackKey(st.callback)) == {s.nextId}
  {
  }

  lemma AbortedSubmitSupersedes(cfg: Config, s: State, st: Step)
    requires st.SubmitAborted?
    ensures Live(Apply(cfg, s, st).rows, CallbackKey(st.callback)) == {}
  {
  }

  /** Rows with the key that reopened since the key's last submission (or aborted one). */
  function ReopenedSince(cfg: Config, s: State, r: Run, key: string): nat {
    match r
    case Start => 0
    case Then(before, st) =>
      if (st.Submit? || st.SubmitAborted?) && CallbackKey(st.callback) == key then 0
      else ReopenedSince(cfg, s, before, key) + (if ReopensKey(cfg, After(cfg, s, before).rows, st, key) then 1 else 0)
  }

  predicate ReopensKey(cfg: Config, rows: Table, st: Step, key: string) {
    st.PutResult? && st.id in rows && rows[st.id].callbackUrl == key && Reopens(cfg, rows, st, st.id)
  }

  /** Whether the key's last submission, if any, got as far as its insertion. */
  function Inserted(r: Run, key: string): bool {
    match r
    case Start => false
    case Then(before, st) =>
      if (st.Submit? || st.SubmitAborted?) && CallbackKey(st.callback) == key then st.Submit?
      else Inserted(before, key)
  }

  /** A step adds at most the reopened row to the unretired rows of a key it does not submit to. */
  lemma LiveStep(cfg: Config, s: State, st: Step, key: string)
    requires Enabled(cfg, s, st)
    requires (st.Submit? || st.SubmitAborted?) ==> CallbackKey(st.callback) != key
    ensures Live(Apply(cfg, s, st).rows, key)
            <= Live(s.rows, key) + (if ReopensKey(cfg, s.rows, st, key) then {st.id} else {})
  {
    forall id | id in Live(Apply(cfg, s, st).rows, key)
      ensures id in Live(s.rows, key) || (ReopensKey(cfg, s.rows, st, key) && id == st.id)
    {
      if id in s.rows { ReopenedByFailedResult(cfg, s, st, id); }
    }
  }

  /** In every reachable state, the unretired rows with a key number at most one, for the key's last
      submission, plus the rows with that key that reopened since. */
  lemma {:induction false} SupersessionCount(cfg: Config, r: Run, key: string)
    requires Legal(cfg, INIT, r)
    ensures |Live(After(cfg, INIT, r).rows, key)|
            <= (if Inserted(r, key) then 1 else 0) + ReopenedSince(cfg, INIT, r, key)
  {
    if r.Then? {
      SupersessionCount(cfg, r.before, key);
      var s, st := After(cfg, INIT, r.before), r.step;
      if (st.Submit? || st.SubmitAborted?) && CallbackKey(st.callback) == key {
        if st.Submit? { SubmitSupersedes(cfg, s, st); } else { AbortedSubmitSupersedes(cfg, s, st); }
      } else {
        LiveStep(cfg, s, st, key);
        SubsetSize(Live(Apply(cfg, s, st).rows, key),
                   Live(s.rows, key) + (if ReopensKey(cfg, s.rows, st, key) then {st.id} else {}));
      }
    }
  }

  /** So with no reopening since the last submission, at most one row with the key is unretired. */
  lemma AtMostOneLive(cfg: Config, r: Run, key: string, a: Id, b: Id)
    requires Legal(cfg, INIT, r) && ReopenedSince(cfg, INIT, r, key) == 0
    requires a in Live(After(cfg, INIT, r).rows, key) && b in Live(After(cfg, INIT, r).rows, key)
    ensures a == b
  {
    SupersessionCount(cfg, r, key);
    AtMostOne(Live(After(cfg, INIT, r).rows, key), a, b);
  }
}
