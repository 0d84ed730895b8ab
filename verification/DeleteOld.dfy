// delete_old_submissions: removing the rows up to a cut-off in bounded
// transactions, while all the other handlers keep running.
module DeleteOld {
  import opened Collections
  import opened Timestamps
  import opened Submissions
  import opened Lifecycle
  import opened Reopening
  import opened Handlers

  datatype Outcome = BadArguments | Deleted(total: nat, rounds: nat)

  const MICROS_PER_DAY := Timestamps.MICROS_PER_DAY

  function Cutoff(now: Time, daysOld: nat): int {
    now - daysOld * MICROS_PER_DAY
  }

  function OldRows(rows: Table, cutoff: int): set<Id> {
    set id | id in rows && rows[id].arrival <= cutoff
  }

  /** ceil(n / chunk) */
  function Rounds(n: nat, chunk: nat): nat
    requires chunk > 0
  {
    (n + chunk - 1) / chunk
  }

  function Min(a: nat, b: nat): nat {
    if a <= b then a else b
  }

  lemma {:induction false} BatchExists(ids: set<Id>, n: nat)
    requires n <= |ids|
    ensures exists batch: set<Id> :: batch <= ids && |batch| == n
  {
    if n == |ids| {
      assert ids <= ids;
    } else {
      var id :| id in ids;
      BatchExists(ids - {id}, n);
      var batch: set<Id> :| batch <= ids - {id} && |batch| == n;
      assert batch <= ids;
    }
  }

  /** The rows that so many full chunks hold. */
  ghost function Capacity(rounds: nat, chunk: nat): nat {
    if rounds == 0 then 0 else Capacity(rounds - 1, chunk) + chunk
  }

  lemma {:induction false} CapacityIsProduct(rounds: nat, chunk: nat)
    ensures Capacity(rounds, chunk) == chunk * rounds
  {
    if rounds > 0 { CapacityIsProduct(rounds - 1, chunk); }
  }

  /** All chunks so far were full, except that the last one may not be when nothing is left. */
  ghost predicate Tally(total: nat, rounds: nat, chunk: nat, left: nat) {
    if left > 0 then total == Capacity(rounds, chunk)
    else total <= Capacity(rounds, chunk) && (rounds > 0 ==> Capacity(rounds, chunk) < total + chunk)
  }

  lemma TallyStep(total: nat, rounds: nat, chunk: nat, left: nat)
    requires chunk > 0 && left > 0 && Tally(total, rounds, chunk, left)
    ensures Tally(total + Min(chunk, left), rounds + 1, chunk, left - Min(chunk, left))
  {
  }

  lemma RoundsAre(n: nat, chunk: nat, rounds: nat)
    requires chunk > 0 && Tally(n, rounds, chunk, 0)
    ensures rounds == Rounds(n, chunk)
  {
    CapacityIsProduct(rounds, chunk);
    Quotient(n + chunk - 1, chunk, rounds, n + chunk - 1 - chunk * rounds);
  }

  // ------------------------------------------------------- a run, and what it is without deletions

  /** Steps of other handlers while the command runs: none deletes, and new submissions arrive after the
      cut-off. */
  predicate Bystanders(r: Run, cutoff: int) {
    match r
    case Start => true
    case Then(before, st) => Bystanders(before, cutoff) && !st.Delete? && (st.Submit? ==> st.at > cutoff)
  }

  /** What other handlers do up to the first transaction, and after each of so many transactions. */
  function Others(meanwhile: nat -> Run, rounds: nat): Run {
    if rounds == 0 then meanwhile(0) else Concat(Others(meanwhile, rounds - 1), meanwhile(rounds))
  }

  function Undeleted(r: Run): Run {
    match r
    case Start => Start
    case Then(before, st) => if st.Delete? then Undeleted(before) else Then(Undeleted(before), st)
  }

  /** The rows that the deletions of a run remove. */
  function Gone(cfg: Config, s: State, r: Run): set<Id> {
    match r
    case Start => {}
    case Then(before, st) =>
      Gone(cfg, s, before) + (if st.Delete? then st.ids * After(cfg, s, before).rows.Keys else {})
  }

  predicate SameButFor(s: State, t: State, gone: set<Id>) {
    t.rows == s.rows - gone && t.nextId == s.nextId && t.now == s.now && forall id | id in gone :: id < s.nextId
  }

  lemma StepWithout(cfg: Config, s: State, t: State, gone: set<Id>, st: Step)
    requires SameButFor(s, t, gone) && !st.Delete?
    ensures SameButFor(Apply(cfg, s, st), Apply(cfg, t, st), gone)
  {
  }

  lemma DeleteWithout(cfg: Config, s: State, t: State, gone: set<Id>, ids: set<Id>)
    requires SameButFor(s, t, gone) && IdsBelowNext(t)
    ensures SameButFor(s, Apply(cfg, t, Delete(ids)), gone + ids * t.rows.Keys)
  {
    assert Apply(cfg, t, Delete(ids)).rows == s.rows - (gone + ids * t.rows.Keys);
  }

  /** Deletions commute with everything else: a run leaves the rows, the counter and the clock as it would
      without its deletions, except that the deleted rows are gone. */
  lemma {:induction false} DeletionsCommute(cfg: Config, s: State, r: Run)
    requires IdsBelowNext(s)
    ensures SameButFor(After(cfg, s, Undeleted(r)), After(cfg, s, r), Gone(cfg, s, r))
  {
    if r.Then? {
      DeletionsCommute(cfg, s, r.before);
      IdsStayBelowNext(cfg, s, r.before);
      var s1, t1 := After(cfg, s, Undeleted(r.before)), After(cfg, s, r.before);
      if r.step.Delete? {
        DeleteWithout(cfg, s1, t1, Gone(cfg, s, r.before), r.step.ids);
      } else {
        StepWithout(cfg, s1, t1, Gone(cfg, s, r.before), r.step);
      }
    }
  }

  lemma BystanderStep(cfg: Config, s: State, st: Step, cutoff: int)
    requires IdsBelowNext(s) && !st.Delete? && (st.Submit? ==> st.at > cutoff)
    ensures OldRows(Apply(cfg, s, st).rows, cutoff) == OldRows(s.rows, cutoff)
    ensures s.rows.Keys <= Apply(cfg, s, st).rows.Keys
  {
    forall id | id in s.rows
      ensures id in Apply(cfg, s, st).rows && Apply(cfg, s, st).rows[id].arrival == s.rows[id].arrival
    {
      StepKeepsIdentity(cfg, st, id, s.rows[id]);
    }
  }

  /** Whatever the other handlers do, the rows to delete stay the same, and no row goes. */
  lemma {:induction false} BystandersKeepRows(cfg: Config, s: State, r: Run, cutoff: int)
    requires IdsBelowNext(s) && Bystanders(r, cutoff)
    ensures OldRows(After(cfg, s, r).rows, cutoff) == OldRows(s.rows, cutoff)
    ensures s.rows.Keys <= After(cfg, s, r).rows.Keys
    ensures IdsBelowNext(After(cfg, s, r))
  {
    if r.Then? {
      BystandersKeepRows(cfg, s, r.before, cutoff);
      BystanderStep(cfg, After(cfg, s, r.before), r.step, cutoff);
    }
  }

  lemma {:induction false} OthersAreBystanders(meanwhile: nat -> Run, rounds: nat, cutoff: int)
    requires forall k: nat :: Bystanders(meanwhile(k), cutoff)
    ensures Bystanders(Others(meanwhile, rounds), cutoff)
  {
    if rounds > 0 {
      OthersAreBystanders(meanwhile, rounds - 1, cutoff);
      ConcatIsBystanders(Others(meanwhile, rounds - 1), meanwhile(rounds), cutoff);
    }
  }

  lemma {:induction false} ConcatIsBystanders(r: Run, more: Run, cutoff: int)
    requires Bystanders(r, cutoff) && Bystanders(more, cutoff)
    ensures Bystanders(Concat(r, more), cutoff)
  {
    if more.Then? { ConcatIsBystanders(r, more.before, cutoff); }
  }

  // --------------------------------------------------------------------------- the command

  /** Deletions of at most `chunk` rows, and how many. */
  predicate InChunks(r: Run, chunk: nat) {
    match r
    case Start => true
    case Then(before, st) => InChunks(before, chunk) && (st.Delete? ==> |st.ids| <= chunk)
  }

  function Transactions(r: Run): nat {
    match r
    case Start => 0
    case Then(before, st) => Transactions(before) + (if st.Delete? then 1 else 0)
  }

  lemma {:induction false} ConcatBystanders(cfg: Config, s: State, r: Run, more: Run, cutoff: int, chunk: nat)
    requires Bystanders(more, cutoff)
    ensures var both := Concat(r, more);
            && Undeleted(both) == Concat(Undeleted(r), more)
            && Gone(cfg, s, both) == Gone(cfg, s, r)
            && Transactions(both) == Transactions(r)
            && (InChunks(r, chunk) ==> InChunks(both, chunk))
  {
    if more.Then? { ConcatBystanders(cfg, s, r, more.before, cutoff, chunk); }
  }

  /** After so many rounds: the command and the others have made the run `history` of the start. */
  ghost predicate Progress(cfg: Config, start: State, s: State, history: Run, meanwhile: nat -> Run, rounds: nat,
                           chunk: nat, cutoff: int)
  {
    && s == After(cfg, start, history) && IdsBelowNext(s)
    && Undeleted(history) == Others(meanwhile, rounds)
    && Transactions(history) == rounds && InChunks(history, chunk)
    && OldRows(s.rows, cutoff) <= OldRows(start.rows, cutoff)
    && Gone(cfg, start, history) == OldRows(start.rows, cutoff) - OldRows(s.rows, cutoff)
  }

  lemma ProgressStart(cfg: Config, start: State, meanwhile: nat -> Run, chunk: nat, cutoff: int)
    requires IdsBelowNext(start) && Bystanders(meanwhile(0), cutoff)
    ensures var s := After(cfg, start, meanwhile(0));
            Progress(cfg, start, s, meanwhile(0), meanwhile, 0, chunk, cutoff)
            && OldRows(s.rows, cutoff) == OldRows(start.rows, cutoff)
  {
    BystandersKeepRows(cfg, start, meanwhile(0), cutoff);
    ConcatBystanders(cfg, start, Start, meanwhile(0), cutoff, chunk);
    ConcatStart(meanwhile(0));
  }

  lemma {:induction false} ConcatStart(r: Run)
    ensures Concat(Start, r) == r
  {
    if r.Then? { ConcatStart(r.before); }
  }

  /** One more transaction and what the others do after it, in the history. */
  function Extended(history: Run, batch: set<Id>, more: Run): Run {
    Concat(Then(history, Delete(batch)), more)
  }

  lemma HistoryStep(cfg: Config, start: State, s: State, s': State, history: Run, more: Run, batch: set<Id>,
                    cutoff: int, chunk: nat)
    requires s == After(cfg, start, history) && s' == After(cfg, Apply(cfg, s, Delete(batch)), more)
    requires batch <= s.rows.Keys && |batch| <= chunk && Bystanders(more, cutoff) && InChunks(history, chunk)
    ensures var history' := Extended(history, batch, more);
            && s' == After(cfg, start, history')
            && Undeleted(history') == Concat(Undeleted(history), more)
            && Transactions(history') == Transactions(history) + 1 && InChunks(history', chunk)
            && Gone(cfg, start, history') == Gone(cfg, start, history) + batch
  {
    AfterConcat(cfg, start, Then(history, Delete(batch)), more);
    ConcatBystanders(cfg, start, Then(history, Delete(batch)), more, cutoff, chunk);
    assert batch * s.rows.Keys == batch;
  }

  lemma OldRowsStep(cfg: Config, s: State, s': State, more: Run, batch: set<Id>, cutoff: int)
    requires IdsBelowNext(s) && Bystanders(more, cutoff) && s' == After(cfg, Apply(cfg, s, Delete(batch)), more)
    ensures OldRows(s'.rows, cutoff) == OldRows(s.rows, cutoff) - batch && IdsBelowNext(s')
  {
    var deleted := Apply(cfg, s, Delete(batch));
    assert OldRows(deleted.rows, cutoff) == OldRows(s.rows, cutoff) - batch;
    BystandersKeepRows(cfg, deleted, more, cutoff);
  }

  lemma ProgressStep(cfg: Config, start: State, s: State, s': State, history: Run, meanwhile: nat -> Run, rounds: nat,
                     chunk: nat, cutoff: int, batch: set<Id>)
    requires Progress(cfg, start, s, history, meanwhile, rounds, chunk, cutoff)
    requires batch <= OldRows(s.rows, cutoff) && |batch| <= chunk && Bystanders(meanwhile(rounds + 1), cutoff)
    requires s' == After(cfg, Apply(cfg, s, Delete(batch)), meanwhile(rounds + 1))
    ensures Progress(cfg, start, s', Extended(history, batch, meanwhile(rounds + 1)), meanwhile, rounds + 1, chunk,
                     cutoff)
    ensures |OldRows(s'.rows, cutoff)| == |OldRows(s.rows, cutoff)| - |batch|
  {
    var more := meanwhile(rounds + 1);
    HistoryStep(cfg, start, s, s', history, more, batch, cutoff, chunk);
    OldRowsStep(cfg, s, s', more, batch, cutoff);
    TakeBatch(OldRows(start.rows, cutoff), OldRows(s.rows, cutoff), batch);
    OthersNext(meanwhile, rounds);
  }

  lemma OthersNext(meanwhile: nat -> Run, rounds: nat)
    ensures Others(meanwhile, rounds + 1) == Concat(Others(meanwhile, rounds), meanwhile(rounds + 1))
  {
  }

  lemma TakeBatch(all: set<Id>, left: set<Id>, batch: set<Id>)
    requires batch <= left <= all
    ensures all - left + batch == all - (left - batch)
    ensures |left - batch| == |left| - |batch|
  {
    Partition(batch, left, left - batch);
  }

  /** And the command has counted so many deletions. */
  ghost predicate OnTrack(cfg: Config, start: State, s: State, history: Run, meanwhile: nat -> Run, rounds: nat,
                          total: nat, chunk: nat, cutoff: int)
  {
    && Progress(cfg, start, s, history, meanwhile, rounds, chunk, cutoff)
    && total + |OldRows(s.rows, cutoff)| == |OldRows(start.rows, cutoff)|
    && Tally(total, rounds, chunk, |OldRows(s.rows, cutoff)|)
  }

  lemma OnTrackStep(cfg: Config, start: State, s: State, s': State, history: Run, meanwhile: nat -> Run, rounds: nat,
                    total: nat, chunk: nat, cutoff: int, batch: set<Id>)
    requires OnTrack(cfg, start, s, history, meanwhile, rounds, total, chunk, cutoff)
    requires chunk > 0 && batch <= OldRows(s.rows, cutoff) != {} && |batch| == Min(chunk, |OldRows(s.rows, cutoff)|)
    requires Bystanders(meanwhile(rounds + 1), cutoff)
    requires s' == After(cfg, Apply(cfg, s, Delete(batch)), meanwhile(rounds + 1))
    ensures OnTrack(cfg, start, s', Extended(history, batch, meanwhile(rounds + 1)), meanwhile, rounds + 1,
                    total + |batch|, chunk, cutoff)
    ensures |OldRows(s'.rows, cutoff)| < |OldRows(s.rows, cutoff)|
  {
    ProgressStep(cfg, start, s, s', history, meanwhile, rounds, chunk, cutoff, batch);
    TallyStep(total, rounds, chunk, |OldRows(s.rows, cutoff)|);
  }

  /** What the command promises: it counts the old rows and removes them in ceil(n / chunk) transactions; the
      history is the other handlers' steps and these transactions; every other row is there, and is what
      the other handlers alone would have made of it. */
  ghost predicate AllDeleted(cfg: Config, start: State, s: State, history: Run, meanwhile: nat -> Run,
                             outcome: Outcome, chunk: nat, cutoff: int)
    requires chunk > 0
  {
    var oldIds := OldRows(start.rows, cutoff);
    && outcome == Deleted(|oldIds|, Rounds(|oldIds|, chunk))
    && s == After(cfg, start, history)
    && Undeleted(history) == Others(meanwhile, outcome.rounds)
    && Transactions(history) == outcome.rounds && InChunks(history, chunk)
    && s.rows == After(cfg, start, Others(meanwhile, outcome.rounds)).rows - oldIds
    && OldRows(s.rows, cutoff) == {} && start.rows.Keys - oldIds <= s.rows.Keys
  }

  lemma ProgressEnd(cfg: Config, start: State, s: State, history: Run, meanwhile: nat -> Run, rounds: nat,
                    total: nat, chunk: nat, cutoff: int)
    requires OnTrack(cfg, start, s, history, meanwhile, rounds, total, chunk, cutoff)
    requires OldRows(s.rows, cutoff) == {} && chunk > 0
    requires IdsBelowNext(start) && forall k: nat :: Bystanders(meanwhile(k), cutoff)
    ensures AllDeleted(cfg, start, s, history, meanwhile, Deleted(total, rounds), chunk, cutoff)
  {
    RoundsAre(total, chunk, rounds);
    Survivors(cfg, start, s, history, meanwhile, rounds, chunk, cutoff);
  }

  lemma Survivors(cfg: Config, start: State, s: State, history: Run, meanwhile: nat -> Run, rounds: nat,
                  chunk: nat, cutoff: int)
    requires Progress(cfg, start, s, history, meanwhile, rounds, chunk, cutoff) && OldRows(s.rows, cutoff) == {}
    requires IdsBelowNext(start) && forall k: nat :: Bystanders(meanwhile(k), cutoff)
    ensures s.rows == After(cfg, start, Others(meanwhile, rounds)).rows - OldRows(start.rows, cutoff)
    ensures start.rows.Keys - OldRows(start.rows, cutoff) <= s.rows.Keys
  {
    DeletionsCommute(cfg, start, history);
    OthersAreBystanders(meanwhile, rounds, cutoff);
    BystandersKeepRows(cfg, start, Others(meanwhile, rounds), cutoff);
  }

  lemma ByArrival(cfg: Config, start: State, s: State, history: Run, meanwhile: nat -> Run, outcome: Outcome,
                  chunk: nat, cutoff: int)
    requires chunk > 0 && AllDeleted(cfg, start, s, history, meanwhile, outcome, chunk, cutoff)
    ensures forall id | id in start.rows :: id in s.rows <==> start.rows[id].arrival > cutoff
    ensures forall id | id in s.rows :: s.rows[id].arrival > cutoff
    ensures outcome.total == |set id | id in start.rows && start.rows[id].arrival <= cutoff|
  {
    forall id | id in start.rows && start.rows[id].arrival > cutoff ensures id in s.rows {
      assert id in start.rows.Keys - OldRows(start.rows, cutoff);
    }
    forall id | id in s.rows ensures s.rows[id].arrival > cutoff {
      assert id !in OldRows(s.rows, cutoff);
    }
    assert (set id | id in start.rows && start.rows[id].arrival <= cutoff) == OldRows(start.rows, cutoff);
  }

  lemma CeilingBounds(n: nat, chunk: nat)
    requires chunk > 0
    ensures n <= chunk * Rounds(n, chunk)
    ensures Rounds(n, chunk) > 0 ==> chunk * (Rounds(n, chunk) - 1) < n
  {
    var q, r := (n + chunk - 1) / chunk, (n + chunk - 1) % chunk;
    assert n + chunk - 1 == chunk * q + r;
    assert chunk * (q - 1) == chunk * q - chunk;
  }

  /** An unordered slice: as many of the rows as fit the chunk, whichever the database returns. */
  method Slice(ids: set<Id>, chunkSize: nat) returns (batch: set<Id>)
    ensures batch <= ids && |batch| == Min(chunkSize, |ids|)
  {
    BatchExists(ids, Min(chunkSize, |ids|));
    batch :| batch <= ids && |batch| == Min(chunkSize, |ids|);
  }

  /** One transaction: at most `chunkSize` rows. */
  method DeleteChunk(x: Xqueue, chunkSize: nat, deleteDate: int, ghost now: Time) returns (batch: set<Id>)
    modifies x`rows
    ensures batch <= OldRows(old(x.rows), deleteDate)
    ensures |batch| == Min(chunkSize, |OldRows(old(x.rows), deleteDate)|)
    ensures x.View(now) == Apply(x.cfg, old(x.View(now)), Delete(batch))
  {
    batch := Slice(OldRows(x.rows, deleteDate), chunkSize);
    x.rows := x.rows - batch;
  }

  /** Other handlers at work, while the command sleeps or between two of its queries. */
  method LetOthersRun(x: Xqueue, now: Time, run: Run) returns (end: Time)
    modifies x`rows, x`nextId, x`log
    ensures x.View(end) == After(x.cfg, old(x.View(now)), run)
  {
    var s := After(x.cfg, State(x.rows, x.nextId, now, x.log), run);
    x.rows, x.nextId, x.log, end := s.rows, s.nextId, s.log, s.now;
  }

  /** One round of the loop. */
  method DeleteAndSleep(x: Xqueue, chunkSize: nat, deleteDate: int, now: Time, meanwhile: Run)
    returns (batch: set<Id>, end: Time)
    modifies x`rows, x`nextId, x`log
    ensures batch <= OldRows(old(x.rows), deleteDate)
    ensures |batch| == Min(chunkSize, |OldRows(old(x.rows), deleteDate)|)
    ensures x.View(end) == After(x.cfg, Apply(x.cfg, old(x.View(now)), Delete(batch)), meanwhile)
  {
    batch := DeleteChunk(x, chunkSize, deleteDate, now);
    end := LetOthersRun(x, now, meanwhile);
  }

  /** The loop. */
  method DeleteInChunks(x: Xqueue, chunkSize: nat, deleteDate: int, now: Time, meanwhile: nat -> Run)
    returns (totalDeletions: nat, rounds: nat, end: Time, ghost history: Run)
    requires chunkSize > 0 && IdsBelowNext(x.View(now)) && forall k: nat :: Bystanders(meanwhile(k), deleteDate)
    modifies x`rows, x`nextId, x`log
    ensures OldRows(x.rows, deleteDate) == {}
    ensures OnTrack(x.cfg, old(x.View(now)), x.View(end), history, meanwhile, rounds, totalDeletions, chunkSize,
                    deleteDate)
  {
    totalDeletions, rounds := 0, 0;
    ghost var start := x.View(now);
    ProgressStart(x.cfg, start, meanwhile, chunkSize, deleteDate);
    end := LetOthersRun(x, now, meanwhile(0));
    history := meanwhile(0);
    while OldRows(x.rows, deleteDate) != {}
      invariant OnTrack(x.cfg, start, x.View(end), history, meanwhile, rounds, totalDeletions, chunkSize, deleteDate)
      decreases |OldRows(x.rows, deleteDate)|
    {
      ghost var s := x.View(end);
      var batch;
      batch, end := DeleteAndSleep(x, chunkSize, deleteDate, end, meanwhile(rounds + 1));
      OnTrackStep(x.cfg, start, s, x.View(end), history, meanwhile, rounds, totalDeletions, chunkSize, deleteDate,
                  batch);
      history := Extended(history, batch, meanwhile(rounds + 1));
      totalDeletions := totalDeletions + |batch|;
      rounds := rounds + 1;
    }
  }

  /** While any other handlers run between its transactions, the command ends, and does what it promises: a row
      there at the start goes exactly if it arrived no later than that many days before `now`. */
  method Handle(x: Xqueue, chunkSize: int, sleepBetween: int, daysOld: int, now: Time, meanwhile: nat -> Run)
    returns (outcome: Outcome, end: Time, ghost history: Run)
    requires IdsBelowNext(x.View(now))
    requires daysOld >= 0 ==> forall k: nat :: Bystanders(meanwhile(k), now - daysOld * 86_400_000_000)
    modifies x`rows, x`nextId, x`log
    ensures outcome == BadArguments <==> chunkSize <= 0 || sleepBetween < 0 || daysOld < 0
    ensures outcome == BadArguments ==> x.View(end) == old(x.View(now))
    ensures outcome.Deleted? ==>
              AllDeleted(x.cfg, old(x.View(now)), x.View(end), history, meanwhile, outcome, chunkSize,
                         now - daysOld * 86_400_000_000)
    ensures outcome.Deleted? ==>
              && (forall id | id in old(x.rows) ::
                    id in x.rows <==> old(x.rows)[id].arrival > now - daysOld * 86_400_000_000)
              && (forall id | id in x.rows :: x.rows[id].arrival > now - daysOld * 86_400_000_000)
              && outcome.total
                 == |set id | id in old(x.rows) && old(x.rows)[id].arrival <= now - daysOld * 86_400_000_000|
    ensures outcome.Deleted? ==>
              && outcome.total <= chunkSize * outcome.rounds
              && (outcome.rounds > 0 ==> chunkSize * (outcome.rounds - 1) < outcome.total)
  {
    if chunkSize <= 0 || sleepBetween < 0 || daysOld < 0 {
      return BadArguments, now, Start;
    }
    var totalDeletions, rounds;
    totalDeletions, rounds, end, history := DeleteInChunks(x, chunkSize, Cutoff(now, daysOld), now, meanwhile);
    outcome := Deleted(totalDeletions, rounds);
    ghost var start := old(x.View(now));
    ProgressEnd(x.cfg, start, x.View(end), history, meanwhile, rounds, totalDeletions, chunkSize, Cutoff(now, daysOld));
    ByArrival(x.cfg, start, x.View(end), history, meanwhile, outcome, chunkSize, Cutoff(now, daysOld));
    CeilingBounds(totalDeletions, chunkSize);
  }
}
