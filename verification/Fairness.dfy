// First come, first served: what get_submission hands out over a stretch of
// time shorter than one lease, with handlers running in turn.
module Fairness {
  import opened Collections
  import opened Timestamps
  import opened Submissions
  import opened Lifecycle
  import opened Leases

  /** The rows handed out to pulls of a queue, in order. */
  function HandedOut(r: Run, queue: string): seq<Id> {
    match r
    case Start => []
    case Then(before, st) =>
      HandedOut(before, queue)
      + (if st.Pull? && st.queue == queue && st.choice.Some? then [st.choice.value] else [])
  }

  ghost predicate ShortRun(cfg: Config, s: State, r: Run) {
    LegalInTurn(cfg, s, r) && After(cfg, s, r).now < s.now + cfg.delay
  }

  /** In a short run, a row handed out stays leased: it cannot be pulled again. */
  lemma {:induction false} HandedOutIsLeased(cfg: Config, s: State, r: Run, queue: string, id: Id)
    requires ValidConfig(cfg) && Invariant(cfg, s) && ShortRun(cfg, s, r)
    requires id in HandedOut(r, queue)
    ensures var s' := After(cfg, s, r);
            id < s'.nextId
            && (id in s'.rows ==> s'.rows[id].pullTime.Some? && s'.rows[id].pullTime.value >= s.now)
  {
    var s1 := After(cfg, s, r.before);
    InTurnIsLegal(cfg, s, r.before);
    if id in HandedOut(r.before, queue) {
      HandedOutIsLeased(cfg, s, r.before, queue, id);
    } else {
      InvariantHolds(cfg, s, r.before);
    }
    if id in s1.rows { PullColumns(cfg, r.step, id, s1.rows[id]); }
  }

  /** All the pulls of a queue within one lease hand out different rows. */
  lemma {:induction false} NoDoubleHandout(cfg: Config, s: State, r: Run, queue: string)
    requires ValidConfig(cfg) && Invariant(cfg, s) && ShortRun(cfg, s, r)
    ensures Distinct(HandedOut(r, queue))
  {
    if r.Then? {
      NoDoubleHandout(cfg, s, r.before, queue);
      if r.step.Pull? && r.step.choice.Some? && r.step.choice.value in HandedOut(r.before, queue) {
        HandedOutIsLeased(cfg, s, r.before, queue, r.step.choice.value);
        assert false;
      }
    }
  }

  // ------------------------------------------------------------------ no starvation

  /** The other rows of x's queue that arrived no later than x. */
  function AheadIn(rows: Table, x: Id, row: Row): set<Id> {
    set y | y in rows && y != x && rows[y].queue == row.queue && rows[y].arrival <= row.arrival
  }

  /** Those that were in the table at some point of the run. */
  function Ahead(cfg: Config, s: State, r: Run, x: Id, row: Row): set<Id> {
    match r
    case Start => AheadIn(s.rows, x, row)
    case Then(before, _) => Ahead(cfg, s, before, x, row) + AheadIn(After(cfg, s, r).rows, x, row)
  }

  /** x can be handed out each time its queue is asked for work. */
  ghost predicate StaysEligible(cfg: Config, s: State, r: Run, x: Id, queue: string) {
    match r
    case Start => true
    case Then(before, st) =>
      StaysEligible(cfg, s, before, x, queue)
      && (st.Pull? && st.queue == queue ==> x in PullableIds(cfg, After(cfg, s, before).rows, queue, st.asked))
  }

  lemma {:induction false} RowKeepsIdentity(cfg: Config, s: State, r: Run, x: Id)
    requires x in s.rows && x < s.nextId
    ensures x in After(cfg, s, r).rows ==> SameSubmission(After(cfg, s, r).rows[x], s.rows[x])
    ensures x < After(cfg, s, r).nextId
  {
    if r.Then? {
      RowKeepsIdentity(cfg, s, r.before, x);
      var s1 := After(cfg, s, r.before);
      if x in s1.rows { StepKeepsIdentity(cfg, r.step, x, s1.rows[x]); }
    }
  }

  lemma {:induction false} AheadCoversLast(cfg: Config, s: State, r: Run, x: Id, row: Row)
    ensures AheadIn(After(cfg, s, r).rows, x, row) <= Ahead(cfg, s, r, x, row)
  {
  }

  lemma {:induction false} HandedOutIsAhead(cfg: Config, s: State, r: Run, x: Id, y: Id)
    requires x in s.rows && Invariant(cfg, s)
    requires LegalInTurn(cfg, s, r) && StaysEligible(cfg, s, r, x, s.rows[x].queue)
    requires y != x && y in HandedOut(r, s.rows[x].queue)
    ensures y in Ahead(cfg, s, r, x, s.rows[x])
  {
    if y in HandedOut(r.before, s.rows[x].queue) {
      HandedOutIsAhead(cfg, s, r.before, x, y);
    } else {
      RowKeepsIdentity(cfg, s, r.before, x);
      AheadCoversLast(cfg, s, r.before, x, s.rows[x]);
    }
  }

  /** No starvation: within one lease, a row that stays eligible has been handed out once its queue's
      successful pulls outnumber the rows ahead of it.  Other leases may expire meanwhile. */
  lemma NoStarvation(cfg: Config, s: State, r: Run, x: Id)
    requires ValidConfig(cfg) && Invariant(cfg, s) && ShortRun(cfg, s, r)
    requires x in s.rows && StaysEligible(cfg, s, r, x, s.rows[x].queue)
    ensures x in HandedOut(r, s.rows[x].queue)
            || |HandedOut(r, s.rows[x].queue)| <= |Ahead(cfg, s, r, x, s.rows[x])|
  {
    var queue := s.rows[x].queue;
    if x !in HandedOut(r, queue) {
      NoDoubleHandout(cfg, s, r, queue);
      forall y | y in HandedOut(r, queue) ensures y in Ahead(cfg, s, r, x, s.rows[x]) {
        HandedOutIsAhead(cfg, s, r, x, y);
      }
      DistinctFits(HandedOut(r, queue), Ahead(cfg, s, r, x, s.rows[x]));
    }
  }

  /** Nobody overtakes a row once the clock has passed its arrival. */
  lemma {:induction false} NobodyJoinsAhead(cfg: Config, s: State, r: Run, x: Id, y: Id)
    requires Invariant(cfg, s) && LegalInTurn(cfg, s, r)
    requires x in s.rows && s.rows[x].arrival < s.now
    requires y in AheadIn(After(cfg, s, r).rows, x, s.rows[x])
    ensures y in AheadIn(s.rows, x, s.rows[x])
  {
    if r.Then? {
      var s1 := After(cfg, s, r.before);
      InTurnIsLegal(cfg, s, r.before);
      if y in s1.rows {
        StepKeepsIdentity(cfg, r.step, y, s1.rows[y]);
        NobodyJoinsAhead(cfg, s, r.before, x, y);
      }
    }
  }

  /** So then the rows ahead of it, over the whole run, are those of the table now. */
  lemma {:induction false} AheadIsFixed(cfg: Config, s: State, r: Run, x: Id)
    requires Invariant(cfg, s) && LegalInTurn(cfg, s, r)
    requires x in s.rows && s.rows[x].arrival < s.now
    ensures Ahead(cfg, s, r, x, s.rows[x]) == AheadIn(s.rows, x, s.rows[x])
  {
    if r.Then? {
      AheadIsFixed(cfg, s, r.before, x);
      forall y | y in AheadIn(After(cfg, s, r).rows, x, s.rows[x])
        ensures y in AheadIn(s.rows, x, s.rows[x])
      {
        NobodyJoinsAhead(cfg, s, r, x, y);
      }
    }
  }

  // ------------------------------------------------------------- drain and the count

  /** Only get_submission calls, and time passing. */
  predicate OnlyPulls(r: Run) {
    match r
    case Start => true
    case Then(before, st) => OnlyPulls(before) && (st.Pull? || st.Tick?)
  }

  /** One successful pull takes exactly its row from what is available, until its lease ends. */
  lemma PullTakesOne(cfg: Config, s: State, st: Step, queue: string, asked: Time)
    requires Enabled(cfg, s, st) && st.Pull? && st.choice.Some?
    requires st.asked <= asked < st.at + cfg.delay
    ensures PullableIds(cfg, Apply(cfg, s, st).rows, queue, asked)
            == PullableIds(cfg, s.rows, queue, asked) - {st.choice.value}
    ensures st.choice.value in PullableIds(cfg, s.rows, queue, asked) <==> queue == st.queue
  {
  }

  lemma IdleKeepsRows(cfg: Config, s: State, st: Step)
    requires st.Tick? || (st.Pull? && st.choice.None?)
    ensures Apply(cfg, s, st).rows == s.rows
  {
  }

  /** One successful pull lowers its queue's length by exactly one, and leaves the other lengths alone. */
  lemma PullLowersLength(cfg: Config, s: State, st: Step, queue: string, asked: Time)
    requires Enabled(cfg, s, st) && st.Pull? && st.choice.Some?
    requires st.asked <= asked < st.at + cfg.delay
    ensures QueueLength(cfg, Apply(cfg, s, st).rows, queue, asked)
            == QueueLength(cfg, s.rows, queue, asked) - (if queue == st.queue then 1 else 0)
  {
    PullTakesOne(cfg, s, st, queue, asked);
  }

  /** Conservation: judged at any one moment of the window, the rows available at the start are those
      handed out and those still available.  (Other leases may expire before that moment.) */
  lemma {:induction false} PullsTakeFromTheQueue(cfg: Config, s: State, r: Run, queue: string, asked: Time)
    requires ValidConfig(cfg) && Invariant(cfg, s) && ShortRun(cfg, s, r) && OnlyPulls(r)
    requires After(cfg, s, r).now <= asked < s.now + cfg.delay
    ensures var out, start := Elements(HandedOut(r, queue)), PullableIds(cfg, s.rows, queue, asked);
            out <= start && PullableIds(cfg, After(cfg, s, r).rows, queue, asked) == start - out
  {
    if r.Then? {
      PullsTakeFromTheQueue(cfg, s, r.before, queue, asked);
      InTurnIsLegal(cfg, s, r.before);
      var s1 := After(cfg, s, r.before);
      if r.step.Pull? && r.step.choice.Some? {
        PullTakesOne(cfg, s1, r.step, queue, asked);
        HandedOutNext(r, queue);
        TakeOne(Elements(HandedOut(r.before, queue)), PullableIds(cfg, s.rows, queue, asked),
                r.step.choice.value, r.step.queue == queue);
      } else {
        IdleKeepsRows(cfg, s1, r.step);
      }
    }
  }

  lemma TakeOne(out: set<Id>, start: set<Id>, id: Id, taken: bool)
    requires out <= start && (id in start - out <==> taken)
    ensures var out' := out + (if taken then {id} else {});
            out' <= start && start - out - {id} == start - out'
  {
  }

  lemma HandedOutNext(r: Run, queue: string)
    requires r.Then? && r.step.Pull? && r.step.choice.Some?
    ensures Elements(HandedOut(r, queue))
            == Elements(HandedOut(r.before, queue))
               + (if r.step.queue == queue then {r.step.choice.value} else {})
  {
  }

  /** Drain agrees with the count: pulls handed out, plus the queue length now, is the queue length at
      the start judged at the same moment; an empty queue means every available row was handed out. */
  lemma DrainAgreesWithCount(cfg: Config, s: State, r: Run, queue: string, asked: Time)
    requires ValidConfig(cfg) && Invariant(cfg, s) && ShortRun(cfg, s, r) && OnlyPulls(r)
    requires After(cfg, s, r).now <= asked < s.now + cfg.delay
    ensures |HandedOut(r, queue)| + QueueLength(cfg, After(cfg, s, r).rows, queue, asked)
            == QueueLength(cfg, s.rows, queue, asked)
    ensures QueueLength(cfg, After(cfg, s, r).rows, queue, asked) == 0 ==>
              multiset(HandedOut(r, queue)) == multiset(PullableIds(cfg, s.rows, queue, asked))
  {
    var ids := HandedOut(r, queue);
    PullsTakeFromTheQueue(cfg, s, r, queue, asked);
    NoDoubleHandout(cfg, s, r, queue);
    DistinctElements(ids);
    Partition(Elements(ids), PullableIds(cfg, s.rows, queue, asked),
              PullableIds(cfg, After(cfg, s, r).rows, queue, asked));
  }

  /** No lease of an unretired row of the queue runs out between two moments. */
  ghost predicate NoLeaseExpires(cfg: Config, rows: Table, queue: string, from: Time, to: Time) {
    PullableIds(cfg, rows, queue, to) <= PullableIds(cfg, rows, queue, from)
  }

  lemma LaterAvailable(cfg: Config, rows: Table, queue: string, from: Time, to: Time)
    requires from <= to
    ensures PullableIds(cfg, rows, queue, from) <= PullableIds(cfg, rows, queue, to)
  {
  }

  /** If no old lease runs out during the window, the answer "empty" comes exactly when the number of
      rows handed out is the queue length reported at the start. */
  lemma EmptyWhenDrained(cfg: Config, s: State, r: Run, queue: string)
    requires ValidConfig(cfg) && Invariant(cfg, s) && ShortRun(cfg, s, r) && OnlyPulls(r)
    requires NoLeaseExpires(cfg, s.rows, queue, s.now, After(cfg, s, r).now)
    requires r.Then? && r.step.Pull? && r.step.queue == queue
    ensures r.step.choice.None? <==> |HandedOut(r.before, queue)| == QueueLength(cfg, s.rows, queue, s.now)
  {
    var asked := r.step.asked;
    InTurnIsLegal(cfg, s, r.before);
    LaterAvailable(cfg, s.rows, queue, s.now, asked);
    LaterAvailable(cfg, s.rows, queue, asked, After(cfg, s, r).now);
    assert PullableIds(cfg, s.rows, queue, asked) == PullableIds(cfg, s.rows, queue, s.now);
    DrainAgreesWithCount(cfg, s, r.before, queue, asked);
  }

  /** And the rows are handed out in order of arrival. */
  lemma {:induction false} DrainInOrder(cfg: Config, s: State, r: Run, queue: string, i: nat, j: nat)
    requires ValidConfig(cfg) && Invariant(cfg, s) && ShortRun(cfg, s, r) && OnlyPulls(r)
    requires NoLeaseExpires(cfg, s.rows, queue, s.now, After(cfg, s, r).now)
    requires i < j < |HandedOut(r, queue)|
    ensures var ids := HandedOut(r, queue);
            ids[i] in s.rows && ids[j] in s.rows && s.rows[ids[i]].arrival <= s.rows[ids[j]].arrival
  {
    HandedOutGrows(r, queue);
    if j < |HandedOut(r.before, queue)| {
      ShorterWindow(cfg, s, r, queue);
      DrainInOrder(cfg, s, r.before, queue, i, j);
    } else {
      NextInOrder(cfg, s, r, queue, HandedOut(r, queue)[i]);
    }
  }

  lemma HandedOutGrows(r: Run, queue: string)
    ensures r.Then? ==> HandedOut(r.before, queue) <= HandedOut(r, queue)
    ensures r.Then? && |HandedOut(r, queue)| > |HandedOut(r.before, queue)| ==>
              r.step.Pull? && r.step.queue == queue && r.step.choice.Some?
              && HandedOut(r, queue) == HandedOut(r.before, queue) + [r.step.choice.value]
  {
  }

  lemma ShorterWindow(cfg: Config, s: State, r: Run, queue: string)
    requires LegalInTurn(cfg, s, r) && r.Then?
    requires NoLeaseExpires(cfg, s.rows, queue, s.now, After(cfg, s, r).now)
    ensures NoLeaseExpires(cfg, s.rows, queue, s.now, After(cfg, s, r.before).now)
  {
    LaterAvailable(cfg, s.rows, queue, After(cfg, s, r.before).now, After(cfg, s, r).now);
  }

  lemma NextInOrder(cfg: Config, s: State, r: Run, queue: string, id: Id)
    requires ValidConfig(cfg) && Invariant(cfg, s) && ShortRun(cfg, s, r) && OnlyPulls(r)
    requires NoLeaseExpires(cfg, s.rows, queue, s.now, After(cfg, s, r).now)
    requires r.Then? && r.step.Pull? && r.step.queue == queue && r.step.choice.Some?
    requires HandedOut(r, queue) == HandedOut(r.before, queue) + [r.step.choice.value]
    requires id in HandedOut(r.before, queue)
    ensures id in s.rows && r.step.choice.value in s.rows
            && s.rows[id].arrival <= s.rows[r.step.choice.value].arrival
  {
    var next := r.step.choice.value;
    HandedOutWasAvailable(cfg, s, r, queue, next);
    NoDoubleHandout(cfg, s, r, queue);
    LastIsNew(HandedOut(r.before, queue), next);
    NotEarlier(cfg, s, r.before, queue, next, id);
  }

  lemma LastIsNew(ids: seq<Id>, id: Id)
    requires Distinct(ids + [id])
    ensures id !in ids
  {
    assert (ids + [id])[|ids|] == id;
    assert forall i | 0 <= i < |ids| :: (ids + [id])[i] == ids[i];
  }

  /** Without expiring leases, what is handed out was available at the start. */
  lemma HandedOutWasAvailable(cfg: Config, s: State, r: Run, queue: string, id: Id)
    requires ValidConfig(cfg) && Invariant(cfg, s) && ShortRun(cfg, s, r) && OnlyPulls(r)
    requires NoLeaseExpires(cfg, s.rows, queue, s.now, After(cfg, s, r).now)
    requires id in HandedOut(r, queue)
    ensures id in PullableIds(cfg, s.rows, queue, s.now)
  {
    PullsTakeFromTheQueue(cfg, s, r, queue, After(cfg, s, r).now);
    assert id in Elements(HandedOut(r, queue));
  }

  /** A row available from the start and not yet handed out arrived no earlier than those that were. */
  lemma {:induction false} NotEarlier(cfg: Config, s: State, r: Run, queue: string, next: Id, id: Id)
    requires ValidConfig(cfg) && Invariant(cfg, s) && ShortRun(cfg, s, r) && OnlyPulls(r)
    requires next in PullableIds(cfg, s.rows, queue, s.now) && next !in HandedOut(r, queue)
    requires id in HandedOut(r, queue)
    ensures id in s.rows && s.rows[id].arrival <= s.rows[next].arrival
  {
    if id in HandedOut(r.before, queue) {
      NotEarlier(cfg, s, r.before, queue, next, id);
    } else {
      var s1, asked := After(cfg, s, r.before), r.step.asked;
      InTurnIsLegal(cfg, s, r.before);
      LaterAvailable(cfg, s.rows, queue, s.now, asked);
      PullsTakeFromTheQueue(cfg, s, r.before, queue, asked);
      assert next in PullableIds(cfg, s1.rows, queue, asked) && id in PullableIds(cfg, s1.rows, queue, asked);
      RowKeepsIdentity(cfg, s, r.before, id);
      RowKeepsIdentity(cfg, s, r.before, next);
    }
  }
}
