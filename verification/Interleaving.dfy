// Handlers that overlap.  get_submission, the push worker and the retire
// commands read a row, do their work, and later save every column of the copy
// they read; submit invalidates and inserts in separate transactions.  Between
// the two halves anything may happen, so a save can overwrite newer columns.
// put_result is one act: it holds the row's lock from reading to saving.
module Interleaving {
  import opened Collections
  import opened Timestamps
  import opened Submissions
  import opened Reporting
  import opened Lifecycle
  import opened Reopening

  /** A handler in progress: the row it read, and when it asked for it. */
  datatype Pending = Pending(id: Id, row: Row, asked: Time)

  datatype SharedState = SharedState(rows: Table, nextId: Id, now: Time, log: seq<Post>, pending: map<nat, Pending>)

  datatype Act =
    | Begin(pid: nat, id: Id, asked: Time)
    | Finish(pid: nat, step: Step)
    | Abandon(pid: nat)
    | Invalidate(callback: string)
    | Insert(step: Step)
    | Locked(step: Step)
    | Remove(ids: set<Id>)
    | Wait(at: Time)

  const SHARED_INIT := SharedState(map[], 1, 0, [], map[])

  /** The handler halves may run at any time; a save is one its handler makes of the row it read.
      Saving a row that was deleted meanwhile inserts it again. */
  predicate CanAct(cfg: Config, s: SharedState, a: Act) {
    match a
    case Begin(pid, id, _) => pid !in s.pending && id in s.rows
    case Finish(pid, st) =>
      pid in s.pending && !st.PutResult? && Target(st) == Some(s.pending[pid].id)
      && Guard(cfg, st, s.pending[pid].row)
      && (st.Pull? ==> st.queue in cfg.queues && st.asked == s.pending[pid].asked)
      && (st.Deliver? ==> st.asked == s.pending[pid].asked)
    case Insert(st) => st.Submit? && st.queue in cfg.queues
    case Locked(st) => st.PutResult?
    case _ => true
  }

  function Perform(cfg: Config, s: SharedState, a: Act): SharedState {
    if !CanAct(cfg, s, a) then s else
    match a
    case Begin(pid, id, asked) =>
      s.(pending := s.pending[pid := Pending(id, s.rows[id], asked)], now := Later(s.now, asked))
    case Finish(pid, st) =>
      var p := s.pending[pid];
      s.(rows := s.rows[p.id := Saved(cfg, st, p.id, p.row)], log := s.log + RowPosts(st, p.row),
         now := Later(s.now, EndTime(st, s.now)), pending := s.pending - {pid})
    case Abandon(pid) => s.(pending := s.pending - {pid})
    case Invalidate(callback) => s.(rows := RowsAfter(cfg, s.rows, SubmitAborted(callback)))
    case Insert(st) => s.(rows := s.rows[s.nextId := NewRow(st)], nextId := s.nextId + 1, now := Later(s.now, st.at))
    case Locked(st) =>
      var s' := s.(now := Later(s.now, st.at));
      if st.id in s.rows
      then s'.(rows := s.rows[st.id := Saved(cfg, st, st.id, s.rows[st.id])],
               log := s.log + RowPosts(st, s.rows[st.id]))
      else s'
    case Remove(ids) => s.(rows := s.rows - ids)
    case Wait(at) => s.(now := Later(s.now, at))
  }

  datatype Schedule = Idle | Next(before: Schedule, act: Act)

  function Shared(cfg: Config, r: Schedule): SharedState {
    match r
    case Idle => SHARED_INIT
    case Next(before, a) => Perform(cfg, Shared(cfg, before), a)
  }

  ghost predicate Possible(cfg: Config, r: Schedule) {
    match r
    case Idle => true
    case Next(before, a) => Possible(cfg, before) && CanAct(cfg, Shared(cfg, before), a)
  }

  // ----------------------------------------------------- what every interleaving keeps

  /** A row's key is the one that goes with its pull time. */
  predicate KeyOk(cfg: Config, id: Id, row: Row) {
    row.pullTime.Some? ==> row.pullkey == cfg.hash(Seed(row.pullTime.value, id))
  }

  ghost predicate SharedOk(cfg: Config, s: SharedState) {
    && (forall id | id in s.rows :: RowOk(cfg, s.rows[id]) && KeyOk(cfg, id, s.rows[id]))
    && (forall pid | pid in s.pending ::
          RowOk(cfg, s.pending[pid].row) && KeyOk(cfg, s.pending[pid].id, s.pending[pid].row))
  }

  lemma SavedKeyOk(cfg: Config, st: Step, id: Id, row: Row)
    requires KeyOk(cfg, id, row)
    ensures KeyOk(cfg, id, Saved(cfg, st, id, row))
  {
  }

  lemma SharedRowStep(cfg: Config, s: SharedState, a: Act, id: Id)
    requires ValidConfig(cfg) && SharedOk(cfg, s) && CanAct(cfg, s, a) && id in Perform(cfg, s, a).rows
    ensures RowOk(cfg, Perform(cfg, s, a).rows[id]) && KeyOk(cfg, id, Perform(cfg, s, a).rows[id])
  {
    match a
    case Finish(pid, st) =>
      SavedOk(cfg, st, s.pending[pid].id, s.pending[pid].row);
      SavedKeyOk(cfg, st, s.pending[pid].id, s.pending[pid].row);
    case Locked(st) =>
      if st.id in s.rows {
        SavedOk(cfg, st, st.id, s.rows[st.id]);
        SavedKeyOk(cfg, st, st.id, s.rows[st.id]);
      }
    case _ =>
  }

  lemma SharedOkStep(cfg: Config, s: SharedState, a: Act)
    requires ValidConfig(cfg) && SharedOk(cfg, s) && CanAct(cfg, s, a)
    ensures SharedOk(cfg, Perform(cfg, s, a))
  {
    forall id | id in Perform(cfg, s, a).rows
      ensures RowOk(cfg, Perform(cfg, s, a).rows[id]) && KeyOk(cfg, id, Perform(cfg, s, a).rows[id])
    {
      SharedRowStep(cfg, s, a, id);
    }
  }

  /** Under every interleaving, however stale the saves, every row of the table and every copy in flight
      keeps the row invariant. */
  lemma {:induction false} EveryInterleavingKeepsRowsOk(cfg: Config, r: Schedule)
    requires ValidConfig(cfg) && Possible(cfg, r)
    ensures SharedOk(cfg, Shared(cfg, r))
  {
    if r.Next? {
      EveryInterleavingKeepsRowsOk(cfg, r.before);
      SharedOkStep(cfg, Shared(cfg, r.before), r.act);
    }
  }

  /** So even then put_result accepts, of any key ever issued, exactly the one issued to this row at the
      pull time the table shows (as long as that key's seed does not collide with the row's own). */
  lemma FencingUnderInterleaving(cfg: Config, r: Schedule, id: Id, e: (Id, Time))
    requires ValidConfig(cfg) && Possible(cfg, r) && id in Shared(cfg, r).rows
    requires var last := Shared(cfg, r).rows[id].pullTime;
             last.Some? && cfg.hash(Seed(e.1, e.0)) == cfg.hash(Seed(last.value, id))
             ==> Seed(e.1, e.0) == Seed(last.value, id)
    ensures Accepts(Shared(cfg, r).rows[id], cfg.hash(Seed(e.1, e.0)))
            <==> e.0 == id && Shared(cfg, r).rows[id].pullTime == Some(e.1)
  {
    EveryInterleavingKeepsRowsOk(cfg, r);
    var last := Shared(cfg, r).rows[id].pullTime;
    if last.Some? && Seed(e.1, e.0) == Seed(last.value, id) {
      SeedInjective(e.1, e.0, last.value, id);
    }
  }

  /** The submission that got this id. */
  function SharedSubmission(cfg: Config, r: Schedule, id: Id): (submit: Option<Step>)
    ensures submit.Some? ==> submit.value.Submit?
  {
    match r
    case Idle => None
    case Next(before, a) =>
      if a.Insert? && CanAct(cfg, Shared(cfg, before), a) && Shared(cfg, before).nextId == id
      then Some(a.step) else SharedSubmission(cfg, before, id)
  }

  ghost predicate IsCopyOf(cfg: Config, r: Schedule, id: Id, row: Row) {
    SharedSubmission(cfg, r, id).Some? && IsSubmissionOf(row, SharedSubmission(cfg, r, id).value)
  }

  lemma {:induction false} OriginIsFixed(cfg: Config, r: Schedule, id: Id)
    ensures id >= Shared(cfg, r).nextId ==> SharedSubmission(cfg, r, id).None?
    ensures r.Next? && SharedSubmission(cfg, r.before, id).Some? ==>
              SharedSubmission(cfg, r, id) == SharedSubmission(cfg, r.before, id)
  {
    if r.Next? { OriginIsFixed(cfg, r.before, id); }
  }

  /** Stale saves, and saves of deleted rows, never mix submissions up: every row has the identity, payload
      and arrival time submitted under its id. */
  lemma {:induction false} EveryInterleavingKeepsIdentity(cfg: Config, r: Schedule, id: Id)
    requires id in Shared(cfg, r).rows
    ensures IsCopyOf(cfg, r, id, Shared(cfg, r).rows[id])
    decreases r, 1
  {
    var s, a := Shared(cfg, r.before), r.act;
    OriginIsFixed(cfg, r, id);
    if id in s.rows { EveryInterleavingKeepsIdentity(cfg, r.before, id); }
    if CanAct(cfg, s, a) {
      match a
      case Finish(pid, st) =>
        CopiesKeepIdentity(cfg, r.before, pid);
        SavedKeepsIdentity(cfg, st, s.pending[pid].id, s.pending[pid].row);
      case Locked(st) => if st.id in s.rows { SavedKeepsIdentity(cfg, st, st.id, s.rows[st.id]); }
      case Invalidate(callback) => StepKeepsIdentity(cfg, SubmitAborted(callback), id, s.rows[id]);
      case _ =>
    }
  }

  /** And so has every copy in flight. */
  lemma {:induction false} CopiesKeepIdentity(cfg: Config, r: Schedule, pid: nat)
    requires pid in Shared(cfg, r).pending
    ensures IsCopyOf(cfg, r, Shared(cfg, r).pending[pid].id, Shared(cfg, r).pending[pid].row)
    decreases r, 0
  {
    var s := Shared(cfg, r.before);
    OriginIsFixed(cfg, r, Shared(cfg, r).pending[pid].id);
    if pid in s.pending {
      CopiesKeepIdentity(cfg, r.before, pid);
    } else {
      EveryInterleavingKeepsIdentity(cfg, r.before, r.act.id);
    }
  }

  /** The row that an act's handler read, when the act reports to the LMS. */
  function RowRead(cfg: Config, s: SharedState, a: Act): Option<(Id, Row)> {
    if !CanAct(cfg, s, a) then None
    else if a.Finish? then Some((s.pending[a.pid].id, s.pending[a.pid].row))
    else if a.Locked? && a.step.id in s.rows then Some((a.step.id, s.rows[a.step.id]))
    else None
  }

  /** Some act of the schedule makes the post for a row inserted before: it carries that submission's header,
      and says what the handler has to say of the row it read. */
  ghost predicate SharedExplained(cfg: Config, r: Schedule, post: Post) {
    match r
    case Idle => false
    case Next(before, a) =>
      SharedExplained(cfg, before, post)
      || match RowRead(cfg, Shared(cfg, before), a)
         case None => false
         case Some((id, row)) =>
           SharedSubmission(cfg, before, id).Some? && post.header == SharedSubmission(cfg, before, id).value.header
           && Says(a.step, row, post.body)
  }

  /** No cross-talk under any interleaving: every post carries the header of a submission made before, and its
      body is a result accepted for that row, its push grader's reply, or the fixed message. */
  lemma {:induction false} EverySharedPostIsExplained(cfg: Config, r: Schedule, post: Post)
    requires post in Shared(cfg, r).log
    ensures SharedExplained(cfg, r, post)
  {
    var s, a := Shared(cfg, r.before), r.act;
    if post in s.log {
      EverySharedPostIsExplained(cfg, r.before, post);
    } else if a.Finish? {
      RowPostsSay(a.step, s.pending[a.pid].row, post);
      CopiesKeepIdentity(cfg, r.before, a.pid);
    } else {
      RowPostsSay(a.step, s.rows[a.step.id], post);
      EveryInterleavingKeepsIdentity(cfg, r.before, a.step.id);
    }
  }

  // -------------------------------------------- saves that are not stale are atomic steps

  /** The row is as the handler read it; and no other row with the key came in since an invalidation. */
  ghost predicate UpToDate(s: SharedState, a: Act) {
    match a
    case Finish(pid, _) =>
      pid in s.pending && s.pending[pid].id in s.rows && s.rows[s.pending[pid].id] == s.pending[pid].row
    case Insert(st) => st.Submit? && Live(s.rows, CallbackKey(st.callback)) == {}
    case _ => true
  }

  ghost predicate NeverStale(cfg: Config, r: Schedule) {
    match r
    case Idle => true
    case Next(before, a) => NeverStale(cfg, before) && UpToDate(Shared(cfg, before), a)
  }

  /** The run of whole handlers, each at the moment of its save. */
  function Linearised(r: Schedule): Run {
    match r
    case Idle => Start
    case Next(before, a) =>
      match a
      case Begin(_, _, asked) => Then(Linearised(before), Tick(asked))
      case Finish(_, st) => Then(Linearised(before), st)
      case Abandon(_) => Linearised(before)
      case Invalidate(callback) => Then(Linearised(before), SubmitAborted(callback))
      case Insert(st) => Then(Linearised(before), st)
      case Locked(st) => Then(Linearised(before), st)
      case Remove(ids) => Then(Linearised(before), Delete(ids))
      case Wait(at) => Then(Linearised(before), Tick(at))
  }

  ghost predicate Matches(s: SharedState, t: State) {
    s.rows == t.rows && s.nextId == t.nextId && s.now == t.now && s.log == t.log
  }

  lemma SaveIsAtomicStep(cfg: Config, s: SharedState, t: State, pid: nat, st: Step)
    requires Matches(s, t) && CanAct(cfg, s, Finish(pid, st)) && UpToDate(s, Finish(pid, st))
    ensures Enabled(cfg, t, st) && Matches(Perform(cfg, s, Finish(pid, st)), Apply(cfg, t, st))
  {
    var id := s.pending[pid].id;
    assert Apply(cfg, t, st).rows == t.rows[id := Saved(cfg, st, id, t.rows[id])];
  }

  lemma LockedIsAtomicStep(cfg: Config, s: SharedState, t: State, st: Step)
    requires Matches(s, t) && st.PutResult?
    ensures Enabled(cfg, t, st) && Matches(Perform(cfg, s, Locked(st)), Apply(cfg, t, st))
  {
    if st.id in s.rows {
      assert Apply(cfg, t, st).rows == t.rows[st.id := Saved(cfg, st, st.id, t.rows[st.id])];
    } else {
      assert Apply(cfg, t, st).rows == t.rows;
    }
  }

  lemma InsertIsAtomicStep(cfg: Config, s: SharedState, t: State, st: Step)
    requires Matches(s, t) && CanAct(cfg, s, Insert(st)) && UpToDate(s, Insert(st))
    ensures Enabled(cfg, t, st) && Matches(Perform(cfg, s, Insert(st)), Apply(cfg, t, st))
  {
    forall id | id in t.rows ensures RowAfter(cfg, st, id, t.rows[id]) == t.rows[id] {
      assert id !in Live(s.rows, CallbackKey(st.callback));
    }
    assert RowsAfter(cfg, t.rows, st) == t.rows;
  }

  lemma OtherIsAtomicStep(cfg: Config, s: SharedState, t: State, a: Act)
    requires Matches(s, t) && CanAct(cfg, s, a)
    requires a.Begin? || a.Invalidate? || a.Remove? || a.Wait?
    ensures var st := Linearised(Next(Idle, a)).step;
            Enabled(cfg, t, st) && Matches(Perform(cfg, s, a), Apply(cfg, t, st))
  {
    var st := Linearised(Next(Idle, a)).step;
    match a
    case Remove(ids) => assert RowsAfter(cfg, t.rows, st) == t.rows - ids;
    case Begin(_, _, _) => assert RowsAfter(cfg, t.rows, st) == t.rows;
    case Wait(_) => assert RowsAfter(cfg, t.rows, st) == t.rows;
    case _ =>
  }

  /** Refinement: if no save is stale, the interleaved handlers do what some run of whole handlers does,
      to the table, the clock and the log. */
  lemma {:induction false} UpToDateSavesAreAtomic(cfg: Config, r: Schedule)
    requires Possible(cfg, r) && NeverStale(cfg, r)
    ensures Legal(cfg, INIT, Linearised(r))
    ensures Matches(Shared(cfg, r), After(cfg, INIT, Linearised(r)))
  {
    if r.Next? {
      UpToDateSavesAreAtomic(cfg, r.before);
      var s, t := Shared(cfg, r.before), After(cfg, INIT, Linearised(r.before));
      match r.act
      case Finish(pid, st) => SaveIsAtomicStep(cfg, s, t, pid, st);
      case Locked(st) => LockedIsAtomicStep(cfg, s, t, st);
      case Insert(st) => InsertIsAtomicStep(cfg, s, t, st);
      case Abandon(_) =>
      case _ => OtherIsAtomicStep(cfg, s, t, r.act);
    }
  }

  // ------------------------------------------------------- and whole handlers are schedules

  /** A whole handler as the acts of a schedule, with nothing in between. */
  function StepAsActs(r: Schedule, st: Step, now: Time): Schedule {
    match st
    case Submit(_, _, callback, _, _, _, _, _) => Next(Next(r, Invalidate(callback)), Insert(st))
    case SubmitAborted(callback) => Next(r, Invalidate(callback))
    case Pull(_, _, asked, at, None) => Next(r, Wait(at))
    case Pull(_, _, asked, _, Some(id)) => Next(Next(r, Begin(0, id, asked)), Finish(0, st))
    case PutResult(_, _, _, _, _) => Next(r, Locked(st))
    case Deliver(id, _, asked, _, _, _, _) => Next(Next(r, Begin(0, id, asked)), Finish(0, st))
    case RetireFailed(id, _, _) => Next(Next(r, Begin(0, id, now)), Finish(0, st))
    case RetireOld(id, _) => Next(Next(r, Begin(0, id, now)), Finish(0, st))
    case Delete(ids) => Next(r, Remove(ids))
    case Tick(at) => Next(r, Wait(at))
  }

  function AsSchedule(cfg: Config, r: Run): Schedule {
    match r
    case Start => Idle
    case Then(before, st) => StepAsActs(AsSchedule(cfg, before), st, After(cfg, INIT, before).now)
  }

  lemma SubmitAsActs(cfg: Config, s: SharedState, t: State, st: Step)
    requires Matches(s, t) && st.Submit? && Enabled(cfg, t, st)
    ensures var s1 := Perform(cfg, s, Invalidate(st.callback));
            && CanAct(cfg, s, Invalidate(st.callback)) && CanAct(cfg, s1, Insert(st))
            && Matches(Perform(cfg, s1, Insert(st)), Apply(cfg, t, st))
            && Perform(cfg, s1, Insert(st)).pending == s.pending
  {
    assert RowsAfter(cfg, t.rows, st) == RowsAfter(cfg, t.rows, SubmitAborted(st.callback));
  }

  lemma SaveAsActs(cfg: Config, s: SharedState, t: State, st: Step, id: Id, asked: Time)
    requires Matches(s, t) && s.pending == map[] && Enabled(cfg, t, st) && Target(st) == Some(id) && !st.PutResult?
    requires asked == if st.Pull? || st.Deliver? then st.asked else t.now
    ensures var s1 := Perform(cfg, s, Begin(0, id, asked));
            && CanAct(cfg, s, Begin(0, id, asked)) && CanAct(cfg, s1, Finish(0, st))
            && Matches(Perform(cfg, s1, Finish(0, st)), Apply(cfg, t, st))
            && Perform(cfg, s1, Finish(0, st)).pending == map[]
  {
    var s1 := Perform(cfg, s, Begin(0, id, asked));
    assert s1.pending == map[0 := Pending(id, s.rows[id], asked)];
    assert Apply(cfg, t, st).rows == t.rows[id := Saved(cfg, st, id, t.rows[id])];
  }

  /** Every run of whole handlers is a possible schedule: overlapping adds behaviour and takes none away. */
  lemma {:induction false} RunsAreSchedules(cfg: Config, r: Run)
    requires Legal(cfg, INIT, r)
    ensures var q := AsSchedule(cfg, r);
            Possible(cfg, q) && Matches(Shared(cfg, q), After(cfg, INIT, r)) && Shared(cfg, q).pending == map[]
  {
    if r.Then? {
      RunsAreSchedules(cfg, r.before);
      var s, t, st := Shared(cfg, AsSchedule(cfg, r.before)), After(cfg, INIT, r.before), r.step;
      if st.Submit? {
        SubmitAsActs(cfg, s, t, st);
      } else if st.PutResult? {
        LockedIsAtomicStep(cfg, s, t, st);
      } else if Target(st).Some? {
        SaveAsActs(cfg, s, t, st, Target(st).value, if st.Pull? || st.Deliver? then st.asked else t.now);
      } else {
        OneActIsStep(cfg, s, t, st);
      }
    }
  }

  lemma OneActIsStep(cfg: Config, s: SharedState, t: State, st: Step)
    requires Matches(s, t) && Enabled(cfg, t, st) && Target(st).None? && !st.Submit?
    ensures var a := StepAsActs(Idle, st, t.now).act;
            CanAct(cfg, s, a) && Matches(Perform(cfg, s, a), Apply(cfg, t, st))
            && Perform(cfg, s, a).pending == s.pending
  {
    if st.Delete? {
      assert RowsAfter(cfg, t.rows, st) == t.rows - st.ids;
    } else if st.Pull? || st.Tick? {
      assert RowsAfter(cfg, t.rows, st) == t.rows;
    }
  }

  /** Whether a handler can save depends on its copy alone, not on what became of the table meanwhile. */
  lemma SavesNeedOnlyTheirCopy(cfg: Config, s: SharedState, later: SharedState, pid: nat, st: Step)
    requires pid in s.pending && pid in later.pending && s.pending[pid] == later.pending[pid]
    ensures CanAct(cfg, s, Finish(pid, st)) <==> CanAct(cfg, later, Finish(pid, st))
  {
  }
}
