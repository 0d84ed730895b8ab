// The submission table (submission_queue/models.py): one row per submission,
// and the manager's queries as filters over the table.
module Submissions {
  import opened Collections
  import opened Timestamps

  const CHARFIELD_LEN_SMALL := 128
  const CHARFIELD_LEN_LARGE := 1024

  type Id = nat

  datatype Row = Row(
    requesterId: string, callbackUrl: string, queue: string, header: string, body: string,
    keys: string, urls: string, arrival: Time,
    pullTime: Option<Time>, pushTime: Option<Time>, returnTime: Option<Time>,
    graderId: string, pullkey: string, graderReply: string,
    failures: nat, lmsAck: bool, retired: bool)

  type Table = map<Id, Row>

  /** The columns a handler never writes. */
  predicate SameSubmission(a: Row, b: Row) {
    a.requesterId == b.requesterId && a.callbackUrl == b.callbackUrl && a.queue == b.queue
    && a.header == b.header && a.body == b.body && a.keys == b.keys && a.urls == b.urls && a.arrival == b.arrival
  }

  /** Deployment settings.  `delay` is SUBMISSION_PROCESSING_DELAY in clock units; `queues` is
      XQUEUES, where a push queue has the URL of its grader; `hash` stands for MD5 in hex. */
  datatype Config = Config(queues: map<string, Option<string>>, delay: nat, maxFailures: nat, hash: string -> string)

  ghost predicate ValidConfig(cfg: Config) {
    forall seed: string :: cfg.hash(seed) != ""
  }

  /** What the callback column holds: the first 128 characters. */
  function CallbackKey(url: string): string {
    if |url| <= CHARFIELD_LEN_SMALL then url else url[..CHARFIELD_LEN_SMALL]
  }

  /** time_filter: never handed out, or handed out at least `delay` before the query. */
  predicate LeaseOver(cfg: Config, last: Option<Time>, asked: Time) {
    last.None? || last.value <= asked - cfg.delay
  }

  predicate Pullable(cfg: Config, row: Row, queue: string, asked: Time) {
    LeaseOver(cfg, row.pullTime, asked) && row.queue == queue && !row.retired
  }

  predicate Pushable(cfg: Config, row: Row, queue: string, asked: Time) {
    LeaseOver(cfg, row.pushTime, asked) && row.queue == queue && !row.retired
  }

  function PullableIds(cfg: Config, rows: Table, queue: string, asked: Time): set<Id> {
    set id | id in rows && Pullable(cfg, rows[id], queue, asked)
  }

  function PushableIds(cfg: Config, rows: Table, queue: string, asked: Time): set<Id> {
    set id | id in rows && Pushable(cfg, rows[id], queue, asked)
  }

  function QueueLength(cfg: Config, rows: Table, queue: string, asked: Time): nat {
    |PullableIds(cfg, rows, queue, asked)|
  }

  /** order_by('arrival_time').first(): a row no other candidate arrived before; ties go any way. */
  predicate IsFirst(rows: Table, candidates: set<Id>, id: Id) {
    id in rows && id in candidates
    && forall other | other in candidates && other in rows :: rows[id].arrival <= rows[other].arrival
  }

  lemma {:induction false} FirstExists(rows: Table, candidates: set<Id>)
    requires candidates != {} && candidates <= rows.Keys
    ensures exists id :: IsFirst(rows, candidates, id)
  {
    var x :| x in candidates;
    if candidates == {x} {
      assert IsFirst(rows, candidates, x);
    } else {
      FirstExists(rows, candidates - {x});
      var y :| IsFirst(rows, candidates - {x}, y);
      var least := if rows[x].arrival <= rows[y].arrival then x else y;
      assert IsFirst(rows, candidates, least);
    }
  }

  /** lookup of the row to hand out: None when the queue is empty */
  predicate IsQueryResult(rows: Table, candidates: set<Id>, choice: Option<Id>) {
    match choice
    case None => candidates == {}
    case Some(id) => IsFirst(rows, candidates, id)
  }
}
