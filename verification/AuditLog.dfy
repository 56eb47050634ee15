// packages/audit/writer.py and the verify endpoint of apps/identity_api/api/audit.py:
// rows in an unordered table, found again by their timestamps.
module AuditLog {
  import opened Text
  import opened Json
  import opened HashChain

  datatype Row = Row(
    eventType: string,
    timestamp: int,
    data: Dict,
    previousHash: Option<string>,
    recordHash: string)

  function ToEvent(row: Row): Event {
    Event(row.data, Present(row.previousHash), row.recordHash)
  }

  function Events(rows: seq<Row>): (r: seq<Event>)
    ensures |r| == |rows|
  {
    seq(|rows|, i requires 0 <= i < |rows| => ToEvent(rows[i]))
  }

  // The data with the event type and the time of writing added, or replaced.
  function Payload(data: Dict, eventType: string, stamp: string): Dict {
    Update(data, [Member("event_type", Str(eventType)), Member("timestamp", Str(stamp))])
  }

  // The event type and the time stand under their own keys; everything else is
  // as it was given.
  ghost predicate Stamps(stored: Dict, data: Dict, eventType: string, stamp: string) {
    && Get(stored, "event_type") == Some(Str(eventType))
    && Get(stored, "timestamp") == Some(Str(stamp))
    && forall key :: key != "event_type" && key != "timestamp" ==> Get(stored, key) == Get(data, key)
  }

  lemma PayloadStamps(data: Dict, eventType: string, stamp: string)
    ensures Stamps(Payload(data, eventType, stamp), data, eventType, stamp)
  {
    var added := [Member("event_type", Str(eventType)), Member("timestamp", Str(stamp))];
    FindUnique(added, "event_type", 0);
    FindUnique(added, "timestamp", 1);
    UpdateGet(data, added, "event_type");
    UpdateGet(data, added, "timestamp");
    forall key | key != "event_type" && key != "timestamp"
      ensures Get(Payload(data, eventType, stamp), key) == Get(data, key)
    {
      UpdateGet(data, added, key);
      assert !Has(added, key);
    }
  }

  // ---- the head lookup ----

  predicate Latest(rows: set<Row>, row: Row) {
    row in rows && forall r | r in rows :: r.timestamp <= row.timestamp
  }

  // The row with the latest timestamp: among equals the database may pick any.
  ghost predicate IsHead(rows: set<Row>, prev: Option<string>) {
    if rows == {} then prev.None? else exists row :: Latest(rows, row) && prev == Some(row.recordHash)
  }

  lemma {:induction false} LatestExists(rows: set<Row>)
    requires rows != {}
    ensures exists row :: Latest(rows, row)
  {
    var some :| some in rows;
    if rows != {some} {
      LatestExists(rows - {some});
      var row :| Latest(rows - {some}, row);
      assert Latest(rows, if some.timestamp > row.timestamp then some else row);
    } else {
      assert Latest(rows, some);
    }
  }

  predicate Earliest(rows: set<Row>, row: Row) {
    row in rows && forall r | r in rows :: row.timestamp <= r.timestamp
  }

  lemma {:induction false} EarliestExists(rows: set<Row>)
    requires rows != {}
    ensures exists row :: Earliest(rows, row)
  {
    var some :| some in rows;
    if rows != {some} {
      EarliestExists(rows - {some});
      var row :| Earliest(rows - {some}, row);
      assert Earliest(rows, if some.timestamp < row.timestamp then some else row);
    } else {
      assert Earliest(rows, some);
    }
  }

  // ---- order by timestamp ----

  ghost predicate ByTime(rows: seq<Row>) {
    forall i, j :: 0 <= i < j < |rows| ==> rows[i].timestamp <= rows[j].timestamp
  }

  ghost predicate StrictlyByTime(rows: seq<Row>) {
    forall i, j :: 0 <= i < j < |rows| ==> rows[i].timestamp < rows[j].timestamp
  }

  ghost predicate Distinct(rows: seq<Row>) {
    forall i, j :: 0 <= i < j < |rows| ==> rows[i] != rows[j]
  }

  // A possible answer when all rows are asked for in timestamp order.
  ghost predicate Selects(xs: seq<Row>, rows: set<Row>) {
    ByTime(xs) && Distinct(xs) && forall row :: row in xs <==> row in rows
  }

  function Rows(log: seq<Row>): set<Row> {
    set row | row in log
  }

  // Under a strictly increasing clock the sorted answer is the append order.
  lemma {:induction false} SortRecoversOrder(log: seq<Row>, xs: seq<Row>)
    requires StrictlyByTime(log) && Selects(xs, Rows(log))
    ensures xs == log
    decreases |log|
  {
    HeadInRows(xs);
    HeadInRows(log);
    if log != [] && xs != [] {
      SameFirst(log, xs);
      forall row ensures row in xs[1..] <==> row in log[1..] {
        InTail(xs, row);
        InTail(log, row);
      }
      SortRecoversOrder(log[1..], xs[1..]);
      assert xs == [xs[0]] + xs[1..] && log == [log[0]] + log[1..];
    }
  }

  lemma SameFirst(log: seq<Row>, xs: seq<Row>)
    requires StrictlyByTime(log) && ByTime(xs) && log != [] && xs != []
    requires xs[0] in log && log[0] in xs
    ensures xs[0] == log[0]
  {
    var i :| 0 <= i < |log| && log[i] == xs[0];
    var j :| 0 <= j < |xs| && xs[j] == log[0];
  }

  lemma HeadInRows(xs: seq<Row>)
    ensures xs != [] ==> xs[0] in xs && xs[0] in Rows(xs)
  {
  }

  lemma InTail(xs: seq<Row>, row: Row)
    requires Distinct(xs) && xs != []
    ensures row in xs[1..] <==> row in xs && row != xs[0]
  {
    assert xs == [xs[0]] + xs[1..];
  }

  // Swapping two neighbours with one timestamp is another possible answer,
  // and that answer does not verify.
  function Swapped(log: seq<Row>, i: nat): seq<Row>
    requires i + 1 < |log|
  {
    log[i := log[i + 1]][i + 1 := log[i]]
  }

  lemma TieCanBreak(sha: Hash, log: seq<Row>, i: nat)
    requires HashChain.Valid(sha, Events(log)) && ByTime(log) && Distinct(log)
    requires i + 1 < |log| && log[i].timestamp == log[i + 1].timestamp
    ensures Selects(Swapped(log, i), Rows(log))
    ensures
      || BreaksAt(sha, Events(Swapped(log, i)), i)
      || CollisionBetween(sha, Events(log), Events(log))
  {
    hide ComputeHash;
    var xs, es, ys := Swapped(log, i), Events(log), Events(Swapped(log, i));
    forall row ensures row in xs <==> row in log {
      if row in log {
        var k :| 0 <= k < |log| && log[k] == row;
        assert xs[if k == i then i + 1 else if k == i + 1 then i else k] == row;
      }
    }
    forall k | 0 <= k < i ensures EventOk(sha, ys, k) { assert EventOk(sha, es, k); }
    assert EventOk(sha, es, i + 1);
    if EventOk(sha, ys, i) {
      assert i > 0;
      RecordHashesDistinct(sha, es, i - 1, i);
    }
  }

  // There are such logs, for every hash function: two events written within
  // one instant.
  lemma TieExists(sha: Hash, stamp: int, d: Dict, e: Dict)
    ensures
      var first := Row("first", stamp, d, None, ComputeHash(sha, d, None));
      var second := Row("second", stamp, e, Some(first.recordHash), ComputeHash(sha, e, Some(first.recordHash)));
      var log, swapped := [first, second], [second, first];
      && HashChain.Valid(sha, Events(log)) && ByTime(log) && Distinct(log)
      && Selects(swapped, Rows(log)) && BreaksAt(sha, Events(swapped), 0)
  {
    hide ComputeHash;
    var first := Row("first", stamp, d, None, ComputeHash(sha, d, None));
    var second := Row("second", stamp, e, Some(first.recordHash), ComputeHash(sha, e, Some(first.recordHash)));
    assert !EventOk(sha, Events([second, first]), 0);
  }

  // The endpoint sees the append order, whatever order the database picks
  // among equals, exactly when the timestamps are strictly increasing.
  lemma StrictClockIsExact(sha: Hash, log: seq<Row>)
    requires HashChain.Valid(sha, Events(log)) && ByTime(log) && Distinct(log)
    ensures StrictlyByTime(log) ==> forall xs :: Selects(xs, Rows(log)) ==> xs == log
    ensures !StrictlyByTime(log) ==>
      || (exists xs :: Selects(xs, Rows(log)) && !HashChain.Valid(sha, Events(xs)))
      || CollisionBetween(sha, Events(log), Events(log))
  {
    if StrictlyByTime(log) {
      forall xs | Selects(xs, Rows(log)) ensures xs == log { SortRecoversOrder(log, xs); }
    } else {
      var i, j :| 0 <= i < j < |log| && log[i].timestamp >= log[j].timestamp;
      assert log[i].timestamp <= log[i + 1].timestamp;
      TieCanBreak(sha, log, i);
    }
  }

  // ---- appending ----

  lemma AppendKeepsChain(sha: Hash, log: seq<Row>, row: Row)
    requires HashChain.Valid(sha, Events(log))
    requires row.previousHash == PrevOf(Events(log), |log|)
    requires row.recordHash == ComputeHash(sha, row.data, row.previousHash)
    ensures HashChain.Valid(sha, Events(log + [row]))
  {
    var es, ys := Events(log), Events(log + [row]);
    forall i | 0 <= i < |ys| ensures EventOk(sha, ys, i) {
      if i < |log| { assert EventOk(sha, es, i); }
    }
  }

  lemma HeadIsLastWritten(log: seq<Row>, prev: Option<string>)
    requires StrictlyByTime(log) && IsHead(Rows(log), prev)
    ensures prev == PrevOf(Events(log), |log|)
  {
    if log != [] {
      var last := log[|log| - 1];
      assert last in Rows(log);
      var row :| Latest(Rows(log), row) && prev == Some(row.recordHash);
      var k :| 0 <= k < |log| && log[k] == row;
    }
  }

  class AuditTable {
    const sha: Hash
    const isoformat: int -> string
    var rows: set<Row>
    ghost var log: seq<Row>  // the rows in the order they were written

    constructor (sha: Hash, isoformat: int -> string)
      ensures this.sha == sha && this.isoformat == isoformat
      ensures rows == {} && log == [] && Chained()
    {
      this.sha, this.isoformat, rows, log := sha, isoformat, {}, [];
    }

    // What the writer keeps as long as the clock moves between writes.
    ghost predicate Chained()
      reads this
    {
      rows == Rows(log) && StrictlyByTime(log) && HashChain.Valid(sha, Events(log))
    }

    // AuditWriter.write: the event it builds, and whether it could be
    // committed; a violation of the unique constraint on record_hash leaves
    // the table as it was.
    method Write(eventType: string, data: Dict, now: int) returns (row: Row, committed: bool)
      modifies this
      ensures row.eventType == eventType && row.timestamp == now
      ensures Stamps(row.data, data, eventType, isoformat(now))
      ensures IsHead(old(rows), row.previousHash)
      ensures row.recordHash == ComputeHash(sha, row.data, row.previousHash)
      ensures committed <==> forall r :: r in old(rows) ==> r.recordHash != row.recordHash
      ensures committed ==> rows == old(rows) + {row} && log == old(log) + [row]
      ensures !committed ==> rows == old(rows) && log == old(log)
      ensures old(Chained()) && (forall r :: r in old(rows) ==> r.timestamp < now) ==>
        && Chained()
        && row.previousHash == PrevOf(Events(old(log)), |old(log)|)
        && (committed || CollisionBetween(sha, Events(log + [row]), Events(log + [row])))
    {
      var previousHash := None;
      if rows != {} {
        LatestExists(rows);
        var head :| Latest(rows, head);
        previousHash := Some(head.recordHash);
      }
      var payload := Payload(data, eventType, isoformat(now));
      PayloadStamps(data, eventType, isoformat(now));
      hide Payload, Stamps;
      var recordHash := ComputeHash(sha, payload, previousHash);
      row := Row(eventType, now, payload, previousHash, recordHash);
      assert IsHead(rows, previousHash);
      ghost var strict := Chained() && forall r :: r in rows ==> r.timestamp < now;
      if strict {
        HeadIsLastWritten(log, previousHash);
        AppendKeepsChain(sha, log, row);
      }
      committed := !exists r | r in rows :: r.recordHash == recordHash;
      if committed {
        rows := rows + {row};
        log := log + [row];
      } else if strict {
        ghost var k :| 0 <= k < |log| && log[k].recordHash == recordHash;
        RecordHashesDistinct(sha, Events(log + [row]), k, |log|);
      }
    }

    // The verify endpoint: select in timestamp order, then replay.
    method Verify() returns (report: Report)
      ensures exists selected :: Selects(selected, rows) && Describes(sha, Events(selected), report)
      ensures Chained() ==> report.AllValid?
    {
      var rest := rows;
      var events: seq<Row> := [];
      while rest != {}
        invariant rest <= rows
        invariant ByTime(events) && Distinct(events)
        invariant forall row :: row in events <==> row in rows && row !in rest
        invariant forall row, i :: row in rest && 0 <= i < |events| ==> events[i].timestamp <= row.timestamp
        decreases rest
      {
        EarliestExists(rest);
        var first :| Earliest(rest, first);
        assert forall i :: 0 <= i < |events| ==> events[i] in events;
        events := events + [first];
        rest := rest - {first};
      }
      if Chained() { SortRecoversOrder(log, events); }
      assert Selects(events, rows);
      report := VerifyChain(sha, Events(events));
    }
  }
}
