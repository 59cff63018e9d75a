/** The fixed-window store behind the API's request limiter
    (CapstoneProject/apps/api/src/middleware/rateLimit.ts).

    A map from client key to `{ count, resetTime }`. `incr` opens a fresh window when
    the key has no record or its window has ended, and otherwise counts one more hit
    in the current window. The clock reading `Date.now()` is passed in as `now`, and the
    configured window length as `windowMs`. */
module RateLimit {
  import opened Wrappers

  datatype Record = Record(count: nat, resetTime: int)

  function Lookup(records: map<string, Record>, key: string): Option<Record> {
    if key in records then Some(records[key]) else None
  }

  /** No record, or a window whose reset time has passed. The comparison is strict: at
      `now == resetTime` the window is still open. */
  predicate Expired(rec: Option<Record>, now: int) {
    rec.None? || now > rec.value.resetTime
  }

  /** The record `incr` stores for a key whose record was `rec`. */
  function Incremented(rec: Option<Record>, now: int, windowMs: nat): Record {
    if Expired(rec, now) then Record(1, now + windowMs)
    else Record(rec.value.count + 1, rec.value.resetTime)
  }

  /** The record after `decrement`: lowered only when present and positive. */
  function Decremented(rec: Option<Record>): Option<Record> {
    if rec.Some? && rec.value.count > 0 then Some(Record(rec.value.count - 1, rec.value.resetTime))
    else rec
  }

  /** The `(total, ttl)` pair `incr` reports to its callback. */
  function Report(rec: Record, now: int): (int, int) {
    (rec.count, rec.resetTime - now)
  }

  /** A fresh window reports one hit and the whole window as time to live; an open one
      reports one more hit than before, keeps its reset time and a non-negative ttl. */
  lemma IncrReports(rec: Option<Record>, now: int, windowMs: nat)
    ensures Expired(rec, now) ==>
      Report(Incremented(rec, now, windowMs), now) == (1, windowMs)
    ensures !Expired(rec, now) ==>
      var r := Incremented(rec, now, windowMs);
      && r.count == rec.value.count + 1
      && r.resetTime == rec.value.resetTime
      && Report(r, now).1 >= 0
  {
  }

  /** The ttl never exceeds the window, provided the record was opened no later than
      `now` (the clock does not run backwards). */
  lemma TtlWithinWindow(rec: Option<Record>, now: int, windowMs: nat)
    requires rec.Some? ==> rec.value.resetTime - windowMs <= now
    ensures 0 <= Report(Incremented(rec, now, windowMs), now).1 <= windowMs
  {
  }

  /** The hits of one key, replayed in order from the record `rec`. */
  function Replay(rec: Option<Record>, times: seq<int>, windowMs: nat): Option<Record>
    decreases |times|
  {
    if times == [] then rec
    else Replay(Some(Incremented(rec, times[0], windowMs)), times[1..], windowMs)
  }

  /** Hits that all fall inside the window opened by the first of them are all counted
      in that window: the record ends with the number of hits and the first hit's
      reset time. */
  lemma {:induction false} HitsInOneWindow(rec: Option<Record>, times: seq<int>, windowMs: nat)
    requires |times| > 0 && Expired(rec, times[0])
    requires forall i :: 0 <= i < |times| ==> times[i] <= times[0] + windowMs
    ensures Replay(rec, times, windowMs) == Some(Record(|times|, times[0] + windowMs))
  {
    var first := Incremented(rec, times[0], windowMs);
    assert first == Record(1, times[0] + windowMs);
    OpenWindowCounts(first, times[1..], windowMs);
  }

  lemma {:induction false} OpenWindowCounts(rec: Record, times: seq<int>, windowMs: nat)
    requires forall i :: 0 <= i < |times| ==> times[i] <= rec.resetTime
    ensures Replay(Some(rec), times, windowMs) == Some(Record(rec.count + |times|, rec.resetTime))
    decreases |times|
  {
    if times != [] {
      var next := Incremented(Some(rec), times[0], windowMs);
      assert next == Record(rec.count + 1, rec.resetTime);
      OpenWindowCounts(next, times[1..], windowMs);
    }
  }

  /** `decrement` after an `incr` inside an open window restores the old record. */
  lemma DecrementUndoesIncr(rec: Record, now: int, windowMs: nat)
    requires now <= rec.resetTime
    ensures Decremented(Some(Incremented(Some(rec), now, windowMs))) == Some(rec)
  {
  }

  class Store {
    const windowMs: nat
    var records: map<string, Record>

    constructor (windowMs: nat)
      ensures this.windowMs == windowMs && records == map[]
    {
      this.windowMs := windowMs;
      records := map[];
    }

    /** `incr(key, cb)`: update `key` alone and report `(total, ttl)`. */
    method Incr(key: string, now: int) returns (total: nat, ttl: int)
      modifies this
      ensures records == old(records)[key := Incremented(Lookup(old(records), key), now, windowMs)]
      ensures (total, ttl) == Report(records[key], now)
      ensures forall k :: k != key ==> Lookup(records, k) == Lookup(old(records), k)
    {
      if key !in records || now > records[key].resetTime {
        var resetTime := now + windowMs;
        records := records[key := Record(1, resetTime)];
        total, ttl := 1, resetTime - now;
      } else {
        var record := records[key];
        record := record.(count := record.count + 1);
        records := records[key := record];
        total, ttl := record.count, record.resetTime - now;
      }
    }

    /** `decrement(key)`: a missing key or a zero count is left as it is. */
    method Decrement(key: string)
      modifies this
      ensures Lookup(records, key) == Decremented(Lookup(old(records), key))
      ensures records.Keys == old(records).Keys
      ensures forall k :: k != key ==> Lookup(records, k) == Lookup(old(records), k)
    {
      if key in records && records[key].count > 0 {
        var record := records[key];
        records := records[key := record.(count := record.count - 1)];
      }
    }

    /** `resetKey(key)`: only `key` is deleted. */
    method ResetKey(key: string)
      modifies this
      ensures records == old(records) - {key}
      ensures Lookup(records, key).None?
    {
      records := records - {key};
    }

    /** `resetAll()`. */
    method ResetAll()
      modifies this
      ensures records == map[]
    {
      records := map[];
    }

    /** `shutdown()`: empties the store like `resetAll`. */
    method Shutdown()
      modifies this
      ensures records == map[]
    {
      records := map[];
    }
  }
}
