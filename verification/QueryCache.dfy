/** The query executor with its result cache: one call at a time, against the cache and audit
    tables of the platform database. Times are microseconds. */
module QueryCache {
  import opened Wrappers
  import opened Fingerprint
  import T = StatementTokens
  import opened LimitText
  import AsciiText

  type Row = map<string, string>

  datatype Settings = Settings(namespace: string, cacheEnabled: bool, ttl: nat, maxCachedRows: nat)

  const PRUNE_BATCH: nat := 100

  datatype Statement = Statement(sql: string, rowLimit: nat, explainCost: real)

  datatype Entry = Entry(
    fingerprint: string, role: string, sqlText: string, rowLimit: nat, explainCost: real,
    rows: seq<Row>, rowCount: nat, hitCount: nat,
    expiresAt: int, createdAt: int, lastAccessedAt: int)

  datatype Audit = Audit(
    fingerprint: string, role: string, sqlText: string, cacheHit: bool, rowCount: nat, ok: bool, createdAt: int)

  /** What the analytics database did with the statement. */
  datatype DatabaseAnswer = Returned(rows: seq<Row>) | Failed(message: string)

  /** When a call prunes, looks up, has its answer, stores it, and writes its audit row. */
  datatype Clock = Clock(start: int, check: int, answered: int, stored: int, done: int)

  datatype Call = Call(
    statement: Statement, role: string, useCache: bool, connected: bool, clock: Clock, outcome: DatabaseAnswer)

  datatype Answer = Answer(rows: seq<Row>, rowCount: nat, cached: bool, fingerprint: string) | Raised(message: string)

  datatype Tables = Tables(cache: seq<Entry>, audits: seq<Audit>)

  // ---- Specification of one call ----

  function CallKey(s: Settings, c: Call): string { Key(s.namespace, c.role, c.statement.sql) }

  predicate CacheAllowed(s: Settings, c: Call) {
    c.useCache && s.cacheEnabled && c.statement.rowLimit <= s.maxCachedRows
  }

  predicate UsesCache(s: Settings, c: Call) { CacheAllowed(s, c) && c.connected }

  /** All rows if the limit allows as many, else just the first ones up to the limit. */
  predicate FirstRows(r: seq<Row>, rows: seq<Row>, limit: nat) {
    r <= rows && |r| == if |rows| <= limit then |rows| else limit
  }

  /** The rows the executor keeps of a database answer. */
  function Kept(rows: seq<Row>, limit: nat): (r: seq<Row>)
    ensures FirstRows(r, rows, limit)
  {
    if |rows| <= limit then rows else rows[..limit]
  }

  /** At most `limit` expired rows of the table. */
  function Expired(cache: seq<Entry>, now: int, limit: nat): (r: seq<Entry>)
    ensures |r| <= limit && forall e :: e in r ==> e in cache && e.expiresAt < now
    ensures |r| == limit || forall e :: e in cache && e.expiresAt < now ==> e in r
  {
    if cache == [] || limit == 0 then []
    else if cache[0].expiresAt < now then [cache[0]] + Expired(cache[1..], now, limit - 1)
    else Expired(cache[1..], now, limit)
  }

  function Delete(cache: seq<Entry>, e: Entry): (r: seq<Entry>)
    ensures forall x :: x in r ==> x in cache
    ensures forall x :: x in cache && x != e ==> x in r
  {
    if cache == [] then []
    else if cache[0] == e then cache[1..]
    else [cache[0]] + Delete(cache[1..], e)
  }

  lemma DeleteAllStep(cache: seq<Entry>, doomed: seq<Entry>, i: nat)
    requires i < |doomed|
    ensures DeleteAll(cache, doomed[..i + 1]) == Delete(DeleteAll(cache, doomed[..i]), doomed[i])
  {
    assert doomed[..i + 1][..i] == doomed[..i];
  }

  function DeleteAll(cache: seq<Entry>, doomed: seq<Entry>): seq<Entry> {
    if doomed == [] then cache
    else Delete(DeleteAll(cache, doomed[..|doomed| - 1]), doomed[|doomed| - 1])
  }

  function Prune(cache: seq<Entry>, now: int): seq<Entry> {
    DeleteAll(cache, Expired(cache, now, PRUNE_BATCH))
  }

  function Find(cache: seq<Entry>, fingerprint: string): (r: Option<nat>)
    ensures r.Some? ==> r.value < |cache| && cache[r.value].fingerprint == fingerprint
    ensures r.None? ==> forall e :: e in cache ==> e.fingerprint != fingerprint
  {
    if cache == [] then None
    else if cache[0].fingerprint == fingerprint then Some(0)
    else
      var rest := Find(cache[1..], fingerprint);
      if rest.Some? then Some(rest.value + 1) else None
  }

  function Touched(cache: seq<Entry>, i: nat, now: int): seq<Entry>
    requires i < |cache|
  {
    cache[i := cache[i].(hitCount := cache[i].hitCount + 1, lastAccessedAt := now)]
  }

  function NewEntry(s: Settings, c: Call, rows: seq<Row>): Entry {
    Entry(CallKey(s, c), c.role, c.statement.sql, c.statement.rowLimit, c.statement.explainCost,
          rows, |rows|, 0, c.clock.stored + s.ttl, c.clock.stored, c.clock.stored)
  }

  function Upserted(s: Settings, cache: seq<Entry>, c: Call, rows: seq<Row>): seq<Entry> {
    match Find(cache, CallKey(s, c))
    case None => cache + [NewEntry(s, c, rows)]
    case Some(i) => cache[i := NewEntry(s, c, rows).(hitCount := cache[i].hitCount, createdAt := cache[i].createdAt)]
  }

  function AuditOf(s: Settings, c: Call, hit: bool, rowCount: nat, ok: bool): Audit {
    Audit(CallKey(s, c), c.role, c.statement.sql, hit, rowCount, ok, c.clock.done)
  }

  /** The usable cache row for a call, looked up after pruning. */
  function Lookup(s: Settings, cache: seq<Entry>, c: Call): (r: Option<nat>)
    ensures r.Some? ==> r.value < |cache|
    ensures r.Some? ==> cache[r.value].fingerprint == CallKey(s, c) && cache[r.value].expiresAt >= c.clock.check
  {
    match Find(cache, CallKey(s, c))
    case None => None
    case Some(i) => if cache[i].expiresAt >= c.clock.check then Some(i) else None
  }

  function Execute(s: Settings, t: Tables, c: Call): (Tables, Answer) {
    var cache := if UsesCache(s, c) then Prune(t.cache, c.clock.start) else t.cache;
    var hit := if UsesCache(s, c) then Lookup(s, cache, c) else None;
    if hit.Some? then
      var e := cache[hit.value];
      (Tables(Touched(cache, hit.value, c.clock.check), t.audits + [AuditOf(s, c, true, e.rowCount, true)]),
       Answer(e.rows, e.rowCount, true, CallKey(s, c)))
    else
      match c.outcome
      case Failed(message) =>
        (Tables(cache, t.audits + if c.connected then [AuditOf(s, c, false, 0, false)] else []), Raised(message))
      case Returned(all) =>
        var rows := Kept(all, c.statement.rowLimit);
        (Tables(if UsesCache(s, c) then Upserted(s, cache, c, rows) else cache,
                t.audits + if c.connected then [AuditOf(s, c, false, |rows|, true)] else []),
         Answer(rows, |rows|, false, CallKey(s, c)))
  }

  // ---- The executor ----

  /** The two tables, changed row by row within the caller's session. */
  class QueryStore {
    var cache: seq<Entry>
    var audits: seq<Audit>

    function Model(): Tables
      reads this
    {
      Tables(cache, audits)
    }

    constructor ()
      ensures Model() == Tables([], [])
    {
      cache, audits := [], [];
    }

    method PruneExpiredCache(now: int) returns (count: nat)
      modifies this`cache
      ensures cache == Prune(old(cache), now) && count <= PRUNE_BATCH
    {
      var rows := Expired(cache, now, PRUNE_BATCH);
      for i := 0 to |rows|
        invariant cache == DeleteAll(old(cache), rows[..i])
      {
        DeleteAllStep(old(cache), rows, i);
        cache := Delete(cache, rows[i]);
      }
      assert rows[..|rows|] == rows;
      count := |rows|;
    }

    method TouchCacheHit(i: nat, now: int)
      requires i < |cache|
      modifies this`cache
      ensures cache == Touched(old(cache), i, now)
    {
      var entry := cache[i];
      entry := entry.(hitCount := entry.hitCount + 1);
      entry := entry.(lastAccessedAt := now);
      cache := cache[i := entry];
    }

    method UpsertCacheEntry(s: Settings, c: Call, rows: seq<Row>)
      modifies this`cache
      ensures cache == Upserted(s, old(cache), c, rows)
    {
      var found := Find(cache, CallKey(s, c));
      var expiresAt := c.clock.stored + s.ttl;
      if found == None {
        cache := cache + [NewEntry(s, c, rows)];
      } else {
        var entry := cache[found.value];
        cache := cache[found.value := entry.(
          role := c.role, sqlText := c.statement.sql, rowLimit := c.statement.rowLimit,
          explainCost := c.statement.explainCost, rows := rows, rowCount := |rows|,
          expiresAt := expiresAt, lastAccessedAt := c.clock.stored)];
      }
    }

    method RecordExecutionAudit(s: Settings, c: Call, hit: bool, rowCount: nat, ok: bool)
      modifies this`audits
      ensures audits == old(audits) + if c.connected then [AuditOf(s, c, hit, rowCount, ok)] else []
    {
      if !c.connected { return; }
      audits := audits + [AuditOf(s, c, hit, rowCount, ok)];
    }

    method ExecuteSafeQuery(s: Settings, c: Call) returns (answer: Answer)
      modifies this
      ensures (Model(), answer) == Execute(s, old(Model()), c)
    {
      var fingerprint := CallKey(s, c);
      if UsesCache(s, c) {
        var _ := PruneExpiredCache(c.clock.start);
        var found := Find(cache, fingerprint);
        if found.Some? && cache[found.value].expiresAt >= c.clock.check {
          var entry := cache[found.value];
          TouchCacheHit(found.value, c.clock.check);
          RecordExecutionAudit(s, c, true, entry.rowCount, true);
          return Answer(entry.rows, entry.rowCount, true, fingerprint);
        }
      }
      match c.outcome {
        case Failed(message) =>
          RecordExecutionAudit(s, c, false, 0, false);
          return Raised(message);
        case Returned(all) =>
          var rows := Kept(all, c.statement.rowLimit);
          if UsesCache(s, c) {
            UpsertCacheEntry(s, c, rows);
          }
          RecordExecutionAudit(s, c, false, |rows|, true);
          return Answer(rows, |rows|, false, fingerprint);
      }
    }
  }

  // ---- What touching and storing an entry mean ----

  ghost predicate OnePerFingerprint(cache: seq<Entry>) {
    forall i, j :: 0 <= i < j < |cache| ==> cache[i].fingerprint != cache[j].fingerprint
  }

  /** A hit counts on its own entry, at its time, and on no other. */
  lemma TouchedMeans(cache: seq<Entry>, i: nat, now: int)
    requires OnePerFingerprint(cache) && i < |cache|
    ensures var after, e := Touched(cache, i, now), cache[i];
      && OnePerFingerprint(after)
      && (forall x: Entry :: x.fingerprint != e.fingerprint ==> (x in after <==> x in cache))
      && forall x :: x in after && x.fingerprint == e.fingerprint ==>
          x == e.(hitCount := e.hitCount + 1, lastAccessedAt := now)
  {
    var after := Touched(cache, i, now);
    forall x | x in cache && x.fingerprint != cache[i].fingerprint ensures x in after {
      var j :| 0 <= j < |cache| && cache[j] == x;
      assert after[j] == x;
    }
  }

  /** Storing leaves exactly one entry for the key, with the new rows, their number and a fresh
      expiry; a refreshed entry keeps its hits and its creation time; other keys keep theirs. */
  lemma UpsertedMeans(s: Settings, cache: seq<Entry>, c: Call, rows: seq<Row>)
    requires OnePerFingerprint(cache)
    ensures var after, key := Upserted(s, cache, c, rows), CallKey(s, c);
      && OnePerFingerprint(after)
      && (forall x: Entry :: x.fingerprint != key ==> (x in after <==> x in cache))
      && (exists x :: x in after && x.fingerprint == key)
      && (forall x :: x in after && x.fingerprint == key ==>
            && x.rows == rows && x.rowCount == |rows| && x.expiresAt == c.clock.stored + s.ttl
            && x.sqlText == c.statement.sql && x.role == c.role && x.rowLimit == c.statement.rowLimit
            && x.explainCost == c.statement.explainCost && x.lastAccessedAt == c.clock.stored)
      && (forall x, e :: x in after && x.fingerprint == key && e in cache && e.fingerprint == key ==>
            x.hitCount == e.hitCount && x.createdAt == e.createdAt)
      && ((forall e :: e in cache ==> e.fingerprint != key) ==>
            forall x :: x in after && x.fingerprint == key ==> x.hitCount == 0 && x.createdAt == c.clock.stored)
  {
    hide CallKey;
    var after, key := Upserted(s, cache, c, rows), CallKey(s, c);
    var found := Find(cache, key);
    if found.Some? {
      assert after[found.value].fingerprint == key;
    } else {
      assert after[|cache|].fingerprint == key;
    }
    forall x | x in cache && x.fingerprint != key ensures x in after {
      var j :| 0 <= j < |cache| && cache[j] == x;
      assert after[j] == x;
    }
  }

  // ---- Runs of the executor ----

  function TablesAfter(s: Settings, calls: seq<Call>): Tables {
    if calls == [] then Tables([], [])
    else Execute(s, TablesAfter(s, calls[..|calls| - 1]), calls[|calls| - 1]).0
  }

  function AnswerAt(s: Settings, calls: seq<Call>, k: nat): Answer
    requires k < |calls|
  {
    Execute(s, TablesAfter(s, calls[..k]), calls[k]).1
  }

  predicate Ordered(c: Clock) { c.start <= c.check <= c.answered <= c.stored <= c.done }

  /** Calls follow one another, carry statements whose text states their row limit, as
      validated statements do, and use role names without a bar. */
  ghost predicate Sound(calls: seq<Call>) {
    && (forall i :: 0 <= i < |calls| ==>
          && Ordered(calls[i].clock)
          && ExtractLimit(calls[i].statement.sql) == Some(calls[i].statement.rowLimit)
          && BarFree(AsciiText.Lower(AsciiText.Strip(calls[i].role))))
    && (forall i, j :: 0 <= i < j < |calls| ==> calls[i].clock.done < calls[j].clock.start)
  }

  lemma SoundPrefix(calls: seq<Call>, n: nat)
    requires Sound(calls) && n <= |calls|
    ensures Sound(calls[..n])
  {
  }

  /** The entry holds what the database gave call c. */
  ghost predicate StoredBy(s: Settings, c: Call, e: Entry) {
    && UsesCache(s, c)
    && c.outcome.Returned?
    && e.fingerprint == CallKey(s, c)
    && FirstRows(e.rows, c.outcome.rows, c.statement.rowLimit)
    && e.rowCount == |e.rows|
    && e.expiresAt == c.clock.stored + s.ttl
    && e.sqlText == c.statement.sql
  }

  ghost predicate Sourced(s: Settings, calls: seq<Call>, e: Entry) {
    exists i :: 0 <= i < |calls| && StoredBy(s, calls[i], e)
  }

  /** Cache hits on the entry's fingerprint audited since the entry was created. */
  function HitsSince(audits: seq<Audit>, fingerprint: string, since: int): nat {
    if audits == [] then 0
    else
      var a := audits[|audits| - 1];
      HitsSince(audits[..|audits| - 1], fingerprint, since)
        + if a.cacheHit && a.fingerprint == fingerprint && a.createdAt >= since then 1 else 0
  }

  lemma HitsSinceAppend(audits: seq<Audit>, more: seq<Audit>, fingerprint: string, since: int)
    requires |more| <= 1
    ensures HitsSince(audits + more, fingerprint, since) == HitsSince(audits, fingerprint, since)
      + if more != [] && more[0].cacheHit && more[0].fingerprint == fingerprint && more[0].createdAt >= since
        then 1 else 0
  {
    if more == [] {
      assert audits + more == audits;
    } else {
      assert (audits + more)[..|audits|] == audits;
    }
  }

  lemma {:induction false} NoHitsYet(audits: seq<Audit>, fingerprint: string, since: int)
    requires forall a :: a in audits ==> a.createdAt < since
    ensures HitsSince(audits, fingerprint, since) == 0
  {
    if audits != [] {
      NoHitsYet(audits[..|audits| - 1], fingerprint, since);
    }
  }

  /** What holds of each entry after a run. */
  ghost predicate EntryConsistent(s: Settings, calls: seq<Call>, audits: seq<Audit>, e: Entry)
    requires calls != []
  {
    && Sourced(s, calls, e)
    && e.hitCount == HitsSince(audits, e.fingerprint, e.createdAt)
    && e.createdAt <= calls[|calls| - 1].clock.done
  }

  /** What holds of the tables after a run. */
  ghost predicate Consistent(s: Settings, calls: seq<Call>, t: Tables) {
    if calls == [] then t == Tables([], [])
    else
      && OnePerFingerprint(t.cache)
      && (forall e :: e in t.cache ==> EntryConsistent(s, calls, t.audits, e))
      && (forall a :: a in t.audits ==> a.createdAt <= calls[|calls| - 1].clock.done)
  }

  // ---- Pruning ----

  lemma {:induction false} DeleteKeepsUnique(cache: seq<Entry>, e: Entry)
    requires OnePerFingerprint(cache)
    ensures OnePerFingerprint(Delete(cache, e))
  {
    if cache != [] && cache[0] != e {
      var rest := Delete(cache[1..], e);
      DeleteKeepsUnique(cache[1..], e);
      forall j | 0 <= j < |rest| ensures rest[j].fingerprint != cache[0].fingerprint {
        assert rest[j] in cache[1..];
      }
    }
  }

  lemma {:induction false} DeleteAllKeeps(cache: seq<Entry>, doomed: seq<Entry>)
    requires OnePerFingerprint(cache)
    ensures OnePerFingerprint(DeleteAll(cache, doomed))
    ensures forall x :: x in DeleteAll(cache, doomed) ==> x in cache
    ensures forall x :: x in cache && x !in doomed ==> x in DeleteAll(cache, doomed)
  {
    if doomed != [] {
      DeleteAllKeeps(cache, doomed[..|doomed| - 1]);
      DeleteKeepsUnique(DeleteAll(cache, doomed[..|doomed| - 1]), doomed[|doomed| - 1]);
    }
  }

  /** Pruning invents nothing and never drops an entry that has not expired. */
  lemma PruneKeepsLiveEntries(cache: seq<Entry>, now: int)
    requires OnePerFingerprint(cache)
    ensures OnePerFingerprint(Prune(cache, now))
    ensures forall x :: x in Prune(cache, now) ==> x in cache
    ensures forall x :: x in cache && x.expiresAt >= now ==> x in Prune(cache, now)
  {
    DeleteAllKeeps(cache, Expired(cache, now, PRUNE_BATCH));
  }

  lemma {:induction false} DeleteDrops(cache: seq<Entry>, e: Entry)
    requires OnePerFingerprint(cache) && e in cache
    ensures |Delete(cache, e)| == |cache| - 1 && e !in Delete(cache, e)
  {
    if cache[0] == e {
      assert forall j :: 0 < j < |cache| ==> cache[j].fingerprint != e.fingerprint;
    } else {
      DeleteDrops(cache[1..], e);
    }
  }

  lemma {:induction false} DeleteAllDrops(cache: seq<Entry>, doomed: seq<Entry>)
    requires OnePerFingerprint(cache) && OnePerFingerprint(doomed) && forall e :: e in doomed ==> e in cache
    ensures |DeleteAll(cache, doomed)| == |cache| - |doomed|
    ensures forall e :: e in doomed ==> e !in DeleteAll(cache, doomed)
  {
    if doomed != [] {
      var before, last := doomed[..|doomed| - 1], doomed[|doomed| - 1];
      DeleteAllDrops(cache, before);
      DeleteAllKeeps(cache, before);
      assert doomed == before + [last];
      DeleteDrops(DeleteAll(cache, before), last);
    }
  }

  lemma ConsUnique(e: Entry, rest: seq<Entry>)
    requires OnePerFingerprint(rest) && forall x :: x in rest ==> x.fingerprint != e.fingerprint
    ensures OnePerFingerprint([e] + rest)
  {
  }

  lemma {:induction false} ExpiredOnce(cache: seq<Entry>, now: int, limit: nat)
    requires OnePerFingerprint(cache)
    ensures OnePerFingerprint(Expired(cache, now, limit))
  {
    if cache != [] && limit > 0 {
      if cache[0].expiresAt < now {
        var rest := Expired(cache[1..], now, limit - 1);
        ExpiredOnce(cache[1..], now, limit - 1);
        forall e | e in rest ensures e.fingerprint != cache[0].fingerprint {
          assert e in cache[1..];
        }
        ConsUnique(cache[0], rest);
      } else {
        ExpiredOnce(cache[1..], now, limit);
      }
    }
  }

  /** Pruning drops every expired entry, or a hundred of them. */
  lemma PruneDropsExpired(cache: seq<Entry>, now: int)
    requires OnePerFingerprint(cache)
    ensures |Prune(cache, now)| == |cache| - 100
      || (|Prune(cache, now)| > |cache| - 100 && forall e :: e in Prune(cache, now) ==> e.expiresAt >= now)
  {
    var doomed := Expired(cache, now, PRUNE_BATCH);
    ExpiredOnce(cache, now, PRUNE_BATCH);
    DeleteAllDrops(cache, doomed);
    DeleteAllKeeps(cache, doomed);
  }

  // ---- The invariant over every run ----

  lemma {:induction false} RunConsistent(s: Settings, calls: seq<Call>)
    requires Sound(calls)
    ensures Consistent(s, calls, TablesAfter(s, calls))
  {
    if calls != [] {
      var n := |calls| - 1;
      SoundPrefix(calls, n);
      RunConsistent(s, calls[..n]);
      StepConsistent(s, calls);
    }
  }

  /** An entry of the previous tables, seen by the next call. */
  ghost predicate Carried(s: Settings, calls: seq<Call>, audits: seq<Audit>, e: Entry)
    requires calls != []
  {
    && Sourced(s, calls, e)
    && e.hitCount == HitsSince(audits, e.fingerprint, e.createdAt)
    && e.createdAt <= calls[|calls| - 1].clock.start
  }

  lemma CarriedOver(s: Settings, calls: seq<Call>, t: Tables, e: Entry)
    requires Sound(calls) && calls != []
    requires Consistent(s, calls[..|calls| - 1], t) && e in t.cache
    ensures Carried(s, calls, t.audits, e)
  {
  }

  lemma AuditsEarlier(s: Settings, calls: seq<Call>, t: Tables)
    requires Sound(calls) && calls != [] && Consistent(s, calls[..|calls| - 1], t)
    ensures forall a :: a in t.audits ==> a.createdAt < calls[|calls| - 1].clock.start
  {
  }

  lemma StepConsistent(s: Settings, calls: seq<Call>)
    requires Sound(calls) && calls != []
    requires Consistent(s, calls[..|calls| - 1], TablesAfter(s, calls[..|calls| - 1]))
    ensures Consistent(s, calls, TablesAfter(s, calls))
  {
    hide Key, ExtractLimit, Sourced, HitsSince;
    var c, t := calls[|calls| - 1], TablesAfter(s, calls[..|calls| - 1]);
    var cache := if UsesCache(s, c) then Prune(t.cache, c.clock.start) else t.cache;
    PruneKeepsLiveEntries(t.cache, c.clock.start);
    forall e | e in cache ensures Carried(s, calls, t.audits, e) {
      CarriedOver(s, calls, t, e);
    }
    AuditsEarlier(s, calls, t);
    var hit := if UsesCache(s, c) then Lookup(s, cache, c) else None;
    if hit.Some? {
      HitStep(s, calls, t.audits, cache, hit.value);
    } else if c.outcome.Failed? {
      MissStep(s, calls, t.audits, cache, if c.connected then [AuditOf(s, c, false, 0, false)] else []);
    } else {
      var rows := Kept(c.outcome.rows, c.statement.rowLimit);
      var more := if c.connected then [AuditOf(s, c, false, |rows|, true)] else [];
      if UsesCache(s, c) {
        UpsertStep(s, calls, t.audits, cache, rows);
      } else {
        MissStep(s, calls, t.audits, cache, more);
      }
    }
  }

  lemma HitStep(s: Settings, calls: seq<Call>, audits: seq<Audit>, cache: seq<Entry>, i: nat)
    requires calls != [] && Ordered(calls[|calls| - 1].clock)
    requires OnePerFingerprint(cache) && i < |cache| && cache[i].fingerprint == CallKey(s, calls[|calls| - 1])
    requires forall e :: e in cache ==> Carried(s, calls, audits, e)
    requires forall a :: a in audits ==> a.createdAt < calls[|calls| - 1].clock.start
    ensures var c := calls[|calls| - 1];
      Consistent(s, calls,
        Tables(Touched(cache, i, c.clock.check), audits + [AuditOf(s, c, true, cache[i].rowCount, true)]))
  {
    hide CallKey, HitsSince;
    var c := calls[|calls| - 1];
    var audit := AuditOf(s, c, true, cache[i].rowCount, true);
    var after := Touched(cache, i, c.clock.check);
    forall j | 0 <= j < |after|
      ensures EntryConsistent(s, calls, audits + [audit], after[j])
    {
      assert Carried(s, calls, audits, cache[j]);
      var k :| 0 <= k < |calls| && StoredBy(s, calls[k], cache[j]);
      assert StoredBy(s, calls[k], after[j]);
      HitsSinceAppend(audits, [audit], cache[j].fingerprint, cache[j].createdAt);
      assert after[j].fingerprint == cache[j].fingerprint && after[j].createdAt == cache[j].createdAt;
    }
  }

  lemma MissStep(s: Settings, calls: seq<Call>, audits: seq<Audit>, cache: seq<Entry>, more: seq<Audit>)
    requires calls != [] && Ordered(calls[|calls| - 1].clock) && OnePerFingerprint(cache)
    requires forall e :: e in cache ==> Carried(s, calls, audits, e)
    requires forall a :: a in audits ==> a.createdAt < calls[|calls| - 1].clock.start
    requires |more| <= 1 && (more != [] ==> !more[0].cacheHit && more[0].createdAt == calls[|calls| - 1].clock.done)
    ensures Consistent(s, calls, Tables(cache, audits + more))
  {
    hide Sourced, HitsSince;
    forall e | e in cache ensures EntryConsistent(s, calls, audits + more, e) {
      HitsSinceAppend(audits, more, e.fingerprint, e.createdAt);
    }
  }

  lemma UpsertStep(s: Settings, calls: seq<Call>, audits: seq<Audit>, cache: seq<Entry>, rows: seq<Row>)
    requires calls != [] && Ordered(calls[|calls| - 1].clock) && OnePerFingerprint(cache)
    requires forall e :: e in cache ==> Carried(s, calls, audits, e)
    requires forall a :: a in audits ==> a.createdAt < calls[|calls| - 1].clock.start
    requires var c := calls[|calls| - 1];
      c.outcome.Returned? && UsesCache(s, c) && rows == Kept(c.outcome.rows, c.statement.rowLimit)
    ensures var c := calls[|calls| - 1];
      Consistent(s, calls, Tables(Upserted(s, cache, c, rows), audits + [AuditOf(s, c, false, |rows|, true)]))
  {
    hide CallKey, HitsSince;
    var c := calls[|calls| - 1];
    var audit := AuditOf(s, c, false, |rows|, true);
    var after := Upserted(s, cache, c, rows);
    var found := Find(cache, CallKey(s, c));
    NoHitsYet(audits, CallKey(s, c), c.clock.stored);
    forall j | 0 <= j < |after|
      ensures EntryConsistent(s, calls, audits + [audit], after[j])
    {
      HitsSinceAppend(audits, [audit], after[j].fingerprint, after[j].createdAt);
      if j < |cache| {
        assert Carried(s, calls, audits, cache[j]);
      }
      if j == found.GetOr(|cache|) {
        assert StoredBy(s, calls[|calls| - 1], after[j]);
      } else {
        assert after[j] == cache[j];
      }
    }
    UpsertedMeans(s, cache, c, rows);
  }

  // ---- What callers may rely on ----

  /** Call i could have supplied the answer of call k. */
  ghost predicate Supplies(s: Settings, calls: seq<Call>, i: nat, k: nat, a: Answer)
    requires i <= k < |calls| && a.Answer?
  {
    && calls[i].outcome.Returned?
    && CallKey(s, calls[i]) == CallKey(s, calls[k])
    && FirstRows(a.rows, calls[i].outcome.rows, calls[k].statement.rowLimit)
    && (if a.cached then i < k && calls[k].clock.check <= calls[i].clock.stored + s.ttl else i == k)
  }

  /** Every successful answer is what the database gave this call, or gave an earlier call
      with the same key whose result was stored no longer ago than the time to live. */
  lemma AnswersComeFromDatabase(s: Settings, calls: seq<Call>, k: nat)
    requires Sound(calls) && k < |calls| && AnswerAt(s, calls, k).Answer?
    ensures exists i: nat :: i <= k && Supplies(s, calls, i, k, AnswerAt(s, calls, k))
  {
    var a, c := AnswerAt(s, calls, k), calls[k];
    if a.cached {
      var t := TablesAfter(s, calls[..k]);
      SoundPrefix(calls, k);
      RunConsistent(s, calls[..k]);
      PruneKeepsLiveEntries(t.cache, c.clock.start);
      var cache := Prune(t.cache, c.clock.start);
      var e := cache[Lookup(s, cache, c).value];
      assert e in cache && e in t.cache;
      EntrySupplies(s, calls, k, e);
    } else {
      assert Supplies(s, calls, k, k, a);
    }
  }

  lemma EntrySupplies(s: Settings, calls: seq<Call>, k: nat, e: Entry)
    requires Sound(calls) && k < |calls| && Sourced(s, calls[..k], e)
    requires e.fingerprint == CallKey(s, calls[k]) && e.expiresAt >= calls[k].clock.check
    ensures e.rowCount == |e.rows|
    ensures exists i: nat :: i < k && Supplies(s, calls, i, k, Answer(e.rows, e.rowCount, true, e.fingerprint))
  {
    hide Key, ExtractLimit, BarFree;
    var i :| 0 <= i < k && StoredBy(s, calls[..k][i], e);
    var c, c' := calls[i], calls[k];
    KeyDeterminesLimit(s.namespace, c.role, c.statement.sql, c'.role, c'.statement.sql);
    assert Supplies(s, calls, i, k, Answer(e.rows, e.rowCount, true, e.fingerprint));
  }

  /** An entry a call would be served from: its key's, and not yet expired when it looks. */
  ghost predicate LiveFor(s: Settings, cache: seq<Entry>, c: Call) {
    exists e :: e in cache && e.fingerprint == CallKey(s, c) && e.expiresAt >= c.clock.check
  }

  lemma CallIsAnswered(s: Settings, t: Tables, c: Call)
    requires OnePerFingerprint(t.cache) && c.clock.start <= c.clock.check
    ensures var a := Execute(s, t, c).1;
      var served := UsesCache(s, c) && LiveFor(s, t.cache, c);
      && ((a.Answer? && a.cached) <==> served)
      && (a.Raised? <==> !served && c.outcome.Failed?)
      && (a.Raised? ==> a.message == c.outcome.message)
      && (a.Answer? ==> a.fingerprint == CallKey(s, c))
  {
    hide CallKey, Touched, Upserted, Prune, Kept;
    PruneKeepsLiveEntries(t.cache, c.clock.start);
    if UsesCache(s, c) {
      var cache := Prune(t.cache, c.clock.start);
      var hit := Lookup(s, cache, c);
      if hit.Some? {
        assert cache[hit.value] in cache && cache[hit.value] in t.cache;
      }
      if e :| e in t.cache && e.fingerprint == CallKey(s, c) && e.expiresAt >= c.clock.check {
        assert e in cache;
        OnlyEntry(cache, e, Find(cache, CallKey(s, c)));
      }
    }
  }

  /** A call is served from the cache exactly if it may use it and finds a live entry; otherwise
      it fails exactly if the database does, with its message. */
  lemma EachCallIsAnswered(s: Settings, calls: seq<Call>, k: nat)
    requires Sound(calls) && k < |calls|
    ensures var a, c := AnswerAt(s, calls, k), calls[k];
      var served := c.useCache && s.cacheEnabled && c.connected && c.statement.rowLimit <= s.maxCachedRows
        && LiveFor(s, TablesAfter(s, calls[..k]).cache, c);
      && ((a.Answer? && a.cached) <==> served)
      && (a.Raised? <==> !served && c.outcome.Failed?)
      && (a.Raised? ==> a.message == c.outcome.message)
      && (a.Answer? ==> a.fingerprint == Key(s.namespace, c.role, c.statement.sql))
  {
    hide Execute, LiveFor, ExtractLimit, BarFree;
    SoundPrefix(calls, k);
    RunConsistent(s, calls[..k]);
    CallIsAnswered(s, TablesAfter(s, calls[..k]), calls[k]);
  }

  lemma OnlyEntry(cache: seq<Entry>, e: Entry, found: Option<nat>)
    requires OnePerFingerprint(cache) && e in cache && found == Find(cache, e.fingerprint)
    ensures found.Some? && cache[found.value] == e
  {
    var j :| 0 <= j < |cache| && cache[j] == e;
  }

  /** A call whose answer may be cached. */
  ghost predicate Stores(s: Settings, calls: seq<Call>, i: nat)
    requires i < |calls|
  {
    && UsesCache(s, calls[i])
    && AnswerAt(s, calls, i).Answer? && !AnswerAt(s, calls, i).cached
  }

  ghost predicate EntryUntil(cache: seq<Entry>, fingerprint: string, time: int) {
    exists e :: e in cache && e.fingerprint == fingerprint && e.expiresAt >= time
  }

  lemma TablesStep(s: Settings, calls: seq<Call>, n: nat)
    requires n < |calls|
    ensures TablesAfter(s, calls[..n + 1]) == Execute(s, TablesAfter(s, calls[..n]), calls[n]).0
  {
    assert calls[..n + 1][..n] == calls[..n];
  }

  lemma TablesUnique(s: Settings, calls: seq<Call>, n: nat)
    requires Sound(calls) && n <= |calls|
    ensures OnePerFingerprint(TablesAfter(s, calls[..n]).cache)
  {
    hide Sound, EntryConsistent, Execute;
    SoundPrefix(calls, n);
    RunConsistent(s, calls[..n]);
  }

  lemma StoredLater(calls: seq<Call>, i: nat, j: nat)
    requires Sound(calls) && i < j < |calls|
    ensures calls[i].clock.stored <= calls[j].clock.stored
  {
    hide ExtractLimit, BarFree;
  }

  lemma FirstStored(s: Settings, calls: seq<Call>, i: nat)
    requires Sound(calls) && i < |calls| && Stores(s, calls, i)
    ensures var t := TablesAfter(s, calls[..i]);
      EntryUntil(Execute(s, t, calls[i]).0.cache, CallKey(s, calls[i]), calls[i].clock.stored + s.ttl)
  {
    hide Execute, CallKey, EntryUntil, TablesAfter, OnePerFingerprint, Sound;
    TablesUnique(s, calls, i);
    StoredIsThere(s, TablesAfter(s, calls[..i]), calls[i]);
  }

  lemma {:induction false} EntryStays(s: Settings, calls: seq<Call>, i: nat, n: nat)
    requires Sound(calls) && i < n <= |calls| && Stores(s, calls, i)
    requires forall j :: i < j < n ==> calls[j].clock.start <= calls[i].clock.stored + s.ttl
    ensures EntryUntil(TablesAfter(s, calls[..n]).cache, CallKey(s, calls[i]), calls[i].clock.stored + s.ttl)
    decreases n
  {
    hide Execute, CallKey, EntryUntil, TablesAfter, OnePerFingerprint, Sound, Stores;
    TablesStep(s, calls, n - 1);
    TablesUnique(s, calls, n - 1);
    var t, c := TablesAfter(s, calls[..n - 1]), calls[n - 1];
    if n - 1 == i {
      FirstStored(s, calls, i);
    } else {
      EntryStays(s, calls, i, n - 1);
      StoredLater(calls, i, n - 1);
      EntryOutlivesCall(s, t, c, CallKey(s, calls[i]), calls[i].clock.stored + s.ttl);
    }
  }

  lemma StoredIsThere(s: Settings, t: Tables, c: Call)
    requires OnePerFingerprint(t.cache) && UsesCache(s, c)
    requires Execute(s, t, c).1.Answer? && !Execute(s, t, c).1.cached
    ensures EntryUntil(Execute(s, t, c).0.cache, CallKey(s, c), c.clock.stored + s.ttl)
  {
    hide CallKey, Upserted, Touched, Kept, Prune;
    PruneKeepsLiveEntries(t.cache, c.clock.start);
    UpsertedMeans(s, Prune(t.cache, c.clock.start), c, Kept(c.outcome.rows, c.statement.rowLimit));
  }

  lemma EntryOutlivesCall(s: Settings, t: Tables, c: Call, fingerprint: string, time: int)
    requires OnePerFingerprint(t.cache) && EntryUntil(t.cache, fingerprint, time)
    requires c.clock.start <= time <= c.clock.stored + s.ttl
    ensures EntryUntil(Execute(s, t, c).0.cache, fingerprint, time)
  {
    hide CallKey, Upserted, Touched, Kept, Prune;
    PruneKeepsLiveEntries(t.cache, c.clock.start);
    var e :| e in t.cache && e.fingerprint == fingerprint && e.expiresAt >= time;
    var cache := if UsesCache(s, c) then Prune(t.cache, c.clock.start) else t.cache;
    assert e in cache;
    var hit := if UsesCache(s, c) then Lookup(s, cache, c) else None;
    if hit.Some? {
      TouchedKeeps(cache, hit.value, c.clock.check, e);
    } else if c.outcome.Returned? && UsesCache(s, c) {
      UpsertedMeans(s, cache, c, Kept(c.outcome.rows, c.statement.rowLimit));
    }
  }

  lemma TouchedKeeps(cache: seq<Entry>, i: nat, now: int, e: Entry)
    requires i < |cache| && e in cache
    ensures EntryUntil(Touched(cache, i, now), e.fingerprint, e.expiresAt)
  {
    var j :| 0 <= j < |cache| && cache[j] == e;
    assert Touched(cache, i, now)[j] in Touched(cache, i, now);
  }

  /** Whatever runs in between, a call with the key of an earlier one whose answer was stored is
      served from the cache as long as the time to live has not passed. */
  lemma RepeatIsServed(s: Settings, calls: seq<Call>, i: nat, k: nat)
    requires Sound(calls) && i < k < |calls| && Stores(s, calls, i)
    requires CallKey(s, calls[i]) == CallKey(s, calls[k])
    requires calls[k].useCache && calls[k].connected && calls[k].clock.check <= calls[i].clock.stored + s.ttl
    ensures AnswerAt(s, calls, k).Answer? && AnswerAt(s, calls, k).cached
  {
    hide AnswerAt, Key, ExtractLimit, BarFree;
    var c, c' := calls[i], calls[k];
    KeyDeterminesLimit(s.namespace, c.role, c.statement.sql, c'.role, c'.statement.sql);
    EntryStays(s, calls, i, k);
    EachCallIsAnswered(s, calls, k);
  }

  /** No answer, cached or not, has more rows than the call's own validated limit. */
  lemma AnswersWithinLimit(s: Settings, calls: seq<Call>, k: nat)
    requires Sound(calls) && k < |calls| && AnswerAt(s, calls, k).Answer?
    ensures |AnswerAt(s, calls, k).rows| <= calls[k].statement.rowLimit
  {
    AnswersComeFromDatabase(s, calls, k);
  }

  /** The database as a function of time and statement text. */
  type Database = (int, string) -> DatabaseAnswer

  ghost predicate RecordedFrom(calls: seq<Call>, db: Database) {
    forall i :: 0 <= i < |calls| ==> calls[i].outcome == db(calls[i].clock.answered, calls[i].statement.sql)
  }

  /** The assumption the key makes: statements of one normal form have the same answer. */
  ghost predicate RespectsNormalForm(db: Database) {
    forall t, a, b :: Normalize(a) == Normalize(b) ==> db(t, a) == db(t, b)
  }

  /** The cached executor refines the direct one: under the key's assumption each answer is
      what the database gives for this very statement, at an instant no further back than the
      time to live plus the time the answer took to be stored. */
  lemma CachedRefinesDirect(s: Settings, calls: seq<Call>, k: nat, db: Database, delay: nat)
    requires Sound(calls) && k < |calls| && AnswerAt(s, calls, k).Answer?
    requires RecordedFrom(calls, db) && RespectsNormalForm(db)
    requires forall i :: 0 <= i < |calls| ==> calls[i].clock.stored - calls[i].clock.answered <= delay
    ensures var a, c := AnswerAt(s, calls, k), calls[k];
      exists t :: t <= c.clock.answered && c.clock.check - t <= s.ttl + delay
        && db(t, c.statement.sql).Returned?
        && FirstRows(a.rows, db(t, c.statement.sql).rows, c.statement.rowLimit)
  {
    AnswersComeFromDatabase(s, calls, k);
    var a, c := AnswerAt(s, calls, k), calls[k];
    var i: nat :| i <= k && Supplies(s, calls, i, k, a);
    var source := calls[i];
    KeyDeterminesParts(s.namespace, source.role, source.statement.sql, c.role, c.statement.sql);
    var t := source.clock.answered;
    assert db(t, c.statement.sql) == source.outcome;
  }

  /** Measured from the database's answer rather than from its storing, the time to live
      alone does not bound the age of a hit: an answer stored `late` after it was given can
      be served at age ttl + late. */
  lemma HitsCanBeOlderThanTtl(s: Settings, sql: string, late: nat)
    requires s.cacheEnabled && s.ttl >= 1 && ExtractLimit(sql) == Some(1) && 1 <= s.maxCachedRows
    ensures exists calls: seq<Call> ::
      && |calls| == 2 && Sound(calls) && AnswerAt(s, calls, 1).Answer? && AnswerAt(s, calls, 1).cached
      && calls[1].clock.check - calls[0].clock.answered == s.ttl + late
  {
    hide Key, ExtractLimit;
    var c0 := Call(Statement(sql, 1, 0.0), "", true, true, Clock(0, 0, 0, late, late), Returned([]));
    var now := late + s.ttl;
    var c1 := c0.(clock := Clock(now, now, now, now, now));
    var calls := [c0, c1];
    assert BarFree(AsciiText.Lower(AsciiText.Strip("")));
    assert Sound(calls);
    var t0 := Tables([], []);
    var t1 := Execute(s, t0, c0).0;
    assert t1.cache == [NewEntry(s, c0, [])];
    assert [c0][..0] == [] && TablesAfter(s, []) == t0;
    assert TablesAfter(s, [c0]) == t1;
    assert calls[..1] == [c0];
    assert Expired(t1.cache, now, PRUNE_BATCH) == [];
    assert Prune(t1.cache, now) == t1.cache;
    assert CallKey(s, c0) == CallKey(s, c1);
    assert AnswerAt(s, calls, 1).cached;
  }

  // ---- Statements that share a key without meaning the same ----

  /** A database that answers statements of one meaning alike, and may answer others apart. */
  ghost predicate Exact(db: Database) {
    forall t, a, b :: Canonical(a) == Canonical(b) ==> db(t, a) == db(t, b)
  }

  /** The answer to call k is what the database gives for its own statement at the time call i
      was answered. */
  ghost predicate RightFor(db: Database, calls: seq<Call>, i: nat, k: nat, a: Answer)
    requires i < |calls| && k < |calls| && a.Answer?
  {
    var given := db(calls[i].clock.answered, calls[k].statement.sql);
    given.Returned? && FirstRows(a.rows, given.rows, calls[k].statement.rowLimit)
  }

  ghost predicate Answered(calls: seq<Call>, j: int, t: int, meaning: string) {
    0 <= j < |calls| && calls[j].clock.answered == t && Canonical(calls[j].statement.sql) == meaning
  }

  /** What the calls recorded for a meaning at a time, and a failure where they recorded nothing. */
  ghost function RecordedAt(calls: seq<Call>, t: int, meaning: string): DatabaseAnswer {
    if exists j :: Answered(calls, j, t, meaning) then
      var j :| Answered(calls, j, t, meaning);
      calls[j].outcome
    else Failed("")
  }

  ghost function Recorder(calls: seq<Call>): Database {
    (t, sql) => RecordedAt(calls, t, Canonical(sql))
  }

  lemma AnsweredInOrder(calls: seq<Call>)
    requires Sound(calls)
    ensures forall i, j :: 0 <= i < j < |calls| ==> calls[i].clock.answered < calls[j].clock.answered
  {
    hide ExtractLimit, BarFree;
  }

  lemma RecorderIsExact(calls: seq<Call>)
    requires Sound(calls)
    ensures Exact(Recorder(calls)) && RecordedFrom(calls, Recorder(calls))
  {
    hide Canonical, Sound;
    AnsweredInOrder(calls);
    forall i | 0 <= i < |calls|
      ensures RecordedAt(calls, calls[i].clock.answered, Canonical(calls[i].statement.sql)) == calls[i].outcome
    {
      assert Answered(calls, i, calls[i].clock.answered, Canonical(calls[i].statement.sql));
    }
  }

  lemma RecorderTellsApart(calls: seq<Call>, i: nat, sql: string)
    requires Sound(calls) && i < |calls| && Canonical(calls[i].statement.sql) != Canonical(sql)
    ensures Recorder(calls)(calls[i].clock.answered, sql).Failed?
  {
    hide Canonical, Sound;
    AnsweredInOrder(calls);
  }

  /** A cached answer supplied by an earlier call is right, for every exact database the calls
      were recorded from, if and only if the two statements have the same canonical form; the
      entry keeps its text, so this can be checked at the hit. */
  lemma HitIsRightIffSameMeaning(s: Settings, calls: seq<Call>, i: nat, k: nat)
    requires Sound(calls) && i < k < |calls| && AnswerAt(s, calls, k).Answer? && AnswerAt(s, calls, k).cached
    requires Supplies(s, calls, i, k, AnswerAt(s, calls, k))
    ensures (forall db: Database | Exact(db) && RecordedFrom(calls, db) ::
               RightFor(db, calls, i, k, AnswerAt(s, calls, k)))
      <==> Canonical(calls[i].statement.sql) == Canonical(calls[k].statement.sql)
  {
    hide Canonical, AnswerAt, CallKey;
    var a := AnswerAt(s, calls, k);
    if Canonical(calls[i].statement.sql) == Canonical(calls[k].statement.sql) {
      forall db: Database | Exact(db) && RecordedFrom(calls, db) ensures RightFor(db, calls, i, k, a) {
        assert db(calls[i].clock.answered, calls[k].statement.sql) == calls[i].outcome;
      }
    } else {
      RecorderIsExact(calls);
      RecorderTellsApart(calls, i, calls[k].statement.sql);
      assert !RightFor(Recorder(calls), calls, i, k, a);
    }
  }

  /** So, for statements without comments, exactly if they have the same literals, the same quoted
      identifiers and, up to letter case and spacing, the same code. */
  lemma HitIsRightIffSameTokens(s: Settings, calls: seq<Call>, i: nat, k: nat, a: T.Statement, b: T.Statement)
    requires Sound(calls) && i < k < |calls| && AnswerAt(s, calls, k).Answer? && AnswerAt(s, calls, k).cached
    requires Supplies(s, calls, i, k, AnswerAt(s, calls, k))
    requires T.IsStatement(a) && calls[i].statement.sql == T.TextOf(a) && Tight(T.TextOf(a))
    requires OrdinaryQuotes(T.TextOf(a))
    requires T.IsStatement(b) && calls[k].statement.sql == T.TextOf(b) && Tight(T.TextOf(b))
    requires OrdinaryQuotes(T.TextOf(b))
    ensures (forall db: Database | Exact(db) && RecordedFrom(calls, db) ::
               RightFor(db, calls, i, k, AnswerAt(s, calls, k)))
      <==> T.SameTokens(a, b)
  {
    hide Canonical, AnswerAt, CallKey, Supplies, Exact, RecordedFrom, RightFor, Sound, T.SameTokens;
    hide T.IsStatement, Tight;
    hide OrdinaryQuotes, T.TextOf;
    HitIsRightIffSameMeaning(s, calls, i, k);
    T.CanonicalIffSameTokens(a, b);
  }

  /** Two calls that differ in a literal's letter case: the second is served rows the database
      never gives for its statement. */
  lemma WrongRowsServed(s: Settings) returns (calls: seq<Call>, db: Database)
    requires s.cacheEnabled && s.ttl >= 1 && s.maxCachedRows >= 5
    ensures |calls| == 2 && Sound(calls) && Exact(db) && RecordedFrom(calls, db)
    ensures exists row: Row :: calls == [TwoCalls(row).0, TwoCalls(row).1]
    ensures calls[0].statement.sql == Asking("DONE") && calls[1].statement.sql == Asking("done")
    ensures AnswerAt(s, calls, 1).Answer? && AnswerAt(s, calls, 1).cached
    ensures forall t :: db(t, calls[1].statement.sql) == Returned([]) && AnswerAt(s, calls, 1).rows != []
  {
    hide Asking, Canonical, Normalize, PlainValue, Sound, Exact, RecordedFrom, AnswerAt;
    ShortValues();
    AskingCollides("DONE", "done");
    var row: Row := map["status_order" := "DONE"];
    var (c0, c1) := TwoCalls(row);
    calls := [c0, c1];
    db := Told(row);
    TwoCallsAreSound(row);
    SecondIsServed(s, c0, c1, row);
  }

  lemma ShortValues()
    ensures PlainValue("DONE") && PlainValue("done") && SameUpToCase("DONE", "done")
  {
  }

  function TwoCalls(row: Row): (Call, Call) {
    (Call(Statement(Asking("DONE"), 5, 0.0), "", true, true, Clock(0, 0, 0, 0, 0), Returned([row])),
     Call(Statement(Asking("done"), 5, 0.0), "", true, true, Clock(1, 1, 1, 1, 1), Returned([])))
  }

  function Told(row: Row): Database {
    (t, sql) => if Canonical(sql) == Canonical(Asking("DONE")) then Returned([row]) else Returned([])
  }

  lemma TwoCallsAreSound(row: Row)
    ensures var calls := [TwoCalls(row).0, TwoCalls(row).1];
      Sound(calls) && Exact(Told(row)) && RecordedFrom(calls, Told(row))
    ensures forall t :: Told(row)(t, Asking("done")) == Returned([])
  {
    hide Asking, Canonical, Normalize, ExtractLimit, PlainValue;
    ShortValues();
    AskingLimit("DONE");
    AskingLimit("done");
    AskingCollides("DONE", "done");
    assert BarFree(AsciiText.Lower(AsciiText.Strip("")));
  }

  lemma SameKeys(s: Settings, c: Call, c': Call)
    requires c.role == c'.role && Normalize(c.statement.sql) == Normalize(c'.statement.sql)
    ensures CallKey(s, c) == CallKey(s, c')
  {
    hide Normalize;
  }

  lemma SecondIsServed(s: Settings, c0: Call, c1: Call, row: Row)
    requires s.cacheEnabled && s.ttl >= 1 && s.maxCachedRows >= 5
    requires c0.statement.rowLimit == 5 && c1.statement.rowLimit == 5
    requires c0.role == c1.role && Normalize(c0.statement.sql) == Normalize(c1.statement.sql)
    requires c0.useCache && c0.connected && c1.useCache && c1.connected && c0.outcome == Returned([row])
    requires c0.clock == Clock(0, 0, 0, 0, 0) && c1.clock == Clock(1, 1, 1, 1, 1)
    ensures var a := AnswerAt(s, [c0, c1], 1); a.Answer? && a.cached && a.rows == [row]
  {
    hide CallKey, Normalize;
    SameKeys(s, c0, c1);
    var t0 := Tables([], []);
    var t1 := Execute(s, t0, c0).0;
    assert t1.cache == [NewEntry(s, c0, [row])];
    assert [c0][..0] == [] && TablesAfter(s, []) == t0;
    assert TablesAfter(s, [c0]) == t1;
    assert [c0, c1][..1] == [c0];
    assert Expired(t1.cache, 1, PRUNE_BATCH) == [];
    assert Prune(t1.cache, 1) == t1.cache;
  }

  // ---- Audits ----

  function AuditFor(s: Settings, c: Call, a: Answer): Audit {
    match a
    case Answer(rows, _, cached, fingerprint) =>
      Audit(fingerprint, c.role, c.statement.sql, cached, |rows|, true, c.clock.done)
    case Raised(_) =>
      Audit(Key(s.namespace, c.role, c.statement.sql), c.role, c.statement.sql, false, 0, false, c.clock.done)
  }

  /** One audit row for each connected call, in order, telling how it was answered. */
  function AuditLog(s: Settings, calls: seq<Call>): seq<Audit> {
    if calls == [] then []
    else
      var n := |calls| - 1;
      AuditLog(s, calls[..n])
        + if calls[n].connected then [AuditFor(s, calls[n], Execute(s, TablesAfter(s, calls[..n]), calls[n]).1)] else []
  }

  /** The audit table is exactly the log of the calls: hits, database answers and errors, one
      row per connected call and nothing else. */
  lemma {:induction false} AuditsAreTheLog(s: Settings, calls: seq<Call>)
    requires Sound(calls)
    ensures TablesAfter(s, calls).audits == AuditLog(s, calls)
  {
    if calls != [] {
      var n := |calls| - 1;
      SoundPrefix(calls, n);
      AuditsAreTheLog(s, calls[..n]);
      var answer := AnswerAt(s, calls, n);
      if answer.Answer? && answer.cached {
        HitCountsItsRows(s, calls, n);
      }
    }
  }

  lemma HitCountsItsRows(s: Settings, calls: seq<Call>, k: nat)
    requires Sound(calls) && k < |calls| && AnswerAt(s, calls, k).Answer?
    ensures AnswerAt(s, calls, k).rowCount == |AnswerAt(s, calls, k).rows|
  {
    if AnswerAt(s, calls, k).cached {
      var t, c := TablesAfter(s, calls[..k]), calls[k];
      SoundPrefix(calls, k);
      RunConsistent(s, calls[..k]);
      PruneKeepsLiveEntries(t.cache, c.clock.start);
      var cache := Prune(t.cache, c.clock.start);
      var e := cache[Lookup(s, cache, c).value];
      assert e in cache && e in t.cache;
      EntrySupplies(s, calls, k, e);
    }
  }
}
