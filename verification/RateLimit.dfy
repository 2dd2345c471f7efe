/** The two fixed-window limiters, in memory and in the database, as one machine. */
module RateLimit {
  import opened Prelude

  type LimitKey = nat

  /** `max` attempts per window of `windowMs` milliseconds. */
  datatype Settings = Settings(max: nat, windowMs: nat)

  predicate ValidSettings(s: Settings) {
    1 <= s.max <= MAX_SAFE_INTEGER && 1 <= s.windowMs <= MAX_SAFE_INTEGER
  }

  // ----- in memory -----

  datatype Window = Window(count: nat, resetsAt: Time)

  type Entries = map<LimitKey, Window>

  predicate LiveWindow(entries: Entries, key: LimitKey, now: Time) {
    key in entries && entries[key].resetsAt > now
  }

  /** The entries left after the eviction loop. */
  function Evicted(entries: Entries, now: Time): Entries {
    map key | key in entries && entries[key].resetsAt > now :: entries[key]
  }

  datatype Answer<+T> = Answer(state: T, accepted: bool)

  /** `FixedWindowRateLimiter.consume`. */
  function MemoryStep(s: Settings, maximumKeys: nat, entries: Entries, key: LimitKey, now: Time): Answer<Entries> {
    if LiveWindow(entries, key, now) then
      var count := entries[key].count + 1;
      Answer(entries[key := entries[key].(count := count)], count <= s.max)
    else
      var room := if key !in entries && |entries| >= maximumKeys then Evicted(entries, now) else entries;
      if key !in entries && |room| >= maximumKeys then Answer(room, false)
      else Answer(room[key := Window(1, now + s.windowMs)], true)
  }

  class FixedWindowRateLimiter {
    const settings: Settings
    const maximumKeys: nat
    var entries: Entries

    constructor (settings: Settings, maximumKeys: nat)
      requires ValidSettings(settings) && 1 <= maximumKeys
      ensures this.settings == settings && this.maximumKeys == maximumKeys && entries == map[]
    {
      this.settings, this.maximumKeys, entries := settings, maximumKeys, map[];
    }

    method Consume(key: LimitKey, now: Time) returns (accepted: bool)
      modifies this
      ensures Answer(entries, accepted) == MemoryStep(settings, maximumKeys, old(entries), key, now)
    {
      if key in entries && entries[key].resetsAt > now {
        entries := entries[key := entries[key].(count := entries[key].count + 1)];
        return entries[key].count <= settings.max;
      }
      if key !in entries && |entries| >= maximumKeys {
        Evict(now);
        if |entries| >= maximumKeys {
          return false;
        }
      }
      entries := entries[key := Window(1, now + settings.windowMs)];
      return true;
    }

    /** The loop that drops every window that is over. */
    method Evict(now: Time)
      modifies this
      ensures entries == Evicted(old(entries), now)
    {
      var candidates := entries.Keys;
      while candidates != {}
        invariant candidates <= entries.Keys <= old(entries).Keys
        invariant forall key | key in entries :: entries[key] == old(entries)[key]
        invariant forall key | key in old(entries) && key !in candidates ::
                    key in entries <==> old(entries)[key].resetsAt > now
        decreases candidates
      {
        var candidate :| candidate in candidates;
        if entries[candidate].resetsAt <= now {
          entries := entries - {candidate};
        }
        candidates := candidates - {candidate};
      }
    }
  }

  // ----- in the database -----

  datatype Row = Row(startedAt: Time, expiresAt: Time, requestCount: nat)

  type Rows = map<LimitKey, Row>

  predicate LiveRow(rows: Rows, key: LimitKey, now: Time) {
    key in rows && rows[key].expiresAt > now
  }

  predicate StorableWindow(s: Settings, now: Time) {
    ValidDate(now) && ValidDate(now + s.windowMs)
  }

  /** The conditional upsert of `DrizzleAuthRateLimiter.consume`. */
  function RowStep(s: Settings, rows: Rows, key: LimitKey, now: Time): Answer<Rows> {
    if key !in rows then Answer(rows[key := Row(now, now + s.windowMs, 1)], true)
    else
      var row := rows[key];
      if row.expiresAt <= now || row.requestCount < s.max then
        Answer(rows[key := Row(if row.expiresAt <= now then now else row.startedAt,
                               if row.expiresAt <= now then now + s.windowMs else row.expiresAt,
                               if row.expiresAt <= now then 1 else row.requestCount + 1)], true)
      else Answer(rows, false)
  }

  class DatabaseRateLimiter {
    const settings: Settings
    var rows: Rows

    constructor (settings: Settings)
      requires ValidSettings(settings)
      ensures this.settings == settings && rows == map[]
    {
      this.settings, rows := settings, map[];
    }

    method Consume(key: LimitKey, now: Time) returns (r: Result<bool, Error>)
      modifies this
      ensures r.Err? <==> !StorableWindow(settings, now)
      ensures r.Err? ==> rows == old(rows)
      ensures r.Ok? ==> Answer(rows, r.value) == RowStep(settings, old(rows), key, now)
    {
      if !ValidDate(now) || !ValidDate(now + settings.windowMs) {
        return Err(InvalidInput);
      }
      if key !in rows {
        rows := rows[key := Row(now, now + settings.windowMs, 1)];
        return Ok(true);
      }
      var row := rows[key];
      if row.expiresAt <= now {
        rows := rows[key := Row(now, now + settings.windowMs, 1)];
        return Ok(true);
      }
      if row.requestCount < settings.max {
        rows := rows[key := row.(requestCount := row.requestCount + 1)];
        return Ok(true);
      }
      return Ok(false);
    }

    /**
     * `deleteExpired`, passing over rows others hold: it deletes expired rows only, the longest expired first,
     * at most `limit` of them and as many as that allows.
     */
    method DeleteExpired(before: Time, limit: nat, locked: set<LimitKey>) returns (deleted: set<LimitKey>)
      modifies this
      ensures rows == old(rows) - deleted && |deleted| <= limit
      ensures forall key | key in deleted :: key in old(rows) && key !in locked && old(rows)[key].expiresAt <= before
      ensures forall key, kept | key in deleted && kept in rows && kept !in locked && rows[kept].expiresAt <= before ::
                old(rows)[key].expiresAt <= rows[kept].expiresAt
      ensures |deleted| < limit ==> forall key | key in rows && key !in locked :: rows[key].expiresAt > before
    {
      deleted := {};
      var waiting := set key | key in rows && key !in locked && rows[key].expiresAt <= before;
      while |deleted| < limit && waiting != {}
        invariant |deleted| <= limit && deleted !! waiting
        invariant rows == old(rows) - deleted
        invariant forall key | key in deleted ::
                    key in old(rows) && key !in locked && old(rows)[key].expiresAt <= before
        invariant forall key :: key in waiting <==>
                    key in old(rows) && key !in locked && old(rows)[key].expiresAt <= before && key !in deleted
        invariant forall key, kept | key in deleted && kept in waiting ::
                    old(rows)[key].expiresAt <= old(rows)[kept].expiresAt
        decreases waiting
      {
        LongestExpired(rows, waiting);
        var key :| key in waiting && forall other | other in waiting :: rows[key].expiresAt <= rows[other].expiresAt;
        rows := rows - {key};
        deleted := deleted + {key};
        waiting := waiting - {key};
      }
    }
  }

  lemma {:induction false} LongestExpired(rows: Rows, keys: set<LimitKey>)
    requires keys != {} && keys <= rows.Keys
    ensures exists key :: key in keys && forall other | other in keys :: rows[key].expiresAt <= rows[other].expiresAt
    decreases keys
  {
    var some :| some in keys;
    if keys != {some} {
      var rest := keys - {some};
      LongestExpired(rows, rest);
      var key :| key in rest && forall other | other in rest :: rows[key].expiresAt <= rows[other].expiresAt;
      var least := if rows[some].expiresAt <= rows[key].expiresAt then some else key;
      assert forall other | other in keys :: other == some || other in rest;
      assert least in keys && forall other | other in keys :: rows[least].expiresAt <= rows[other].expiresAt;
    }
  }

  // ----- traces -----

  /** What happens to a limiter: a call, or a cleanup that removes some rows that are over. */
  datatype Op =
    | Call(key: LimitKey, at: Time)
    | Clean(removed: set<LimitKey>, at: Time)

  predicate Ordered(ops: seq<Op>, from: Time) {
    && (forall i | 0 <= i < |ops| :: from <= ops[i].at)
    && (forall i, j | 0 <= i < j < |ops| :: ops[i].at <= ops[j].at)
  }

  function MemoryAfter(s: Settings, maximumKeys: nat, entries: Entries, op: Op): Answer<Entries> {
    match op
    case Call(key, at) => MemoryStep(s, maximumKeys, entries, key, at)
    case Clean(_, _) => Answer(entries, false)
  }

  /** A cleanup only takes rows that are over by then. */
  function RowsAfter(s: Settings, rows: Rows, op: Op): Answer<Rows> {
    match op
    case Call(key, at) => RowStep(s, rows, key, at)
    case Clean(removed, at) =>
      Answer(map key | key in rows && (key !in removed || rows[key].expiresAt > at) :: rows[key], false)
  }

  /** What `deleteExpired` deletes, it could delete as a cleanup of a trace: rows that are over, and nothing else. */
  lemma DeletionIsCleanup(s: Settings, rows: Rows, deleted: set<LimitKey>, at: Time)
    ensures var after := RowsAfter(s, rows, Clean(deleted, at)).state;
            && (forall key | key in after :: key in rows && after[key] == rows[key])
            && (forall key | key in rows :: key !in after <==> key in deleted && rows[key].expiresAt <= at)
    ensures (forall key | key in deleted :: key in rows && rows[key].expiresAt <= at) ==>
              RowsAfter(s, rows, Clean(deleted, at)).state == rows - deleted
  {
  }

  /** The answers to the calls of a trace, in order. */
  function MemoryAnswers(s: Settings, maximumKeys: nat, entries: Entries, ops: seq<Op>): (a: seq<bool>)
    ensures |a| == |ops|
    decreases |ops|
  {
    if ops == [] then []
    else
      var next := MemoryAfter(s, maximumKeys, entries, ops[0]);
      [next.accepted] + MemoryAnswers(s, maximumKeys, next.state, ops[1..])
  }

  function RowAnswers(s: Settings, rows: Rows, ops: seq<Op>): (a: seq<bool>)
    ensures |a| == |ops|
    decreases |ops|
  {
    if ops == [] then []
    else
      var next := RowsAfter(s, rows, ops[0]);
      [next.accepted] + RowAnswers(s, next.state, ops[1..])
  }

  function KeysOf(ops: seq<Op>): set<LimitKey> {
    set i | 0 <= i < |ops| && ops[i].Call? :: ops[i].key
  }

  // ----- the two are the same machine -----

  predicate SameKeyState(s: Settings, entries: Entries, rows: Rows, key: LimitKey, now: Time) {
    && (LiveWindow(entries, key, now) <==> LiveRow(rows, key, now))
    && (LiveWindow(entries, key, now) ==>
          && rows[key].expiresAt == entries[key].resetsAt
          && rows[key].requestCount == if entries[key].count < s.max then entries[key].count else s.max)
  }

  /** The live windows agree, where memory counts on and the database stops counting at the maximum. */
  ghost predicate Bisimilar(s: Settings, entries: Entries, rows: Rows, now: Time) {
    forall key: LimitKey :: SameKeyState(s, entries, rows, key, now)
  }

  lemma BisimilarLater(s: Settings, entries: Entries, rows: Rows, now: Time, later: Time)
    requires Bisimilar(s, entries, rows, now) && now <= later
    ensures Bisimilar(s, entries, rows, later)
  {
    forall key: LimitKey ensures SameKeyState(s, entries, rows, key, later) {
      assert SameKeyState(s, entries, rows, key, now);
    }
  }

  /** Whether memory turns a new key away for want of room. */
  predicate NoRoom(maximumKeys: nat, entries: Entries, key: LimitKey, now: Time) {
    key !in entries && |Evicted(entries, now)| >= maximumKeys
  }

  lemma EvictedKeepsLive(entries: Entries, now: Time)
    ensures forall key :: LiveWindow(Evicted(entries, now), key, now) <==> LiveWindow(entries, key, now)
    ensures Evicted(entries, now).Keys <= entries.Keys
  {
  }

  lemma EvictedIsSmaller(entries: Entries, now: Time)
    ensures |Evicted(entries, now)| <= |entries|
  {
    SubsetSize(Evicted(entries, now).Keys, entries.Keys);
  }

  /** One call on bisimilar states gets the same answer and leaves bisimilar states, when memory has room. */
  lemma SameAnswer(s: Settings, maximumKeys: nat, entries: Entries, rows: Rows, key: LimitKey, now: Time)
    requires ValidSettings(s) && Bisimilar(s, entries, rows, now) && !NoRoom(maximumKeys, entries, key, now)
    ensures var m, r := MemoryStep(s, maximumKeys, entries, key, now), RowStep(s, rows, key, now);
            m.accepted == r.accepted && Bisimilar(s, m.state, r.state, now)
  {
    var m, r := MemoryStep(s, maximumKeys, entries, key, now), RowStep(s, rows, key, now);
    EvictedKeepsLive(entries, now);
    EvictedIsSmaller(entries, now);
    assert SameKeyState(s, entries, rows, key, now);
    forall other: LimitKey ensures SameKeyState(s, m.state, r.state, other, now) {
      assert SameKeyState(s, entries, rows, other, now);
    }
  }

  lemma SameAfterClean(s: Settings, entries: Entries, rows: Rows, op: Op)
    requires op.Clean? && Bisimilar(s, entries, rows, op.at)
    ensures Bisimilar(s, entries, RowsAfter(s, rows, op).state, op.at)
  {
    forall key: LimitKey ensures SameKeyState(s, entries, RowsAfter(s, rows, op).state, key, op.at) {
      assert SameKeyState(s, entries, rows, key, op.at);
    }
  }

  /** Below capacity: all keys the trace and the entries ever hold fit into memory. */
  lemma RoomForKeys(maximumKeys: nat, entries: Entries, keys: set<LimitKey>, key: LimitKey, now: Time)
    requires entries.Keys <= keys && key in keys && |keys| <= maximumKeys
    ensures !NoRoom(maximumKeys, entries, key, now)
  {
    if key !in entries {
      SubsetSize(entries.Keys + {key}, keys);
      EvictedIsSmaller(entries, now);
    }
  }

  lemma MemoryKeys(s: Settings, maximumKeys: nat, entries: Entries, key: LimitKey, now: Time)
    ensures MemoryStep(s, maximumKeys, entries, key, now).state.Keys <= entries.Keys + {key}
  {
  }

  lemma KeysOfHead(ops: seq<Op>)
    requires ops != []
    ensures KeysOf(ops[1..]) <= KeysOf(ops)
    ensures ops[0].Call? ==> ops[0].key in KeysOf(ops)
  {
    assert forall i | 0 <= i < |ops| - 1 :: ops[1..][i] == ops[i + 1];
  }

  /**
   * On every trace whose times do not go back and whose keys fit into memory, the two limiters give the same
   * answer at every call, whatever expired rows are cleaned away in between.
   */
  lemma {:induction false} SameAnswers(
    s: Settings, maximumKeys: nat, entries: Entries, rows: Rows, ops: seq<Op>, from: Time, keys: set<LimitKey>
  )
    requires ValidSettings(s) && Ordered(ops, from) && Bisimilar(s, entries, rows, from)
    requires entries.Keys <= keys && KeysOf(ops) <= keys && |keys| <= maximumKeys
    ensures MemoryAnswers(s, maximumKeys, entries, ops) == RowAnswers(s, rows, ops)
    decreases |ops|
  {
    hide Bisimilar, MemoryStep, RowStep, Evicted, NoRoom, ValidSettings;
    if ops != [] {
      var op := ops[0];
      BisimilarLater(s, entries, rows, from, op.at);
      KeysOfHead(ops);
      if op.Call? {
        RoomForKeys(maximumKeys, entries, keys, op.key, op.at);
        SameAnswer(s, maximumKeys, entries, rows, op.key, op.at);
        MemoryKeys(s, maximumKeys, entries, op.key, op.at);
      } else {
        SameAfterClean(s, entries, rows, op);
      }
      var m, r := MemoryAfter(s, maximumKeys, entries, op), RowsAfter(s, rows, op);
      SameAnswers(s, maximumKeys, m.state, r.state, ops[1..], op.at, keys);
    }
  }

  /** Both start empty. */
  lemma LimitersAgree(s: Settings, maximumKeys: nat, ops: seq<Op>, from: Time)
    requires ValidSettings(s) && Ordered(ops, from) && |KeysOf(ops)| <= maximumKeys
    ensures MemoryAnswers(s, maximumKeys, map[], ops) == RowAnswers(s, map[], ops)
  {
    SameAnswers(s, maximumKeys, map[], map[], ops, from, KeysOf(ops));
  }

  // ----- capacity -----

  /** No call lets the map outgrow its capacity or takes a live window away. */
  lemma StepKeepsCapacity(s: Settings, maximumKeys: nat, entries: Entries, key: LimitKey, now: Time)
    requires |entries| <= maximumKeys
    ensures var after := MemoryStep(s, maximumKeys, entries, key, now).state;
            && |after| <= maximumKeys
            && forall other | LiveWindow(entries, other, now) ::
                 && LiveWindow(after, other, now)
                 && after[other].resetsAt == entries[other].resetsAt
                 && after[other].count == entries[other].count + (if other == key then 1 else 0)
  {
    EvictedIsSmaller(entries, now);
    var after := MemoryStep(s, maximumKeys, entries, key, now).state;
    if LiveWindow(entries, key, now) {
      assert after.Keys == entries.Keys;
    } else if key in entries {
      assert after.Keys == entries.Keys;
    }
  }

  /** The entries a trace leaves. */
  function MemoryEnd(s: Settings, maximumKeys: nat, entries: Entries, ops: seq<Op>): Entries
    decreases |ops|
  {
    if ops == [] then entries
    else MemoryEnd(s, maximumKeys, MemoryAfter(s, maximumKeys, entries, ops[0]).state, ops[1..])
  }

  function CallsOf(ops: seq<Op>, key: LimitKey): nat {
    if ops == [] then 0 else (if ops[0].Call? && ops[0].key == key then 1 else 0) + CallsOf(ops[1..], key)
  }

  /**
   * Whatever calls arrive in whatever order, the map stays within its capacity, and a window that none of them
   * outlives is never evicted: it keeps its end, and has counted every call of its key, let through or not.
   */
  lemma {:induction false} CapacityKept(
    s: Settings, maximumKeys: nat, entries: Entries, ops: seq<Op>, key: LimitKey
  )
    requires |entries| <= maximumKeys
    ensures var end := MemoryEnd(s, maximumKeys, entries, ops);
            && |end| <= maximumKeys
            && (key in entries && (forall i | 0 <= i < |ops| :: ops[i].at < entries[key].resetsAt) ==>
                  key in end && end[key] == Window(entries[key].count + CallsOf(ops, key), entries[key].resetsAt))
    decreases |ops|
  {
    hide MemoryStep;
    if ops != [] {
      var op := ops[0];
      var next := MemoryAfter(s, maximumKeys, entries, op).state;
      if op.Call? {
        StepKeepsCapacity(s, maximumKeys, entries, op.key, op.at);
      }
      CapacityKept(s, maximumKeys, next, ops[1..], key);
      assert forall i | 0 <= i < |ops| - 1 :: ops[1..][i] == ops[i + 1];
      assert key in entries && op.at < entries[key].resetsAt && op.Call? ==> LiveWindow(entries, key, op.at);
    }
  }

  // ----- how much gets through -----

  /** Accepted calls of `key` at times in the half-open interval of `length` from `from`. */
  function AcceptedWithin(ops: seq<Op>, answers: seq<bool>, key: LimitKey, from: Time, length: nat): nat
    requires |answers| == |ops|
  {
    if ops == [] then 0
    else
      (if ops[0].Call? && ops[0].key == key && answers[0] && from <= ops[0].at < from + length then 1 else 0)
      + AcceptedWithin(ops[1..], answers[1..], key, from, length)
  }

  /** The calls of `key` at these times that were let through. */
  ghost function LetThrough(ops: seq<Op>, answers: seq<bool>, key: LimitKey, from: Time, length: nat): set<nat> {
    set i: nat | i < |ops| && i < |answers| && ops[i].Call? && ops[i].key == key && answers[i]
                 && from <= ops[i].at < from + length
  }

  lemma {:induction false} AcceptedCounts(ops: seq<Op>, answers: seq<bool>, key: LimitKey, from: Time, length: nat)
    requires |answers| == |ops|
    ensures AcceptedWithin(ops, answers, key, from, length) == |LetThrough(ops, answers, key, from, length)|
    decreases |ops|
  {
    if ops == [] {
      assert LetThrough(ops, answers, key, from, length) == {};
    } else {
      var first := ops[0].Call? && ops[0].key == key && answers[0] && from <= ops[0].at < from + length;
      AcceptedCounts(ops[1..], answers[1..], key, from, length);
      ShiftedSize(LetThrough(ops[1..], answers[1..], key, from, length), LetThrough(ops, answers, key, from, length),
                  first);
    }
  }

  /** The calls of `key` before `end`. */
  ghost function CallsBefore(ops: seq<Op>, key: LimitKey, end: Time): nat {
    if ops == [] then 0
    else (if ops[0].Call? && ops[0].key == key && ops[0].at < end then 1 else 0) + CallsBefore(ops[1..], key, end)
  }

  /** The last window opened for a key, and how many calls it let through: `None` before the first. */
  datatype Last = NoWindow | LastWindow(start: Time, through: nat)

  /** The window may have been evicted by `now`, but only once it was over. */
  predicate Remembers(s: Settings, entries: Entries, key: LimitKey, last: Last, now: Time) {
    && (key in entries ==>
          && last.LastWindow?
          && entries[key].resetsAt == last.start + s.windowMs
          && last.through == if entries[key].count < s.max then entries[key].count else s.max)
    && (last.LastWindow? ==> last.start <= now && 1 <= last.through <= s.max)
    && (key !in entries && last.LastWindow? ==> last.start + s.windowMs <= now)
  }

  /** How the last window of the key moves on with one operation. */
  function LastAfter(s: Settings, entries: Entries, key: LimitKey, last: Last, op: Op, accepted: bool): Last {
    if !op.Call? || op.key != key || !accepted then last
    else if LiveWindow(entries, key, op.at) && last.LastWindow? then last.(through := last.through + 1)
    else LastWindow(op.at, 1)
  }

  lemma RemembersNext(s: Settings, maximumKeys: nat, entries: Entries, key: LimitKey, last: Last, now: Time, op: Op)
    requires ValidSettings(s) && Remembers(s, entries, key, last, now) && now <= op.at
    ensures var next := MemoryAfter(s, maximumKeys, entries, op);
            Remembers(s, next.state, key, LastAfter(s, entries, key, last, op, next.accepted), op.at)
  {
  }

  /** What an interval from `T` may still let through, given the last window: the budget of the double bound. */
  function Budget(s: Settings, last: Last, now: Time, T: Time): int {
    match last
    case NoWindow => 2 * s.max
    case LastWindow(start, through) =>
      if now < T then 2 * s.max
      else if start < T then 2 * s.max - through
      else if start < T + s.windowMs then s.max - through
      else 0
  }

  /** One accepted call uses at least as much of the budget as it counts for. */
  lemma BudgetSpent(
    s: Settings, maximumKeys: nat, entries: Entries, key: LimitKey, last: Last, now: Time, op: Op, T: Time
  )
    requires ValidSettings(s) && Remembers(s, entries, key, last, now) && now <= op.at
    ensures var next := MemoryAfter(s, maximumKeys, entries, op);
            var spent := if op.Call? && op.key == key && next.accepted && T <= op.at < T + s.windowMs then 1 else 0;
            spent + Budget(s, LastAfter(s, entries, key, last, op, next.accepted), op.at, T) <= Budget(s, last, now, T)
            && Budget(s, last, now, T) >= 0
  {
  }

  lemma {:induction false} WithinBudget(
    s: Settings, maximumKeys: nat, entries: Entries, ops: seq<Op>, key: LimitKey, last: Last, now: Time, T: Time
  )
    requires ValidSettings(s) && Ordered(ops, now) && Remembers(s, entries, key, last, now)
    ensures AcceptedWithin(ops, MemoryAnswers(s, maximumKeys, entries, ops), key, T, s.windowMs)
            <= Budget(s, last, now, T)
    decreases |ops|
  {
    hide MemoryStep, Budget, Remembers, LastAfter, ValidSettings;
    if ops == [] {
      BudgetSpent(s, maximumKeys, entries, key, last, now, Clean({}, now), T);
    } else {
      var next := MemoryAfter(s, maximumKeys, entries, ops[0]);
      RemembersNext(s, maximumKeys, entries, key, last, now, ops[0]);
      BudgetSpent(s, maximumKeys, entries, key, last, now, ops[0], T);
      WithinBudget(s, maximumKeys, next.state, ops[1..], key,
                   LastAfter(s, entries, key, last, ops[0], next.accepted), ops[0].at, T);
      assert MemoryAnswers(s, maximumKeys, entries, ops)[1..] == MemoryAnswers(s, maximumKeys, next.state, ops[1..]);
    }
  }

  /** In any interval as long as a window, memory lets at most twice the maximum through for a key. */
  lemma MemoryAtMostTwice(s: Settings, maximumKeys: nat, ops: seq<Op>, from: Time, key: LimitKey, T: Time)
    requires ValidSettings(s) && Ordered(ops, from)
    ensures |LetThrough(ops, MemoryAnswers(s, maximumKeys, map[], ops), key, T, s.windowMs)| <= 2 * s.max
  {
    AcceptedCounts(ops, MemoryAnswers(s, maximumKeys, map[], ops), key, T, s.windowMs);
    WithinBudget(s, maximumKeys, map[], ops, key, NoWindow, from, T);
  }

  /** So does the database, which answers like a memory with room for all the keys. */
  lemma DatabaseAtMostTwice(s: Settings, ops: seq<Op>, from: Time, key: LimitKey, T: Time)
    requires ValidSettings(s) && Ordered(ops, from)
    ensures |LetThrough(ops, RowAnswers(s, map[], ops), key, T, s.windowMs)| <= 2 * s.max
  {
    LimitersAgree(s, |KeysOf(ops)|, ops, from);
    MemoryAtMostTwice(s, |KeysOf(ops)|, ops, from, key, T);
  }

  lemma {:induction false} OpenWindowCounts(
    s: Settings, maximumKeys: nat, entries: Entries, ops: seq<Op>, key: LimitKey, now: Time, length: nat
  )
    requires ValidSettings(s) && Ordered(ops, now) && LiveWindow(entries, key, now)
    requires entries[key].resetsAt == now + length
    ensures var left := if entries[key].count < s.max then s.max - entries[key].count else 0;
            var calls := CallsBefore(ops, key, now + length);
            AcceptedWithin(ops, MemoryAnswers(s, maximumKeys, entries, ops), key, now, length)
            == if calls < left then calls else left
    decreases |ops|
  {
    if ops != [] {
      var op := ops[0];
      var next := MemoryAfter(s, maximumKeys, entries, op);
      var rest := MemoryAnswers(s, maximumKeys, next.state, ops[1..]);
      assert MemoryAnswers(s, maximumKeys, entries, ops)[1..] == rest;
      if op.at < now + length {
        assert LiveWindow(next.state, key, op.at) && next.state[key].resetsAt == now + length by {
          hide MemoryAnswers, AcceptedWithin;
          if op.Call? {
            StaysOpen(s, maximumKeys, entries, op.key, key, op.at);
          }
        }
        OpenWindowCounts(s, maximumKeys, next.state, ops[1..], key, op.at, now + length - op.at);
        LaterStart(ops[1..], rest, key, now, op.at, length);
      } else {
        NothingAfter(ops, MemoryAnswers(s, maximumKeys, entries, ops), key, now, length);
        NoCallsAfter(ops, key, now + length);
      }
    }
  }

  lemma {:induction false} NoCallsAfter(ops: seq<Op>, key: LimitKey, end: Time)
    requires forall i | 0 <= i < |ops| :: end <= ops[i].at
    ensures CallsBefore(ops, key, end) == 0
    decreases |ops|
  {
    if ops != [] {
      NoCallsAfter(ops[1..], key, end);
    }
  }

  /** While a window is open, of the calls before it resets just as many get through as its maximum has left. */
  lemma OpenWindowExactly(
    s: Settings, maximumKeys: nat, entries: Entries, ops: seq<Op>, key: LimitKey, now: Time, length: nat
  )
    requires ValidSettings(s) && Ordered(ops, now) && LiveWindow(entries, key, now)
    requires entries[key].resetsAt == now + length
    ensures var left := if entries[key].count < s.max then s.max - entries[key].count else 0;
            var calls := CallsBefore(ops, key, now + length);
            |LetThrough(ops, MemoryAnswers(s, maximumKeys, entries, ops), key, now, length)|
            == if calls < left then calls else left
  {
    OpenWindowCounts(s, maximumKeys, entries, ops, key, now, length);
    AcceptedCounts(ops, MemoryAnswers(s, maximumKeys, entries, ops), key, now, length);
  }

  lemma StaysOpen(s: Settings, maximumKeys: nat, entries: Entries, called: LimitKey, key: LimitKey, now: Time)
    requires LiveWindow(entries, key, now)
    ensures var after := MemoryStep(s, maximumKeys, entries, called, now).state;
            && LiveWindow(after, key, now) && after[key].resetsAt == entries[key].resetsAt
            && after[key].count == entries[key].count + (if called == key then 1 else 0)
  {
  }

  lemma {:induction false} LaterStart(
    ops: seq<Op>, answers: seq<bool>, key: LimitKey, now: Time, later: Time, length: nat
  )
    requires |answers| == |ops| && now <= later < now + length && forall i | 0 <= i < |ops| :: later <= ops[i].at
    ensures AcceptedWithin(ops, answers, key, now, length)
            == AcceptedWithin(ops, answers, key, later, now + length - later)
    decreases |ops|
  {
    if ops != [] {
      LaterStart(ops[1..], answers[1..], key, now, later, length);
    }
  }

  lemma {:induction false} NothingAfter(ops: seq<Op>, answers: seq<bool>, key: LimitKey, now: Time, length: nat)
    requires |answers| == |ops| && forall i | 0 <= i < |ops| :: now + length <= ops[i].at
    ensures AcceptedWithin(ops, answers, key, now, length) == 0
    decreases |ops|
  {
    if ops != [] {
      NothingAfter(ops[1..], answers[1..], key, now, length);
    }
  }
}
