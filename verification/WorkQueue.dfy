/** The bounded, oldest-first snapshot of transactions that the reconciliation job works on. */
module WorkQueue {
  import opened Prelude
  import opened Tasks
  import opened ChainTransactions
  import opened Store

  /** An entry of the queue. */
  datatype Item = Item(tx: TxId, actor: UserId, intent: Intent)

  /** Broadcast, waiting for the chain, and of one of the intents that have a reconciler. */
  predicate Queued(db: Tables, x: TxId) {
    && x in db.txs
    && db.txs[x].status in {Submitted, UnknownReconcile}
    && db.txs[x].intent in {CreateTask, SubmitReceipt}
    && db.txs[x].hash.Some?
  }

  function QueuedRows(db: Tables): set<TxId> {
    set x | x in db.txs && Queued(db, x)
  }

  lemma QueuedRowsExist(db: Tables)
    ensures QueuedRows(db) <= db.txs.Keys
  {
  }

  /** Primary keys are unique. */
  ghost predicate PrimaryKeys(db: Tables, ids: TxId -> nat) {
    forall x, y | x in db.txs && y in db.txs && ids(x) == ids(y) :: x == y
  }

  /** Updated less recently, or as recently under a smaller primary key. */
  predicate Older(db: Tables, ids: TxId -> nat, x: TxId, y: TxId)
    requires x in db.txs && y in db.txs
  {
    || db.txs[x].updatedAt < db.txs[y].updatedAt
    || (db.txs[x].updatedAt == db.txs[y].updatedAt && ids(x) < ids(y))
  }

  predicate IsOldest(db: Tables, ids: TxId -> nat, rows: set<TxId>, x: TxId)
    requires rows <= db.txs.Keys
  {
    x in rows && forall y | y in rows :: y == x || Older(db, ids, x, y)
  }

  lemma OlderOrders(db: Tables, ids: TxId -> nat, x: TxId, y: TxId)
    requires PrimaryKeys(db, ids) && x in db.txs && y in db.txs && x != y
    ensures Older(db, ids, x, y) != Older(db, ids, y, x)
    ensures forall z | z in db.txs && Older(db, ids, y, z) && Older(db, ids, x, y) :: Older(db, ids, x, z)
  {
  }

  lemma {:induction false} OldestExists(db: Tables, ids: TxId -> nat, rows: set<TxId>)
    requires PrimaryKeys(db, ids) && rows <= db.txs.Keys && rows != {}
    ensures exists x :: IsOldest(db, ids, rows, x)
    decreases rows
  {
    hide PrimaryKeys, Older;
    var z :| z in rows;
    var rest := rows - {z};
    if rest == {} {
      forall y | y in rows ensures y == z {
        assert y !in rest;
      }
      assert IsOldest(db, ids, rows, z);
    } else {
      OldestExists(db, ids, rest);
      var x :| IsOldest(db, ids, rest, x);
      OlderOrders(db, ids, z, x);
      assert IsOldest(db, ids, rows, if Older(db, ids, z, x) then z else x);
    }
  }

  function Oldest(db: Tables, ids: TxId -> nat, rows: set<TxId>): TxId
    requires PrimaryKeys(db, ids) && rows <= db.txs.Keys && rows != {}
  {
    OldestExists(db, ids, rows);
    var x :| x in rows && IsOldest(db, ids, rows, x);
    x
  }

  /** The first `limit` of these rows, oldest first. */
  function Front(db: Tables, ids: TxId -> nat, rows: set<TxId>, limit: nat): seq<TxId>
    requires PrimaryKeys(db, ids) && rows <= db.txs.Keys
    decreases limit
  {
    if limit == 0 || rows == {} then []
    else
      var x := Oldest(db, ids, rows);
      [x] + Front(db, ids, rows - {x}, limit - 1)
  }

  function ItemOf(db: Tables, x: TxId): Item
    requires x in db.txs
  {
    Item(x, db.txs[x].user, db.txs[x].intent)
  }

  /** The rows `listPendingReconciliationTransactions` selects. */
  function Selected(db: Tables, ids: TxId -> nat, limit: nat): (xs: seq<TxId>)
    requires PrimaryKeys(db, ids)
    ensures forall i | 0 <= i < |xs| :: Queued(db, xs[i])
  {
    FrontIsFront(db, ids, QueuedRows(db), limit);
    Front(db, ids, QueuedRows(db), limit)
  }

  /** `listPendingReconciliationTransactions` */
  function Snapshot(db: Tables, ids: TxId -> nat, limit: nat): seq<Item>
    requires PrimaryKeys(db, ids)
  {
    var xs := Selected(db, ids, limit);
    seq(|xs|, i requires 0 <= i < |xs| => ItemOf(db, xs[i]))
  }

  // ----- what the snapshot is -----

  /** The row is none of those before it, and older than every other one that is not. */
  ghost predicate ComesNext(db: Tables, ids: TxId -> nat, rows: set<TxId>, before: seq<TxId>, x: TxId) {
    && x in rows && x in db.txs && x !in before
    && forall y | y in rows && y in db.txs && y !in before :: y == x || Older(db, ids, x, y)
  }

  /** As many of the rows as there are, up to the limit, each the next one after those that precede it. */
  ghost predicate IsFront(db: Tables, ids: TxId -> nat, rows: set<TxId>, limit: nat, xs: seq<TxId>) {
    && |xs| == (if |rows| < limit then |rows| else limit)
    && forall i | 0 <= i < |xs| :: ComesNext(db, ids, rows, xs[..i], xs[i])
  }

  lemma NextOfRest(db: Tables, ids: TxId -> nat, rows: set<TxId>, x: TxId, before: seq<TxId>, y: TxId)
    requires ComesNext(db, ids, rows - {x}, before, y)
    ensures ComesNext(db, ids, rows, [x] + before, y)
  {
  }

  lemma {:induction false} FrontIsFront(db: Tables, ids: TxId -> nat, rows: set<TxId>, limit: nat)
    requires PrimaryKeys(db, ids) && rows <= db.txs.Keys
    ensures IsFront(db, ids, rows, limit, Front(db, ids, rows, limit))
    decreases limit
  {
    hide ComesNext, Older, PrimaryKeys;
    if limit > 0 && rows != {} {
      var x := Oldest(db, ids, rows);
      var rest := Front(db, ids, rows - {x}, limit - 1);
      var xs := [x] + rest;
      FrontIsFront(db, ids, rows - {x}, limit - 1);
      OldestComesFirst(db, ids, rows);
      forall i | 0 <= i < |xs| ensures ComesNext(db, ids, rows, xs[..i], xs[i]) {
        if i > 0 {
          NextOfRest(db, ids, rows, x, rest[..i - 1], rest[i - 1]);
          assert xs[..i] == [x] + rest[..i - 1];
        }
      }
    }
  }

  lemma OldestComesFirst(db: Tables, ids: TxId -> nat, rows: set<TxId>)
    requires PrimaryKeys(db, ids) && rows <= db.txs.Keys && rows != {}
    ensures ComesNext(db, ids, rows, [], Oldest(db, ids, rows))
  {
  }

  lemma OneComesNext(db: Tables, ids: TxId -> nat, rows: set<TxId>, before: seq<TxId>, x: TxId, y: TxId)
    requires ComesNext(db, ids, rows, before, x) && ComesNext(db, ids, rows, before, y)
    ensures x == y
  {
  }

  lemma {:induction false} FrontUnique(
    db: Tables, ids: TxId -> nat, rows: set<TxId>, limit: nat, xs: seq<TxId>, ys: seq<TxId>, n: nat
  )
    requires IsFront(db, ids, rows, limit, xs) && IsFront(db, ids, rows, limit, ys) && n <= |xs|
    ensures xs[..n] == ys[..n]
    decreases n
  {
    hide ComesNext;
    if n > 0 {
      FrontUnique(db, ids, rows, limit, xs, ys, n - 1);
      OneComesNext(db, ids, rows, xs[..n - 1], xs[n - 1], ys[n - 1]);
      assert xs[..n] == xs[..n - 1] + [xs[n - 1]] && ys[..n] == ys[..n - 1] + [ys[n - 1]];
    }
  }

  lemma SelectedFront(db: Tables, ids: TxId -> nat, limit: nat, xs: seq<TxId>)
    requires PrimaryKeys(db, ids)
    ensures xs == Selected(db, ids, limit) <==> IsFront(db, ids, QueuedRows(db), limit, xs)
  {
    hide ComesNext, QueuedRows;
    QueuedRowsExist(db);
    FrontIsFront(db, ids, QueuedRows(db), limit);
    if IsFront(db, ids, QueuedRows(db), limit, xs) {
      FrontUnique(db, ids, QueuedRows(db), limit, xs, Selected(db, ids, limit), |xs|);
      assert xs[..|xs|] == xs;
    }
  }

  /** The rows that wait for the chain and have a hash to ask for. */
  ghost function Waiting(db: Tables): set<TxId> {
    set x | x in db.txs && (db.txs[x].status == Submitted || db.txs[x].status == UnknownReconcile)
            && (db.txs[x].intent == CreateTask || db.txs[x].intent == SubmitReceipt) && db.txs[x].hash.Some?
  }

  /**
   * As many of the waiting rows as there are, up to the limit, each once, with its own user and intent, and before
   * every later one of them: less recently updated, or as recently under a smaller primary key.
   */
  ghost predicate IsSnapshot(db: Tables, ids: TxId -> nat, limit: nat, items: seq<Item>) {
    && |items| == (if |Waiting(db)| < limit then |Waiting(db)| else limit)
    && (forall i | 0 <= i < |items| ::
          && items[i].tx in Waiting(db)
          && items[i].actor == db.txs[items[i].tx].user && items[i].intent == db.txs[items[i].tx].intent)
    && (forall i, j | 0 <= i < j < |items| :: items[i].tx != items[j].tx)
    && forall i, y | 0 <= i < |items| && y in Waiting(db) && (forall j | 0 <= j <= i :: items[j].tx != y) ::
      var x := items[i].tx;
      || db.txs[x].updatedAt < db.txs[y].updatedAt
      || (db.txs[x].updatedAt == db.txs[y].updatedAt && ids(x) < ids(y))
  }

  /** `xs` are the rows of the items. */
  ghost predicate RowsOf(db: Tables, items: seq<Item>, xs: seq<TxId>) {
    && |xs| == |items|
    && forall i | 0 <= i < |items| :: xs[i] == items[i].tx && xs[i] in db.txs && items[i] == ItemOf(db, xs[i])
  }

  lemma FrontIsSnapshot(db: Tables, ids: TxId -> nat, limit: nat, items: seq<Item>, xs: seq<TxId>)
    requires RowsOf(db, items, xs) && IsFront(db, ids, Waiting(db), limit, xs)
    ensures IsSnapshot(db, ids, limit, items)
  {
    hide Waiting;
    forall i | 0 <= i < |items| ensures items[i].tx in Waiting(db) {
      assert ComesNext(db, ids, Waiting(db), xs[..i], xs[i]);
    }
    forall i, j | 0 <= i < j < |items| ensures items[i].tx != items[j].tx {
      assert ComesNext(db, ids, Waiting(db), xs[..j], xs[j]);
      assert xs[..j][i] == xs[i];
    }
    forall i, y | 0 <= i < |items| && y in Waiting(db) && (forall j | 0 <= j <= i :: items[j].tx != y)
      ensures y in db.txs && Older(db, ids, xs[i], y)
    {
      WaitingInTables(db);
      assert ComesNext(db, ids, Waiting(db), xs[..i], xs[i]);
      assert y !in xs[..i];
    }
  }

  lemma WaitingInTables(db: Tables)
    ensures Waiting(db) <= db.txs.Keys && Waiting(db) == QueuedRows(db)
  {
  }

  lemma SnapshotIsFront(db: Tables, ids: TxId -> nat, limit: nat, items: seq<Item>, xs: seq<TxId>)
    requires RowsOf(db, items, xs) && IsSnapshot(db, ids, limit, items)
    ensures IsFront(db, ids, Waiting(db), limit, xs)
  {
    hide Waiting, ItemOf;
    forall i | 0 <= i < |xs| ensures ComesNext(db, ids, Waiting(db), xs[..i], xs[i]) {
      forall y | y in Waiting(db) && y in db.txs && y !in xs[..i] && y != xs[i] ensures Older(db, ids, xs[i], y) {
        forall j | 0 <= j <= i ensures items[j].tx != y {
          assert j < i ==> xs[..i][j] == xs[j];
        }
      }
      forall j | 0 <= j < i ensures xs[..i][j] != xs[i] {
        assert xs[..i][j] == items[j].tx;
      }
    }
  }

  /** The snapshot is exactly this list: nothing that waits is passed over for anything updated later. */
  lemma SnapshotExactly(db: Tables, ids: TxId -> nat, limit: nat, items: seq<Item>)
    requires PrimaryKeys(db, ids)
    ensures items == Snapshot(db, ids, limit) <==> IsSnapshot(db, ids, limit, items)
  {
    hide QueuedRows, IsFront, IsSnapshot, PrimaryKeys, Selected, Queued, Waiting;
    var chosen, found := Selected(db, ids, limit), Snapshot(db, ids, limit);
    WaitingInTables(db);
    QueuedInTables(db);
    SelectedFront(db, ids, limit, chosen);
    FrontIsSnapshot(db, ids, limit, found, chosen);
    if IsSnapshot(db, ids, limit, items) {
      var xs := seq(|items|, i requires 0 <= i < |items| => items[i].tx);
      SnapshotEntries(db, ids, limit, items);
      SnapshotIsFront(db, ids, limit, items, xs);
      SelectedFront(db, ids, limit, xs);
    }
  }

  lemma QueuedInTables(db: Tables)
    ensures forall x | Queued(db, x) :: x in db.txs
  {
  }

  lemma SnapshotEntries(db: Tables, ids: TxId -> nat, limit: nat, items: seq<Item>)
    requires IsSnapshot(db, ids, limit, items)
    ensures forall i | 0 <= i < |items| :: items[i].tx in db.txs && items[i] == ItemOf(db, items[i].tx)
  {
  }
}
