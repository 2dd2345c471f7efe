/** Replacement pointers: they never form a cycle, so following them ends at a transaction that was not replaced. */
module Replacements {
  import opened Prelude
  import opened Tasks
  import opened ChainTransactions
  import opened Store
  import opened Invariants
  import opened Lifecycle
  import opened Reconciliation
  import opened System
  import opened Runs

  // ----- chains of pointers -----

  /** `rank` grows along every pointer and stays below `top`. */
  ghost predicate Ranked(txs: map<TxId, Tx>, rank: map<TxId, nat>, top: nat) {
    && rank.Keys == txs.Keys
    && (forall x | x in txs :: rank[x] <= top)
    && (forall x | x in txs && txs[x].replacedBy.Some? ::
          txs[x].replacedBy.value in txs && rank[x] < rank[txs[x].replacedBy.value])
  }

  ghost predicate Acyclic(txs: map<TxId, Tx>) {
    exists rank: map<TxId, nat>, top: nat :: Ranked(txs, rank, top)
  }

  predicate SameScope(a: Tx, b: Tx) {
    && a.user == b.user && a.project == b.project && a.task == b.task && a.intent == b.intent
    && a.chainId == b.chainId && a.fromAddress == b.fromAddress && a.toAddress == b.toAddress
  }

  ghost predicate Scoped(txs: map<TxId, Tx>) {
    forall x | x in txs && txs[x].replacedBy.Some? ::
      txs[x].replacedBy.value in txs && SameScope(txs[x], txs[txs[x].replacedBy.value])
  }

  /** Where the pointers from `x` end. */
  ghost function Last(txs: map<TxId, Tx>, rank: map<TxId, nat>, top: nat, x: TxId): (last: TxId)
    requires Ranked(txs, rank, top) && x in txs
    ensures last in txs && txs[last].replacedBy.None? && rank[x] <= rank[last]
    decreases top - rank[x]
  {
    if txs[x].replacedBy.None? then x else Last(txs, rank, top, txs[x].replacedBy.value)
  }

  lemma {:induction false} LastSharesScope(txs: map<TxId, Tx>, rank: map<TxId, nat>, top: nat, x: TxId)
    requires Ranked(txs, rank, top) && x in txs && Scoped(txs)
    ensures SameScope(txs[x], txs[Last(txs, rank, top, x)])
    decreases top - rank[x]
  {
    if txs[x].replacedBy.Some? {
      LastSharesScope(txs, rank, top, txs[x].replacedBy.value);
    }
  }

  /** The end of a chain does not depend on the ranking that shows it has one. */
  lemma {:induction false} LastIgnoresRank(
    txs: map<TxId, Tx>, rank: map<TxId, nat>, top: nat, other: map<TxId, nat>, otherTop: nat, x: TxId
  )
    requires Ranked(txs, rank, top) && Ranked(txs, other, otherTop) && x in txs
    ensures Last(txs, rank, top, x) == Last(txs, other, otherTop, x)
    decreases top - rank[x]
  {
    if txs[x].replacedBy.Some? {
      LastIgnoresRank(txs, rank, top, other, otherTop, txs[x].replacedBy.value);
    }
  }

  // ----- pointing one row at another -----

  /** `pointed` is `txs` with `x`, not replaced so far, pointing at `y`. */
  ghost predicate Points(txs: map<TxId, Tx>, pointed: map<TxId, Tx>, x: TxId, y: TxId) {
    && x in txs && y in txs && txs[x].replacedBy.None?
    && x in pointed && pointed == txs[x := pointed[x]] && pointed[x].replacedBy == Some(y)
  }

  lemma {:induction false} CycleBreaksRank(
    txs: map<TxId, Tx>, pointed: map<TxId, Tx>, x: TxId, y: TxId, rank: map<TxId, nat>, top: nat,
    after: map<TxId, nat>, afterTop: nat, z: TxId
  )
    requires Points(txs, pointed, x, y) && Ranked(txs, rank, top) && Ranked(pointed, after, afterTop)
    requires z in txs && Last(txs, rank, top, z) == x
    ensures after[z] <= after[x]
    decreases top - rank[z]
  {
    if txs[z].replacedBy.Some? {
      CycleBreaksRank(txs, pointed, x, y, rank, top, after, afterTop, txs[z].replacedBy.value);
      assert pointed[z] == txs[z];
      assert after[z] < after[pointed[z].replacedBy.value];
    }
  }

  /** Lifts the whole chain that ends where `y`'s does above everything else. */
  ghost function Lifted(txs: map<TxId, Tx>, rank: map<TxId, nat>, top: nat, last: TxId): (lifted: map<TxId, nat>)
    requires Ranked(txs, rank, top)
  {
    map z | z in txs :: if Last(txs, rank, top, z) == last then rank[z] + top + 1 else rank[z]
  }

  lemma LiftedRanks(txs: map<TxId, Tx>, pointed: map<TxId, Tx>, x: TxId, y: TxId, rank: map<TxId, nat>, top: nat)
    requires Points(txs, pointed, x, y) && Ranked(txs, rank, top) && Last(txs, rank, top, y) != x
    ensures Ranked(pointed, Lifted(txs, rank, top, Last(txs, rank, top, y)), 2 * top + 1)
  {
    var last := Last(txs, rank, top, y);
    var lifted := Lifted(txs, rank, top, last);
    assert pointed.Keys == txs.Keys;
    assert Last(txs, rank, top, x) == x;
    forall z | z in pointed && pointed[z].replacedBy.Some?
      ensures pointed[z].replacedBy.value in pointed && lifted[z] < lifted[pointed[z].replacedBy.value]
    {
      if z != x {
        assert Last(txs, rank, top, z) == Last(txs, rank, top, txs[z].replacedBy.value);
      }
    }
  }

  /** A new pointer keeps the chains free of cycles exactly when the chain of its target does not end at its source. */
  lemma PointingKeepsAcyclicExactly(
    txs: map<TxId, Tx>, pointed: map<TxId, Tx>, x: TxId, y: TxId, rank: map<TxId, nat>, top: nat
  )
    requires Points(txs, pointed, x, y) && Ranked(txs, rank, top)
    ensures Acyclic(pointed) <==> Last(txs, rank, top, y) != x
  {
    if Acyclic(pointed) {
      var after, afterTop :| Ranked(pointed, after, afterTop);
      if Last(txs, rank, top, y) == x {
        CycleBreaksRank(txs, pointed, x, y, rank, top, after, afterTop, y);
      }
    }
    if Last(txs, rank, top, y) != x {
      LiftedRanks(txs, pointed, x, y, rank, top);
    }
  }

  // ----- the generic repository: `registerChainTransaction` and `updateChainTransactionState` -----

  /** A field of a partial update. */
  datatype Field<T> = Absent | Assign(value: Option<T>)

  datatype Update = Update(
    status: Option<Status>,
    hash: Field<Hash>,
    nonce: Field<nat>,
    blockNumber: Field<nat>,
    failureCode: Field<string>,
    replacedBy: Field<TxId>)

  /** `allowedChainTransitions`, which also lets a confirmation through. */
  predicate GenericallyAllowed(before: Status, after: Status) {
    Allowed(before, after) || (before in {Submitted, UnknownReconcile} && after == Confirmed)
  }

  function Assigned<T>(before: Option<T>, field: Field<T>): Option<T> {
    if field.Absent? then before else field.value
  }

  function Updated(r: Tx, u: Update, at: Time): Tx
    requires u.status.Some?
  {
    r.(status := u.status.value, hash := Assigned(r.hash, u.hash), nonce := Assigned(r.nonce, u.nonce),
       blockNumber := Assigned(r.blockNumber, u.blockNumber), failureCode := Assigned(r.failureCode, u.failureCode),
       replacedBy := Assigned(r.replacedBy, u.replacedBy), updatedAt := at)
  }

  /** The target of a replacement: another row of the same scope and nonce, sent under another hash, not replaced. */
  predicate Replaces(txs: map<TxId, Tx>, x: TxId, y: TxId)
    requires x in txs
  {
    && y in txs && y != x
    && SameScope(txs[y], txs[x])
    && txs[x].nonce.Some? && txs[y].nonce == txs[x].nonce
    && txs[y].hash.Some? && txs[y].hash != txs[x].hash
    && txs[y].status in {Submitted, Confirmed, UnknownReconcile}
  }

  predicate RowHashTaken(txs: map<TxId, Tx>, self: TxId, r: Tx) {
    r.hash.Some? && exists id :: id in txs && id != self && txs[id].chainId == r.chainId && txs[id].hash == r.hash
  }

  /** `updateChainTransactionState`; the CHECK constraints and the unique hash index guard the update itself. */
  function UpdateState(
    txs: map<TxId, Tx>, x: TxId, expected: Status, u: Update, auditMatches: bool, at: Time
  ): Result<map<TxId, Tx>, Error> {
    if u.status.None? || !GenericallyAllowed(expected, u.status.value) then Err(InvalidInput)
    else if x !in txs || txs[x].status != expected then Err(Conflict)
    else if !auditMatches then Err(InvalidInput)
    else if u.status == Some(Replaced) && (u.replacedBy.Absent? || u.replacedBy.value.None?) then Err(InvalidInput)
    else if u.status == Some(Replaced) && !Replaces(txs, x, u.replacedBy.value.value) then Err(InvalidInput)
    else if u.status != Some(Replaced) && !u.replacedBy.Absent? then Err(InvalidInput)
    else if !SchemaChecks(Updated(txs[x], u, at)) then Err(InvalidInput)
    else if RowHashTaken(txs, x, Updated(txs[x], u, at)) then Err(Conflict)
    else Ok(txs[x := Updated(txs[x], u, at)])
  }

  /** `registerChainTransaction`: a first row in an initial status, or the row already under the key. */
  function Register(txs: map<TxId, Tx>, x: TxId, r: Tx, scopeMatches: bool): Result<map<TxId, Tx>, Error> {
    if r.status !in {Prepared, WalletRequested, Submitted} || r.replacedBy.Some? || !scopeMatches then Err(InvalidInput)
    else if exists id :: id in txs && SameKey(txs[id], r.user, r.intent, r.key) && txs[id].requestHash == r.requestHash
    then Ok(txs)
    else if exists id :: id in txs && SameKey(txs[id], r.user, r.intent, r.key) then Err(IdempotencyConflict)
    else if !SchemaChecks(r) then Err(InvalidInput)
    else if x in txs || RowHashTaken(txs, x, r) then Err(Conflict)
    else Ok(txs[x := r])
  }

  datatype Call =
    | CallUpdate(tx: TxId, expected: Status, update: Update, auditMatches: bool, at: Time)
    | CallRegister(tx: TxId, row: Tx, scopeMatches: bool)

  function Called(txs: map<TxId, Tx>, c: Call): map<TxId, Tx> {
    var result := match c
      case CallUpdate(x, e, u, a, at) => UpdateState(txs, x, e, u, a, at)
      case CallRegister(x, r, s) => Register(txs, x, r, s);
    if result.Ok? then result.value else txs
  }

  function CalledAll(txs: map<TxId, Tx>, calls: seq<Call>): map<TxId, Tx>
    decreases |calls|
  {
    if calls == [] then txs else CalledAll(Called(txs, calls[0]), calls[1..])
  }

  ghost predicate ChainsSound(txs: map<TxId, Tx>) {
    && Acyclic(txs)
    && Scoped(txs)
    && (forall x | x in txs :: SchemaChecks(txs[x]))
  }

  lemma RowWithoutPointer(txs: map<TxId, Tx>, later: map<TxId, Tx>, x: TxId)
    requires Acyclic(txs) && Scoped(txs) && x in later && later == txs[x := later[x]]
    requires later[x].replacedBy.None? && (x in txs ==> txs[x].replacedBy.None? && SameScope(txs[x], later[x]))
    ensures Acyclic(later) && Scoped(later)
  {
    var rank, top :| Ranked(txs, rank, top);
    if x in txs {
      assert Ranked(later, rank, top);
    } else {
      assert Ranked(later, rank[x := 0], top);
    }
  }

  lemma RowWithPointer(txs: map<TxId, Tx>, later: map<TxId, Tx>, x: TxId, y: TxId)
    requires Acyclic(txs) && Scoped(txs) && Points(txs, later, x, y)
    requires y != x && txs[y].replacedBy.None? && SameScope(txs[y], txs[x]) && SameScope(txs[x], later[x])
    ensures Acyclic(later) && Scoped(later)
  {
    var rank, top :| Ranked(txs, rank, top);
    PointingKeepsAcyclicExactly(txs, later, x, y, rank, top);
  }

  lemma CallKeepsChains(txs: map<TxId, Tx>, c: Call)
    requires ChainsSound(txs)
    ensures ChainsSound(Called(txs, c))
  {
    hide Acyclic, Scoped;
    var later := Called(txs, c);
    if later != txs {
      if c.CallUpdate? && c.update.status == Some(Replaced) {
        RowWithPointer(txs, later, c.tx, c.update.replacedBy.value.value);
      } else {
        RowWithoutPointer(txs, later, c.tx);
      }
    }
  }

  /** Whatever is registered and updated in whatever order, pointers stay acyclic and within one scope. */
  lemma {:induction false} CallsKeepChains(txs: map<TxId, Tx>, calls: seq<Call>)
    requires ChainsSound(txs)
    ensures ChainsSound(CalledAll(txs, calls))
    decreases |calls|
  {
    hide ChainsSound, Called;
    if calls != [] {
      CallKeepsChains(txs, calls[0]);
      CallsKeepChains(Called(txs, calls[0]), calls[1..]);
    }
  }

  // ----- nonces under the generic repository -----

  /** A replaced row and the row it points at carry one nonce. */
  ghost predicate NoncesShared(txs: map<TxId, Tx>) {
    forall x | x in txs && txs[x].replacedBy.Some? ::
      txs[x].replacedBy.value in txs && txs[x].nonce == txs[txs[x].replacedBy.value].nonce && txs[x].nonce.Some?
  }

  /** The status moves the generic repository lets through: those of the protocol, and confirmation. */
  ghost predicate GenericMove(before: Status, after: Status) {
    match before
    case Prepared => after == WalletRequested || after == RejectedByUser
    case WalletRequested => after == Submitted || after == RejectedByUser || after == UnknownReconcile
    case Submitted => after == Confirmed || after == Replaced || after == Reverted || after == UnknownReconcile
    case UnknownReconcile => after == Confirmed || after == Submitted || after == Replaced || after == Reverted
    case _ => false
  }

  /** The row after the update: each given field as given, each other one as it was. */
  ghost predicate Writes(before: Tx, c: Call, after: Tx)
    requires c.CallUpdate?
  {
    var u := c.update;
    && after == before.(status := after.status, hash := after.hash, nonce := after.nonce,
                        blockNumber := after.blockNumber, failureCode := after.failureCode,
                        replacedBy := after.replacedBy, updatedAt := c.at)
    && u.status == Some(after.status)
    && (if u.hash.Assign? then after.hash == u.hash.value else after.hash == before.hash)
    && (if u.nonce.Assign? then after.nonce == u.nonce.value else after.nonce == before.nonce)
    && (if u.blockNumber.Assign? then after.blockNumber == u.blockNumber.value
        else after.blockNumber == before.blockNumber)
    && (if u.failureCode.Assign? then after.failureCode == u.failureCode.value
        else after.failureCode == before.failureCode)
    && (if u.replacedBy.Assign? then after.replacedBy == u.replacedBy.value else after.replacedBy == before.replacedBy)
  }

  /** `after` can stand in the place of row `x`: it has the columns of its status, under a hash of its own. */
  ghost predicate Fits(txs: map<TxId, Tx>, x: TxId, after: Tx) {
    && HasColumns(after)
    && (after.hash.Some? ==>
          forall y | y in txs && y != x && txs[y].chainId == after.chainId :: txs[y].hash != after.hash)
  }

  /** The target is another row of the same scope and nonce, under another hash, that can still be confirmed or is. */
  ghost predicate CanBeTarget(before: Tx, target: Tx) {
    && target.user == before.user && target.project == before.project && target.task == before.task
    && target.intent == before.intent && target.chainId == before.chainId
    && target.fromAddress == before.fromAddress && target.toAddress == before.toAddress
    && before.nonce.Some? && target.nonce == before.nonce
    && target.hash.Some? && target.hash != before.hash
    && (target.status == Submitted || target.status == Confirmed || target.status == UnknownReconcile)
  }

  /** The update passes every test of `updateChainTransactionState` and of the table. */
  ghost predicate UpdateGoesThrough(txs: map<TxId, Tx>, c: Call)
    requires c.CallUpdate?
  {
    && c.update.status.Some? && GenericMove(c.expected, c.update.status.value)
    && c.tx in txs && txs[c.tx].status == c.expected && c.auditMatches
    && (if c.update.status == Some(Replaced)
        then && c.update.replacedBy.Assign? && c.update.replacedBy.value.Some?
             && c.update.replacedBy.value.value in txs && c.update.replacedBy.value.value != c.tx
             && CanBeTarget(txs[c.tx], txs[c.update.replacedBy.value.value])
        else c.update.replacedBy.Absent?)
    && exists after :: Writes(txs[c.tx], c, after) && Fits(txs, c.tx, after)
  }

  /** The generic update goes through exactly then, and writes exactly the given fields of the one row. */
  lemma UpdateExactly(txs: map<TxId, Tx>, c: Call)
    requires c.CallUpdate?
    ensures UpdateState(txs, c.tx, c.expected, c.update, c.auditMatches, c.at).Ok? <==> UpdateGoesThrough(txs, c)
    ensures !UpdateGoesThrough(txs, c) ==> Called(txs, c) == txs
    ensures UpdateGoesThrough(txs, c) ==>
              && c.tx in Called(txs, c) && Called(txs, c) == txs[c.tx := Called(txs, c)[c.tx]]
              && Writes(txs[c.tx], c, Called(txs, c)[c.tx])
  {
    hide SchemaChecks, HasColumns, Writes, Updated, RowHashTaken, Fits, Replaces, CanBeTarget, GenericallyAllowed,
         GenericMove;
    if c.tx in txs && c.update.status.Some? {
      var after := Updated(txs[c.tx], c.update, c.at);
      MovesExactly(c.expected, c.update.status.value);
      UpdatedWrites(txs[c.tx], c);
      FitsExactly(txs, c.tx, after);
      if c.update.replacedBy.Assign? && c.update.replacedBy.value.Some? {
        TargetExactly(txs, c.tx, c.update.replacedBy.value.value);
      }
    }
  }

  lemma MovesExactly(before: Status, after: Status)
    ensures GenericallyAllowed(before, after) <==> GenericMove(before, after)
  {
  }

  lemma UpdatedWrites(before: Tx, c: Call)
    requires c.CallUpdate? && c.update.status.Some?
    ensures forall after :: Writes(before, c, after) <==> after == Updated(before, c.update, c.at)
  {
  }

  lemma FitsExactly(txs: map<TxId, Tx>, x: TxId, after: Tx)
    ensures Fits(txs, x, after) <==> SchemaChecks(after) && !RowHashTaken(txs, x, after)
  {
    ChecksExactly(after);
  }

  lemma TargetExactly(txs: map<TxId, Tx>, x: TxId, y: TxId)
    requires x in txs
    ensures Replaces(txs, x, y) <==> y in txs && y != x && CanBeTarget(txs[x], txs[y])
  {
  }

  /** A first registration: in an initial status, for its own scope, under a new key and a hash of its own. */
  ghost predicate CanRegister(txs: map<TxId, Tx>, c: Call)
    requires c.CallRegister?
  {
    && (c.row.status == Prepared || c.row.status == WalletRequested || c.row.status == Submitted)
    && c.row.replacedBy.None? && c.scopeMatches && c.tx !in txs && Fits(txs, c.tx, c.row)
    && forall y | y in txs :: !(txs[y].user == c.row.user && txs[y].intent == c.row.intent && txs[y].key == c.row.key)
  }

  /** A registration adds the row exactly then; otherwise it finds it or fails, and changes nothing. */
  lemma RegisterExactly(txs: map<TxId, Tx>, c: Call)
    requires c.CallRegister?
    ensures Called(txs, c) == if CanRegister(txs, c) then txs[c.tx := c.row] else txs
    ensures var result := Register(txs, c.tx, c.row, c.scopeMatches);
            (result == Err(IdempotencyConflict) || (result.Ok? && !CanRegister(txs, c))) ==>
              exists y :: y in txs && txs[y].user == c.row.user && txs[y].intent == c.row.intent
                          && txs[y].key == c.row.key
                          && (result.Ok? <==> txs[y].requestHash == c.row.requestHash)
  {
    hide SchemaChecks, HasColumns, RowHashTaken, Fits;
    FitsExactly(txs, c.tx, c.row);
  }

  /**
   * The update gives its row another nonce while it points the row at its replacement, or while the row already
   * replaces another one.
   */
  ghost predicate SplitsNonces(txs: map<TxId, Tx>, c: Call) {
    && c.CallUpdate? && UpdateGoesThrough(txs, c)
    && Assigned(txs[c.tx].nonce, c.update.nonce) != txs[c.tx].nonce
    && (c.update.status == Some(Replaced) || exists z :: z in txs && txs[z].replacedBy == Some(c.tx))
  }

  lemma UpdateChanges(txs: map<TxId, Tx>, c: Call)
    requires c.CallUpdate?
    ensures Called(txs, c) == if UpdateGoesThrough(txs, c) then txs[c.tx := Updated(txs[c.tx], c.update, c.at)] else txs
  {
    hide UpdateGoesThrough, Called, Writes, Updated;
    UpdateExactly(txs, c);
    if UpdateGoesThrough(txs, c) {
      GoesThroughParts(txs, c);
      UpdatedWrites(txs[c.tx], c);
    }
  }

  lemma GoesThroughParts(txs: map<TxId, Tx>, c: Call)
    requires c.CallUpdate? && UpdateGoesThrough(txs, c)
    ensures c.tx in txs && c.update.status.Some?
  {
  }

  lemma UpdateKeepsNoncesExactly(txs: map<TxId, Tx>, c: Call)
    requires ChainsSound(txs) && NoncesShared(txs) && c.CallUpdate?
    ensures NoncesShared(Called(txs, c)) <==> !SplitsNonces(txs, c)
  {
    hide Acyclic, Scoped, Called, RowHashTaken, Updated, GenericallyAllowed;
    UpdateChanges(txs, c);
    if UpdateGoesThrough(txs, c) {
      var x, later := c.tx, Called(txs, c);
      UpdatedFields(txs, c);
      if SplitsNonces(txs, c) {
        if c.update.status == Some(Replaced) {
          assert later[x].replacedBy == c.update.replacedBy.value && later[x].nonce != txs[x].nonce;
        } else {
          var z :| z in txs && txs[z].replacedBy == Some(x);
          assert later[z] == txs[z] && later[z].nonce != later[x].nonce;
        }
      } else {
        forall w | w in later && later[w].replacedBy.Some?
          ensures later[w].replacedBy.value in later && later[w].nonce.Some?
          ensures later[w].nonce == later[later[w].replacedBy.value].nonce
        {
          assert w != x ==> later[w] == txs[w];
        }
      }
    }
  }

  lemma UpdatedFields(txs: map<TxId, Tx>, c: Call)
    requires c.CallUpdate? && UpdateGoesThrough(txs, c) && SchemaChecks(txs[c.tx])
    ensures txs[c.tx].replacedBy.None?
    ensures var r := Updated(txs[c.tx], c.update, c.at);
            && r.nonce == Assigned(txs[c.tx].nonce, c.update.nonce)
            && r.replacedBy == (if c.update.status == Some(Replaced) then c.update.replacedBy.value else None)
  {
    hide RowHashTaken, Replaces;
  }

  lemma RegisterKeepsNonces(txs: map<TxId, Tx>, c: Call)
    requires NoncesShared(txs) && c.CallRegister?
    ensures NoncesShared(Called(txs, c))
  {
    hide SchemaChecks, RowHashTaken, SameKey;
  }

  /** Of all calls exactly these take the shared nonces apart. */
  lemma CallKeepsNoncesExactly(txs: map<TxId, Tx>, c: Call)
    requires ChainsSound(txs) && NoncesShared(txs)
    ensures NoncesShared(Called(txs, c)) <==> !SplitsNonces(txs, c)
  {
    hide ChainsSound, NoncesShared, Called, SplitsNonces;
    if c.CallUpdate? {
      UpdateKeepsNoncesExactly(txs, c);
    } else {
      RegisterKeepsNonces(txs, c);
      NotAnUpdate(txs, c);
    }
  }

  lemma NotAnUpdate(txs: map<TxId, Tx>, c: Call)
    requires !c.CallUpdate?
    ensures !SplitsNonces(txs, c)
  {
  }

  /** Nonces are shared now and after each of the calls. */
  ghost predicate SharedThroughout(txs: map<TxId, Tx>, calls: seq<Call>)
    decreases |calls|
  {
    NoncesShared(txs) && (calls != [] ==> SharedThroughout(Called(txs, calls[0]), calls[1..]))
  }

  ghost predicate NeverSplits(txs: map<TxId, Tx>, calls: seq<Call>)
    decreases |calls|
  {
    calls != [] ==> !SplitsNonces(txs, calls[0]) && NeverSplits(Called(txs, calls[0]), calls[1..])
  }

  /** Along any sequence of calls replaced rows share their replacements' nonces exactly unless one splits them. */
  lemma {:induction false} NoncesSharedExactly(txs: map<TxId, Tx>, calls: seq<Call>)
    requires ChainsSound(txs) && NoncesShared(txs)
    ensures SharedThroughout(txs, calls) <==> NeverSplits(txs, calls)
    decreases |calls|
  {
    hide ChainsSound, NoncesShared, Called, SplitsNonces;
    if calls != [] {
      CallKeepsChains(txs, calls[0]);
      CallKeepsNoncesExactly(txs, calls[0]);
      if NoncesShared(Called(txs, calls[0])) {
        NoncesSharedExactly(Called(txs, calls[0]), calls[1..]);
      }
    }
  }

  /** Both ways are open: every row that can be replaced can be given any other nonce by the very same update. */
  lemma SameUpdateSplitsNonces(txs: map<TxId, Tx>, x: TxId, y: TxId, nonce: nat, at: Time)
    requires ChainsSound(txs) && NoncesShared(txs) && HashesUnique(txs)
    requires x in txs && txs[x].status == Submitted && Replaces(txs, x, y) && txs[x].nonce != Some(nonce)
    ensures var u := Update(Some(Replaced), Absent, Assign(Some(nonce)), Absent, Absent, Assign(Some(y)));
            var later := Called(txs, CallUpdate(x, Submitted, u, true, at));
            && x in later && y in later && later[x].replacedBy == Some(y)
            && later[x].nonce == Some(nonce) && later[y].nonce != later[x].nonce
  {
    hide Acyclic, Scoped, Called;
    var u := Update(Some(Replaced), Absent, Assign(Some(nonce)), Absent, Absent, Assign(Some(y)));
    UpdateExactly(txs, CallUpdate(x, Submitted, u, true, at));
    UpdateChanges(txs, CallUpdate(x, Submitted, u, true, at));
    assert !RowHashTaken(txs, x, Updated(txs[x], u, at));
    assert UpdateState(txs, x, Submitted, u, true, at).Ok?;
  }

  /** And every row that replaces another can be given one by a later update of its own. */
  lemma LaterUpdateSplitsNonces(txs: map<TxId, Tx>, x: TxId, y: TxId, nonce: nat, at: Time)
    requires ChainsSound(txs) && NoncesShared(txs) && HashesUnique(txs)
    requires x in txs && txs[x].replacedBy == Some(y) && y in txs && txs[y].status == Submitted
    requires txs[y].nonce != Some(nonce)
    ensures var u := Update(Some(UnknownReconcile), Absent, Assign(Some(nonce)), Absent, Absent, Absent);
            var later := Called(txs, CallUpdate(y, Submitted, u, true, at));
            && x in later && y in later && later[x].replacedBy == Some(y)
            && later[y].nonce == Some(nonce) && later[x].nonce != later[y].nonce
  {
    hide Acyclic, Scoped, Called;
    var u := Update(Some(UnknownReconcile), Absent, Assign(Some(nonce)), Absent, Absent, Absent);
    UpdateExactly(txs, CallUpdate(y, Submitted, u, true, at));
    UpdateChanges(txs, CallUpdate(y, Submitted, u, true, at));
    assert !RowHashTaken(txs, y, Updated(txs[y], u, at));
    assert UpdateState(txs, y, Submitted, u, true, at).Ok?;
    assert SchemaChecks(txs[x]);
  }

  // ----- the wired system -----

  ghost predicate WiredChains(txs: map<TxId, Tx>) {
    Acyclic(txs) && Scoped(txs) && NoncesShared(txs)
  }

  ghost predicate NoneNewlyReplaced(txs: map<TxId, Tx>, later: map<TxId, Tx>) {
    forall x | x in later && later[x].replacedBy.Some? :: x in txs && later[x].replacedBy == txs[x].replacedBy
  }

  lemma KeptRowScope(before: Tx, after: Tx)
    requires RowKept(before, after)
    ensures SameScope(before, after)
    ensures before.nonce.Some? && (before.hash.Some? <==> before.nonce.Some?) ==> after.nonce == before.nonce
  {
  }

  lemma RankRestricted(txs: map<TxId, Tx>, later: map<TxId, Tx>, rank: map<TxId, nat>, top: nat)
    requires Ranked(txs, rank, top) && NoneNewlyReplaced(txs, later)
    requires forall x | x in txs :: x in later
    ensures Acyclic(later)
  {
    var carried: map<TxId, nat> := map x | x in later :: if x in rank then rank[x] else 0;
    assert Ranked(later, carried, top);
  }

  lemma RowHashes(db: Tables)
    requires Structure(db)
    ensures forall x | x in db.txs :: db.txs[x].hash.Some? <==> db.txs[x].nonce.Some?
    ensures forall x | x in db.txs :: db.txs[x].status == Replaced <==> db.txs[x].replacedBy.Some?
  {
    forall x | x in db.txs
      ensures db.txs[x].hash.Some? <==> db.txs[x].nonce.Some?
      ensures db.txs[x].status == Replaced <==> db.txs[x].replacedBy.Some?
    {
      assert RowSound(db, x);
    }
  }

  lemma ChainsCarried(db: Tables, later: Tables)
    requires Structure(db) && Extends(db, later) && NoneNewlyReplaced(db.txs, later.txs) && WiredChains(db.txs)
    ensures WiredChains(later.txs)
  {
    hide Structure, Extends, RowKept, SameScope, Acyclic;
    RowHashes(db);
    forall x | x in db.txs ensures x in later.txs && RowKept(db.txs[x], later.txs[x]) {
      ExtendsRow(db, later, x);
    }
    AcyclicCarried(db.txs, later.txs);
    forall x | x in later.txs && later.txs[x].replacedBy.Some?
      ensures later.txs[x].replacedBy.value in later.txs
      ensures SameScope(later.txs[x], later.txs[later.txs[x].replacedBy.value])
      ensures later.txs[x].nonce == later.txs[later.txs[x].replacedBy.value].nonce && later.txs[x].nonce.Some?
    {
      var y := db.txs[x].replacedBy.value;
      KeptRowScope(db.txs[x], later.txs[x]);
      KeptRowScope(db.txs[y], later.txs[y]);
      ScopeTransitive(later.txs[x], db.txs[x], db.txs[y], later.txs[y]);
    }
  }

  lemma ScopeTransitive(a: Tx, b: Tx, c: Tx, d: Tx)
    requires SameScope(b, a) && SameScope(b, c) && SameScope(c, d)
    ensures SameScope(a, d)
  {
  }

  lemma AcyclicCarried(txs: map<TxId, Tx>, later: map<TxId, Tx>)
    requires Acyclic(txs) && NoneNewlyReplaced(txs, later) && forall x | x in txs :: x in later
    ensures Acyclic(later)
  {
    var rank, top :| Ranked(txs, rank, top);
    RankRestricted(txs, later, rank, top);
  }

  /** `recordReplacement` inserts the target and points the prior row at it. */
  lemma ReplacementChains(db: Tables, i: ReplacementInput)
    requires Structure(db) && WiredChains(db.txs)
    ensures WiredChains(ReplacementStep(db, i).tables.txs)
  {
    hide Structure, Acyclic, Scoped, NoncesShared, KeyTaken, HashTaken, IsOwner, ReplayReplacement;
    var after := ReplacementStep(db, i).tables;
    if after != db {
      ReplacementShape(db, i);
      ReplacementPointers(db, after, i);
      RowHashes(db);
      var mid := db.txs[i.publicId := after.txs[i.publicId]];
      RowWithoutPointer(db.txs, mid, i.publicId);
      RowWithPointer(mid, after.txs, i.prior, i.publicId);
      NoncesAfter(db.txs, after.txs, i.prior, i.publicId);
    }
  }

  lemma ReplacementPointers(db: Tables, after: Tables, i: ReplacementInput)
    requires ReplacementAccepted(i) && i.prior in db.txs && i.publicId in after.txs && i.prior in after.txs
    requires ReplacedRow(db.txs[i.prior], i.publicId, i.nonce, i.hash, i.at) == Ok(after.txs[i.prior])
    requires after.txs[i.publicId] == ReplacementRow(i, db.txs[i.prior]).(response := after.txs[i.publicId].response)
    ensures after.txs[i.publicId].replacedBy.None? && after.txs[i.prior].replacedBy == Some(i.publicId)
    ensures SameScope(after.txs[i.publicId], db.txs[i.prior]) && SameScope(db.txs[i.prior], after.txs[i.prior])
    ensures after.txs[i.publicId].nonce == after.txs[i.prior].nonce == db.txs[i.prior].nonce
    ensures db.txs[i.prior].nonce.Some? && db.txs[i.prior].status != Replaced
  {
  }

  lemma NoncesAfter(txs: map<TxId, Tx>, later: map<TxId, Tx>, x: TxId, y: TxId)
    requires NoncesShared(txs) && x in txs && y !in txs && x in later && y in later
    requires later == txs[y := later[y]][x := later[x]]
    requires later[x].replacedBy == Some(y) && later[y].replacedBy.None?
    requires later[x].nonce == later[y].nonce == txs[x].nonce && later[x].nonce.Some?
    ensures NoncesShared(later)
  {
  }

  lemma NotReplacedBySet(txs: map<TxId, Tx>, later: map<TxId, Tx>, x: TxId)
    requires x in later && later == txs[x := later[x]] && later[x].replacedBy.None?
    ensures NoneNewlyReplaced(txs, later)
  {
  }

  lemma StatusWithoutPointer(db: Tables, x: TxId)
    requires Structure(db) && x in db.txs && db.txs[x].status != Replaced
    ensures db.txs[x].replacedBy.None?
  {
    assert RowSound(db, x);
  }

  lemma OutcomeReplacesNone(db: Tables, i: OutcomeInput)
    requires Structure(db)
    ensures NoneNewlyReplaced(db.txs, OutcomeStep(db, i).tables.txs)
  {
    hide *;
    OutcomeTables(db, i);
    var after := TransitionStep(db, i).tables;
    if after == db {
      NothingReplaced(db.txs);
    } else {
      if i.tx in db.txs {
        StructureRow(db, i.tx);
      }
      TransitionShape(db, i);
      StructureIdentities(db);
      OutcomeTasksMoved(db, after, i);
      TasksMovedKept(db, after);
      TransitionRowSound(db, after, i);
      TransitionKeeps(db, i);
      StatusWithoutPointer(after, i.tx);
      NotReplacedBySet(db.txs, after.txs, i.tx);
    }
  }

  lemma NothingReplaced(txs: map<TxId, Tx>)
    ensures NoneNewlyReplaced(txs, txs)
  {
  }

  lemma ReceiptReplacesNone(db: Tables, i: ReceiptInput)
    requires Structure(db)
    ensures NoneNewlyReplaced(db.txs, CreateReceiptStep(db, i).tables.txs)
  {
    hide *;
    var after := CreateReceiptStep(db, i).tables;
    if after == db {
      NothingReplaced(db.txs);
    } else {
      CreateReceiptShape(db, i);
      MemberProject(db, db.tasks[i.intent.task].project, i.intent.actor);
      ReceiptNotRefused(db, i);
      ReceiptRowSound(db, after, i);
      CreateReceiptKeeps(db, i);
      StatusWithoutPointer(after, i.intent.publicId);
      NotReplacedBySet(db.txs, after.txs, i.intent.publicId);
    }
  }

  lemma IntentReplacesNone(db: Tables, i: IntentInput)
    requires Structure(db)
    ensures NoneNewlyReplaced(db.txs, CreateIntentStep(db, i).tables.txs)
  {
    hide *;
    var after := CreateIntentStep(db, i).tables;
    if after == db {
      NothingReplaced(db.txs);
    } else {
      CreateIntentShape(db, i);
      CreateIntentKeeps(db, i);
      StatusWithoutPointer(after, i.publicId);
      NotReplacedBySet(db.txs, after.txs, i.publicId);
    }
  }

  lemma FinishReplacesNone(db: Tables, c: Context, answer: RpcAnswer, at: Time)
    requires Structure(db) && c.status in {Submitted, UnknownReconcile}
    ensures NoneNewlyReplaced(db.txs, WriteBack(db, c, Decide(c, answer), at).tables.txs)
  {
    hide *;
    var after := WriteBack(db, c, Decide(c, answer), at).tables;
    if after == db {
      NothingReplaced(db.txs);
    } else {
      FinishKeeps(db, c, answer, at);
      if Decide(c, answer).DecideConfirmed? {
        ConfirmedAsDecided(db, c, answer, at);
        ConfirmsFields(db, after, ConfirmationOf(c, Decide(c, answer), at));
        ConfirmationMoves(db, after, ConfirmationOf(c, Decide(c, answer), at));
        ConfirmationTx(c, Decide(c, answer), at);
      } else {
        MarkedRows(db, c, Decide(c, answer), at);
      }
      StatusWithoutPointer(after, c.tx);
      NotReplacedBySet(db.txs, after.txs, c.tx);
    }
  }

  lemma ConfirmationTx(c: Context, d: Decision, at: Time)
    requires d.DecideConfirmed?
    ensures ConfirmationOf(c, d, at).tx == c.tx
  {
  }

  lemma ClientChains(db: Tables, e: Event)
    requires Structure(db) && WiredChains(db.txs) && !e.Begin? && !e.Finish?
    ensures WiredChains(ClientTables(db, e).txs)
  {
    hide Structure, WiredChains, NoneNewlyReplaced, CreateTaskStep, CreateIntentStep, CreateReceiptStep, OutcomeStep,
         ReplacementStep, PersistEvidenceStep, UpdateProjectStep, CreatePolicyStep, TaskSound, BundleSound,
         Extends;
    var after := ClientTables(db, e);
    if after != db {
      ClientKeeps(db, e);
      match e
      case PostTask(i) => CreateTaskShape(db, i);
      case OpenIntent(i) => IntentReplacesNone(db, i); ChainsCarried(db, after);
      case OpenReceipt(i) => ReceiptReplacesNone(db, i); ChainsCarried(db, after);
      case ReportOutcome(i) => OutcomeReplacesNone(db, i); ChainsCarried(db, after);
      case ReportReplacement(i) => ReplacementChains(db, i);
      case UploadEvidence(i) => PersistEvidenceShape(db, i);
      case PatchProject(p) => UpdateProjectShape(db, p);
      case StorePolicy(i) => CreatePolicyShape(db, i);
    }
  }

  lemma NextChains(s: State, e: Event)
    requires Sound(s) && WiredChains(s.db.txs)
    ensures WiredChains(Next(s, e).db.txs)
  {
    hide Structure, WiredChains, Bound, Witnessed, ClientTables, Decide, WriteBack, ReadContext, Extends,
         NoneNewlyReplaced;
    if e.Finish? {
      if e.thread in s.threads {
        BoundContext(s.db, s.threads[e.thread]);
        FinishKeeps(s.db, s.threads[e.thread], e.answer, e.at);
        FinishReplacesNone(s.db, s.threads[e.thread], e.answer, e.at);
        ChainsCarried(s.db, Next(s, e).db);
      }
    } else if !e.Begin? {
      ClientChains(s.db, e);
    }
  }

  lemma {:induction false} RunChains(s: State, events: seq<Event>)
    requires Sound(s) && WiredChains(s.db.txs)
    ensures WiredChains(Run(s, events).db.txs)
    decreases |events|
  {
    hide Sound, Next, WiredChains;
    if events != [] {
      NextSound(s, events[0]);
      NextChains(s, events[0]);
      RunChains(Next(s, events[0]), events[1..]);
    }
  }

  lemma {:induction false} LastSharesNonce(txs: map<TxId, Tx>, rank: map<TxId, nat>, top: nat, x: TxId)
    requires Ranked(txs, rank, top) && x in txs && NoncesShared(txs)
    ensures txs[Last(txs, rank, top, x)].nonce == txs[x].nonce
    decreases top - rank[x]
  {
    if txs[x].replacedBy.Some? {
      LastSharesNonce(txs, rank, top, txs[x].replacedBy.value);
    }
  }

  /**
   * In every reachable state, following the pointers from any transaction ends, at one that is not replaced
   * and has the same user, project, task, intent, chain, addresses and nonce.
   */
  lemma ReachableChainsEnd(s: State, events: seq<Event>, x: TxId)
    requires Initial(s) && x in Run(s, events).db.txs
    ensures var txs := Run(s, events).db.txs;
            exists rank, top :: Ranked(txs, rank, top)
                                && txs[Last(txs, rank, top, x)].status != Replaced
                                && SameScope(txs[x], txs[Last(txs, rank, top, x)])
                                && txs[Last(txs, rank, top, x)].nonce == txs[x].nonce
  {
    hide Sound, Run, Structure, Scoped, NoncesShared, SameScope;
    InitialSound(s);
    EmptyChains(s.db.txs);
    RunSound(s, events);
    RunChains(s, events);
    var later := Run(s, events);
    var rank, top :| Ranked(later.db.txs, rank, top);
    LastSharesScope(later.db.txs, rank, top, x);
    LastSharesNonce(later.db.txs, rank, top, x);
    SoundRows(later);
    RowHashes(later.db);
  }

  lemma SoundRows(s: State)
    requires Sound(s)
    ensures Structure(s.db)
  {
  }

  lemma EmptyChains(txs: map<TxId, Tx>)
    requires txs == map[]
    ensures WiredChains(txs)
  {
    assert Ranked(txs, map[], 0);
  }
}
