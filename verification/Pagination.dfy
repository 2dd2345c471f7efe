/** Keyset pagination, newest first: what a caller who follows every cursor gets to see. */
module Pagination {
  import opened Prelude

  /** The two columns that order a listing; public ids are unique and compare as their numbers do. */
  datatype Entry = Entry(createdAt: Time, publicId: nat)

  /** `a` is listed before `b`. */
  predicate Newer(a: Entry, b: Entry) {
    a.createdAt > b.createdAt || (a.createdAt == b.createdAt && a.publicId > b.publicId)
  }

  // ----- the query -----

  function Insert(e: Entry, list: seq<Entry>): seq<Entry> {
    if list == [] || Newer(e, list[0]) then [e] + list else [list[0]] + Insert(e, list[1..])
  }

  /** `order by created_at desc, public_id desc` */
  function Listed(table: seq<Entry>): seq<Entry> {
    if table == [] then [] else Insert(table[0], Listed(table[1..]))
  }

  /** The rows strictly after the cursor. */
  function After(table: seq<Entry>, cursor: Option<Entry>): seq<Entry> {
    if table == [] then []
    else (if cursor.None? || Newer(cursor.value, table[0]) then [table[0]] else []) + After(table[1..], cursor)
  }

  function Query(table: seq<Entry>, cursor: Option<Entry>, limit: nat): seq<Entry> {
    var list := Listed(After(table, cursor));
    if |list| <= limit then list else list[..limit]
  }

  predicate Distinct(table: seq<Entry>) {
    forall i, j | 0 <= i < j < |table| :: table[i] != table[j]
  }

  predicate Descending(list: seq<Entry>) {
    forall i, j | 0 <= i < j < |list| :: Newer(list[i], list[j])
  }

  lemma {:induction false} InsertDescends(e: Entry, list: seq<Entry>)
    requires Descending(list) && e !in list
    ensures Descending(Insert(e, list)) && multiset(Insert(e, list)) == multiset(list) + multiset{e}
  {
    if list != [] && !Newer(e, list[0]) {
      var rest := list[1..];
      assert list == [list[0]] + rest;
      InsertDescends(e, rest);
      assert Newer(list[0], e);
      forall x | x in Insert(e, rest) ensures Newer(list[0], x) {
        assert x in multiset(Insert(e, rest));
        assert x == e || x in rest;
      }
    } else {
      assert [e] + list == Insert(e, list);
    }
  }

  lemma {:induction false} ListedDescends(table: seq<Entry>)
    requires Distinct(table)
    ensures Descending(Listed(table)) && multiset(Listed(table)) == multiset(table)
  {
    if table != [] {
      var rest := table[1..];
      ListedDescends(rest);
      assert table == [table[0]] + rest;
      assert forall j | 0 <= j < |rest| :: rest[j] == table[j + 1];
      SameBag(Listed(rest), rest, table[0]);
      InsertDescends(table[0], Listed(rest));
    }
  }

  /** Descending lists of the same rows are the same list. */
  lemma {:induction false} DescendingUnique(a: seq<Entry>, b: seq<Entry>)
    requires Descending(a) && Descending(b) && forall e :: e in a <==> e in b
    ensures a == b
  {
    assert b != [] ==> b[0] in a;
    if a != [] {
      assert a[0] in b && b[0] in b && b[0] in a;
      FirstIsNewest(a, b[0]);
      FirstIsNewest(b, a[0]);
      forall e ensures e in a[1..] <==> e in b[1..] {
        TailMembers(a, e);
        TailMembers(b, e);
      }
      DescendingUnique(a[1..], b[1..]);
      assert a == [a[0]] + a[1..] && b == [b[0]] + b[1..];
    }
  }

  lemma FirstIsNewest(list: seq<Entry>, e: Entry)
    requires Descending(list) && e in list
    ensures list[0] == e || Newer(list[0], e)
  {
  }

  lemma TailMembers(list: seq<Entry>, e: Entry)
    requires Descending(list) && list != []
    ensures e in list[1..] <==> e in list && e != list[0]
  {
    if e in list && e != list[0] {
      var i :| 0 <= i < |list| && list[i] == e;
      assert list[1..][i - 1] == e;
    }
  }

  lemma {:induction false} AfterMembers(table: seq<Entry>, cursor: Option<Entry>, e: Entry)
    ensures e in After(table, cursor) <==> e in table && (cursor.None? || Newer(cursor.value, e))
  {
    if table != [] {
      AfterMembers(table[1..], cursor, e);
      assert e in table <==> e == table[0] || e in table[1..];
    }
  }

  lemma {:induction false} AfterDistinct(table: seq<Entry>, cursor: Option<Entry>)
    requires Distinct(table)
    ensures Distinct(After(table, cursor))
  {
    if table != [] {
      AfterDistinct(table[1..], cursor);
      AfterMembers(table[1..], cursor, table[0]);
    }
  }

  lemma ListedMembers(table: seq<Entry>, e: Entry)
    requires Distinct(table)
    ensures e in Listed(table) <==> e in table
  {
    ListedDescends(table);
    assert e in multiset(Listed(table)) <==> e in multiset(table);
  }

  lemma RestMembers(list: seq<Entry>, i: nat, e: Entry)
    requires Descending(list) && i < |list|
    ensures e in list[i + 1..] <==> e in list && Newer(list[i], e)
  {
    if e in list {
      var j :| 0 <= j < |list| && list[j] == e;
      if j > i {
        assert list[i + 1..][j - i - 1] == e;
      } else if j < i {
        assert Newer(list[j], list[i]);
      }
    }
  }

  /** Querying after the i-th row of the listing gives exactly the rest of the listing. */
  lemma AfterIsRest(table: seq<Entry>, i: nat)
    requires Distinct(table) && i < |Listed(table)|
    ensures Listed(After(table, Some(Listed(table)[i]))) == Listed(table)[i + 1..]
  {
    hide Listed, After, Newer;
    var list := Listed(table);
    var after := After(table, Some(list[i]));
    ListedDescends(table);
    AfterDistinct(table, Some(list[i]));
    ListedDescends(after);
    forall e ensures e in Listed(after) <==> e in list[i + 1..] {
      ListedMembers(after, e);
      ListedMembers(table, e);
      AfterMembers(table, Some(list[i]), e);
      RestMembers(list, i, e);
    }
    DescendingUnique(Listed(after), list[i + 1..]);
  }

  lemma NoCursor(table: seq<Entry>)
    ensures After(table, None) == table
  {
  }

  /** The listing a cursor continues: all of it, or what follows the cursor's row. */
  ghost predicate Continues(table: seq<Entry>, cursor: Option<Entry>, from: nat) {
    && from <= |Listed(table)|
    && (cursor.None? ==> from == 0)
    && (cursor.Some? ==> from > 0 && Listed(table)[from - 1] == cursor.value)
  }

  lemma ContinuedListing(table: seq<Entry>, cursor: Option<Entry>, from: nat)
    requires Distinct(table) && Continues(table, cursor, from)
    ensures Listed(After(table, cursor)) == Listed(table)[from..]
  {
    if cursor.None? {
      NoCursor(table);
    } else {
      AfterIsRest(table, from - 1);
    }
  }

  // ----- pages -----

  datatype Page = Page(items: seq<Entry>, next: Option<Entry>)

  /** `listTasks`, `listProjects` and `listPolicyVersions`: the cursor is the last visible row. */
  function ListPage(table: seq<Entry>, cursor: Option<Entry>, limit: nat): Page
    requires limit > 0
  {
    var rows := Query(table, cursor, limit + 1);
    var visible := if |rows| <= limit then rows else rows[..limit];
    Page(visible, if |rows| > limit then Some(visible[|visible| - 1]) else None)
  }

  /** `listEvidence`: the cursor is the look-ahead row itself. */
  function EvidencePage(table: seq<Entry>, cursor: Option<Entry>, limit: nat): Page {
    var rows := Query(table, cursor, limit + 1);
    var items := if |rows| <= limit then rows else rows[..limit];
    Page(items, if |rows| > limit then Some(rows[limit]) else None)
  }

  lemma PageOf(table: seq<Entry>, cursor: Option<Entry>, limit: nat, from: nat)
    requires Distinct(table) && Continues(table, cursor, from) && limit > 0
    ensures from <= |Listed(table)|
    ensures var list := Listed(table);
            && ListPage(table, cursor, limit) == (if |list| - from <= limit then Page(list[from..], None)
                                                 else Page(list[from..from + limit], Some(list[from + limit - 1])))
            && EvidencePage(table, cursor, limit) == (if |list| - from <= limit then Page(list[from..], None)
                                                     else Page(list[from..from + limit], Some(list[from + limit])))
    ensures ListPage(table, cursor, limit).next.Some? ==>
              Continues(table, ListPage(table, cursor, limit).next, from + limit)
    ensures EvidencePage(table, cursor, limit).next.Some? ==>
              Continues(table, EvidencePage(table, cursor, limit).next, from + limit + 1)
  {
    hide Listed, After;
    ContinuedListing(table, cursor, from);
    var list := Listed(table);
    var rest := list[from..];
    if |rest| > limit {
      assert rest[..limit + 1][..limit] == rest[..limit] == list[from..from + limit];
      assert rest[limit] == list[from + limit] && rest[limit - 1] == list[from + limit - 1];
    }
  }

  /**
   * What a caller sees who follows the cursors from `cursor` on; the cursor of a page is always a row further
   * down the listing, so following them ends.
   */
  ghost function Followed(table: seq<Entry>, cursor: Option<Entry>, limit: nat, from: nat): seq<Entry>
    requires Distinct(table) && Continues(table, cursor, from) && limit > 0
    decreases |Listed(table)| - from
  {
    PageOf(table, cursor, limit, from);
    var page := ListPage(table, cursor, limit);
    if page.next.None? then page.items else page.items + Followed(table, page.next, limit, from + limit)
  }

  ghost function FollowedEvidence(table: seq<Entry>, cursor: Option<Entry>, limit: nat, from: nat): seq<Entry>
    requires Distinct(table) && Continues(table, cursor, from) && limit > 0
    decreases |Listed(table)| - from
  {
    PageOf(table, cursor, limit, from);
    var page := EvidencePage(table, cursor, limit);
    if page.next.None? then page.items else page.items + FollowedEvidence(table, page.next, limit, from + limit + 1)
  }

  lemma {:induction false} FollowedIsRest(table: seq<Entry>, cursor: Option<Entry>, limit: nat, from: nat)
    requires Distinct(table) && Continues(table, cursor, from) && limit > 0
    ensures Followed(table, cursor, limit, from) == Listed(table)[from..]
    decreases |Listed(table)| - from
  {
    hide Listed, Distinct, ListPage, EvidencePage, Continues;
    PageOf(table, cursor, limit, from);
    var page := ListPage(table, cursor, limit);
    if page.next.Some? {
      FollowedIsRest(table, page.next, limit, from + limit);
      assert Listed(table)[from..] == Listed(table)[from..from + limit] + Listed(table)[from + limit..];
    }
  }

  /** For any page size, following the cursors shows every row once, newest first. */
  lemma PagesShowEverything(table: seq<Entry>, limit: nat)
    requires Distinct(table) && limit > 0
    ensures Followed(table, None, limit, 0) == Listed(table)
    ensures var shown := Followed(table, None, limit, 0);
            && multiset(shown) == multiset(table)
            && forall i, j | 0 <= i < j < |shown| ::
              || shown[i].createdAt > shown[j].createdAt
              || (shown[i].createdAt == shown[j].createdAt && shown[i].publicId > shown[j].publicId)
  {
    FollowedIsRest(table, None, limit, 0);
    ListedDescends(table);
    var list := Listed(table);
    assert forall i, j | 0 <= i < j < |list| :: Newer(list[i], list[j]);
  }

  // ----- what the look-ahead cursor loses -----

  /** The rows from index `i` on, without each whose index leaves the remainder `limit`. */
  function Kept(list: seq<Entry>, limit: nat, i: nat): seq<Entry>
    requires i <= |list|
    decreases |list| - i
  {
    if i == |list| then []
    else (if i % (limit + 1) != limit then [list[i]] else []) + Kept(list, limit, i + 1)
  }

  lemma KeptStep(list: seq<Entry>, limit: nat, i: nat)
    requires i <= |list|
    ensures Kept(list, limit, i) ==
            if i == |list| then []
            else if i % (limit + 1) == limit then Kept(list, limit, i + 1)
            else [list[i]] + Kept(list, limit, i + 1)
  {
  }

  /** A stretch that does not reach the next dropped index is kept as it is. */
  lemma {:induction false} KeptStretch(list: seq<Entry>, limit: nat, i: nat, n: nat, q: nat)
    requires i + n <= |list| && i % (limit + 1) == q && q + n <= limit
    ensures Kept(list, limit, i) == list[i..i + n] + Kept(list, limit, i + n)
    decreases n
  {
    if n > 0 {
      NextRemainder(i, limit + 1);
      KeptStretch(list, limit, i + 1, n - 1, q + 1);
      assert list[i..i + n] == [list[i]] + list[i + 1..i + n];
    }
  }

  lemma NextRemainder(i: nat, m: nat)
    requires m > 0
    ensures (i + 1) % m == if i % m == m - 1 then 0 else i % m + 1
  {
    var q, r := i / m, i % m;
    assert i == q * m + r;
    if r == m - 1 {
      assert i + 1 == (q + 1) * m;
      RemainderOf(i + 1, m, q + 1, 0);
    } else {
      RemainderOf(i + 1, m, q, r + 1);
    }
  }

  lemma RemainderOf(x: nat, m: nat, q: nat, r: nat)
    requires m > 0 && r < m && x == q * m + r
    ensures x % m == r
  {
    var d := x / m - q;
    assert x == (x / m) * m + x % m;
    assert d * m == r - x % m;
    MultipleOf(d, m);
  }

  lemma MultipleOf(d: int, m: nat)
    ensures d >= 1 ==> d * m >= m
    ensures d <= -1 ==> -d * m >= m && -(d * m) == -d * m
    ensures d == 0 ==> d * m == 0
  {
  }

  lemma {:induction false} FollowedEvidenceIsKept(table: seq<Entry>, cursor: Option<Entry>, limit: nat, from: nat)
    requires Distinct(table) && Continues(table, cursor, from) && limit > 0 && from % (limit + 1) == 0
    ensures FollowedEvidence(table, cursor, limit, from) == Kept(Listed(table), limit, from)
    decreases |Listed(table)| - from
  {
    hide Listed, Distinct, ListPage, EvidencePage, Continues, Kept;
    PageOf(table, cursor, limit, from);
    var list := Listed(table);
    var page := EvidencePage(table, cursor, limit);
    if page.next.None? {
      KeptStretch(list, limit, from, |list| - from, 0);
      KeptStep(list, limit, |list|);
      assert list[from..|list|] == list[from..];
    } else {
      KeptStretch(list, limit, from, limit, 0);
      WholePage(from, limit);
      KeptStep(list, limit, from + limit);
      FollowedEvidenceIsKept(table, page.next, limit, from + limit + 1);
    }
  }

  lemma WholePage(from: nat, limit: nat)
    requires from % (limit + 1) == 0
    ensures (from + limit) % (limit + 1) == limit && (from + limit + 1) % (limit + 1) == 0
  {
    var m := limit + 1;
    var q := from / m;
    assert from == q * m;
    RemainderOf(from + limit, m, q, limit);
    assert from + limit + 1 == (q + 1) * m;
    RemainderOf(from + limit + 1, m, q + 1, 0);
  }

  /** `e` is one of the rows from index `i` on whose index does not leave the remainder `limit`. */
  ghost predicate KeptFrom(list: seq<Entry>, limit: nat, i: nat, e: Entry) {
    exists j: nat :: i <= j < |list| && list[j] == e && KeptIndex(j, limit)
  }

  predicate KeptIndex(j: nat, limit: nat) {
    j % (limit + 1) != limit
  }

  lemma {:induction false} KeptMembers(list: seq<Entry>, limit: nat, i: nat, e: Entry)
    requires i <= |list|
    ensures e in Kept(list, limit, i) <==> KeptFrom(list, limit, i, e)
    decreases |list| - i
  {
    if i < |list| {
      hide Kept;
      KeptStep(list, limit, i);
      KeptMembers(list, limit, i + 1, e);
      assert KeptIndex(i, limit) <==> i % (limit + 1) != limit;
      hide KeptIndex;
      assert KeptFrom(list, limit, i, e) <==> (KeptIndex(i, limit) && list[i] == e) || KeptFrom(list, limit, i + 1, e);
    }
  }

  /**
   * Following the evidence cursors shows exactly the rows at sorted index i with i mod (limit + 1) different
   * from limit: the row every page looks ahead to is never shown.
   */
  lemma EvidencePagesSkip(table: seq<Entry>, limit: nat, i: nat)
    requires Distinct(table) && limit > 0 && i < |Listed(table)|
    ensures FollowedEvidence(table, None, limit, 0) == Kept(Listed(table), limit, 0)
    ensures Listed(table)[i] in FollowedEvidence(table, None, limit, 0) <==> i % (limit + 1) != limit
  {
    FollowedEvidenceIsKept(table, None, limit, 0);
    var list := Listed(table);
    ListedDescends(table);
    KeptMembers(list, limit, 0, list[i]);
    forall j | 0 <= j < |list| && list[j] == list[i] ensures j == i {
      assert j < i ==> Newer(list[j], list[i]);
      assert i < j ==> Newer(list[i], list[j]);
    }
  }
}
