/** The in-memory store of the server (`MemStorage`): one array per table, one
    id counter per table, and the create, read, update, delete and link
    operations over them. A row is a JavaScript object, modelled as a map from
    property names to values; the clock (`new Date()`) is the parameter `now`. */
module Storage {
  import opened Js
  import opened Seqs
  import opened Sorting
  import Text

  type Row = map<string, Value>

  /** `row[key]`: `undefined` when the row has no such property. */
  function Get(row: Row, key: string): Value {
    if key in row then row[key] else Undefined
  }

  /** `row => row[key] === v` */
  function FieldIs(key: string, v: Value): Row -> bool {
    row => Get(row, key) == v
  }

  /** `row => row[key] !== v` */
  function FieldIsNot(key: string, v: Value): Row -> bool {
    row => Get(row, key) != v
  }

  // ---------------------------------------------------------------------------
  // Finding, selecting and removing rows

  /** `r` is the first row of `rows` whose `key` is `v`, or `None` when there is none. */
  ghost predicate IsFirstMatch(rows: seq<Row>, key: string, v: Value, r: Option<Row>) {
    && (r.None? <==> forall i :: 0 <= i < |rows| ==> Get(rows[i], key) != v)
    && (r.Some? ==> exists i :: 0 <= i < |rows| && rows[i] == r.value && Get(rows[i], key) == v
                              && forall j :: 0 <= j < i ==> Get(rows[j], key) != v)
  }

  /** `rows.findIndex(row => row[key] === v)`. */
  function IndexOf(rows: seq<Row>, key: string, v: Value): (i: int)
    ensures -1 <= i < |rows|
    ensures i == -1 <==> forall j :: 0 <= j < |rows| ==> Get(rows[j], key) != v
    ensures i >= 0 ==> Get(rows[i], key) == v && forall j :: 0 <= j < i ==> Get(rows[j], key) != v
    decreases |rows|
  {
    if rows == [] then -1
    else if Get(rows[0], key) == v then 0
    else
      var i := IndexOf(rows[1..], key, v);
      if i == -1 then -1 else i + 1
  }

  /** `rows.find(row => row[key] === v)`. */
  function Find(rows: seq<Row>, key: string, v: Value): (r: Option<Row>)
    ensures IsFirstMatch(rows, key, v, r)
  {
    var i := IndexOf(rows, key, v);
    if i < 0 then None else Some(rows[i])
  }

  /** `r` lists, in table order, exactly the rows of `rows` whose `key` is `v`. */
  ghost predicate Selects(r: seq<Row>, rows: seq<Row>, key: string, v: Value) {
    && Subsequence(r, rows)
    && (forall i :: 0 <= i < |r| ==> Get(r[i], key) == v)
    && (forall row :: row in rows && Get(row, key) == v ==> row in r)
  }

  /** `rows.filter(row => row[key] === v)`. */
  function Where(rows: seq<Row>, key: string, v: Value): (r: seq<Row>)
    ensures Selects(r, rows, key, v)
  {
    FilterMembers(rows, FieldIs(key, v));
    FilterSubsequence(rows, FieldIs(key, v));
    Filter(rows, FieldIs(key, v))
  }

  /** `rows.filter(row => row[key] !== v)`: the cascade step of every delete. */
  function Without(rows: seq<Row>, key: string, v: Value): (r: seq<Row>)
    ensures |r| < |rows| <==> exists i :: 0 <= i < |rows| && Get(rows[i], key) == v
  {
    FilterShrinks(rows, FieldIsNot(key, v));
    Filter(rows, FieldIsNot(key, v))
  }

  /** The rows that survive `Without` are exactly those whose `key` is not `v`,
      in their original order; when nothing matched, the table is returned as it was. */
  lemma WithoutExact(rows: seq<Row>, key: string, v: Value)
    ensures Subsequence(Without(rows, key, v), rows)
    ensures forall i :: 0 <= i < |Without(rows, key, v)| ==> Get(Without(rows, key, v)[i], key) != v
    ensures forall row :: row in Without(rows, key, v) <==> row in rows && Get(row, key) != v
    ensures (forall i :: 0 <= i < |rows| ==> Get(rows[i], key) != v) ==> Without(rows, key, v) == rows
  {
    FilterMembers(rows, FieldIsNot(key, v));
    FilterShrinks(rows, FieldIsNot(key, v));
    FilterSubsequence(rows, FieldIsNot(key, v));
  }

  // ---------------------------------------------------------------------------
  // Creating and merging rows

  /** The id counters, one per table, as `this.counters` holds them. */
  datatype Counters = Counters(
    users: int, testRuns: int, testSuites: int, testCases: int, testResults: int,
    failureTracking: int, testPlans: int, comments: int, notifications: int,
    reportTemplates: int, reports: int)

  /** How a table turns its counter into an id: users get `String(n)`, every other table `n`. */
  function GeneratedId(counter: int, asString: bool): Value {
    if asString then Str(Text.IntToString(counter)) else Num(counter)
  }

  /** The row a `create` operation stores, and the counter after it:
      `{ ...input, id: input.id || counter++, createdAt: input.createdAt || now,
      updatedAt: input.updatedAt || now }` (tables without `updatedAt` leave it out). */
  function NewRow(input: Row, counter: int, now: int, asString: bool, stampUpdated: bool): (r: (Row, int))
    ensures r.0.Keys == input.Keys + {"id", "createdAt"} + (if stampUpdated then {"updatedAt"} else {})
    ensures forall k :: k in input && k != "id" && k != "createdAt" && (k != "updatedAt" || !stampUpdated)
                        ==> r.0[k] == input[k]
    ensures Truthy(Get(input, "id")) ==> r.0["id"] == input["id"] && r.1 == counter
    ensures !Truthy(Get(input, "id")) ==> r.0["id"] == GeneratedId(counter, asString) && r.1 == counter + 1
    ensures r.0["createdAt"] == if Truthy(Get(input, "createdAt")) then input["createdAt"] else Date(now)
    ensures stampUpdated ==>
              r.0["updatedAt"] == if Truthy(Get(input, "updatedAt")) then input["updatedAt"] else Date(now)
  {
    var supplied := Truthy(Get(input, "id"));
    var id := if supplied then Get(input, "id") else GeneratedId(counter, asString);
    var next := if supplied then counter else counter + 1;
    var created := Or(Get(input, "createdAt"), Date(now));
    var row := input["id" := id]["createdAt" := created];
    if stampUpdated then (row["updatedAt" := Or(Get(input, "updatedAt"), Date(now))], next)
    else (row, next)
  }

  /** `{ ...row, ...patch, updatedAt: now }`: the row an `update` operation stores. */
  function Merged(row: Row, patch: Row, now: int): (r: Row)
    ensures r.Keys == row.Keys + patch.Keys + {"updatedAt"}
    ensures r["updatedAt"] == Date(now)
    ensures forall k :: k in patch && k != "updatedAt" ==> r[k] == patch[k]
    ensures forall k :: k in row && k !in patch && k != "updatedAt" ==> r[k] == row[k]
  {
    (row + patch)["updatedAt" := Date(now)]
  }

  /** Every numeric id in `rows` is below `next`. */
  ghost predicate IdsBelow(rows: seq<Row>, next: int) {
    forall i :: 0 <= i < |rows| ==> (Get(rows[i], "id").Num? ==> Get(rows[i], "id").n < next)
  }

  /** A counter-generated id is new to its table and keeps the table's ids below the counter. */
  lemma GeneratedIdIsFresh(rows: seq<Row>, input: Row, counter: int, now: int, stampUpdated: bool)
    requires IdsBelow(rows, counter)
    requires !Truthy(Get(input, "id"))
    ensures var (row, next) := NewRow(input, counter, now, false, stampUpdated);
      && (forall i :: 0 <= i < |rows| ==> Get(rows[i], "id") != Get(row, "id"))
      && IdsBelow(rows + [row], next)
  {
    var (row, next) := NewRow(input, counter, now, false, stampUpdated);
    assert Get(row, "id") == Num(counter);
    forall i | 0 <= i < |rows + [row]|
      ensures Get((rows + [row])[i], "id").Num? ==> Get((rows + [row])[i], "id").n < next
    {
      if i < |rows| { assert (rows + [row])[i] == rows[i]; }
    }
  }

  /** A supplied id bypasses the counter, so it can collide with an id the counter
      hands out later: a row created with id 1 before any generated id. */
  lemma SuppliedIdCanCollide()
    ensures var (first, c1) := NewRow(map["id" := Num(1)], 1, 0, false, true);
      var (second, c2) := NewRow(map[], c1, 0, false, true);
      Get(first, "id") == Get(second, "id") && !IdsBelow([first], c1)
  {
    var (first, c1) := NewRow(map["id" := Num(1)], 1, 0, false, true);
    assert Get(first, "id") == Num(1) && c1 == 1;
    assert [first][0] == first;
  }

  // ---------------------------------------------------------------------------
  // Ordering (the `sort` comparators on timestamps)

  /** `new Date(v)` as a number of milliseconds: dates and numbers; anything else is 0. */
  function TimeOf(v: Value): int {
    match v
    case Date(t) => t
    case Num(n) => n
    case _ => 0
  }

  /** `(a, b) => new Date(b[key]) - new Date(a[key])`. */
  function NewestFirst(key: string): (Row, Row) -> int {
    (a, b) => TimeOf(Get(b, key)) - TimeOf(Get(a, key))
  }

  /** `(a, b) => new Date(a[key]) - new Date(b[key])`. */
  function OldestFirst(key: string): (Row, Row) -> int {
    (a, b) => TimeOf(Get(a, key)) - TimeOf(Get(b, key))
  }

  /** Both orders are consistent comparators; sorted by them means the
      timestamps never increase (respectively never decrease). */
  lemma TimeOrders(s: seq<Row>, key: string)
    ensures IsComparator(NewestFirst(key)) && IsComparator(OldestFirst(key))
    ensures Sorted(s, NewestFirst(key)) <==>
              forall i, j :: 0 <= i < j < |s| ==> TimeOf(Get(s[i], key)) >= TimeOf(Get(s[j], key))
    ensures Sorted(s, OldestFirst(key)) <==>
              forall i, j :: 0 <= i < j < |s| ==> TimeOf(Get(s[i], key)) <= TimeOf(Get(s[j], key))
  {
  }

  /** How many rows `rows.slice(0, limit)` keeps of `n` when `limit` is truthy
      (a negative limit counts back from the end); all `n` when it is not. */
  function LimitedLength(limit: Option<int>, n: nat): (k: nat)
    ensures k <= n
    ensures limit.None? || limit.value == 0 ==> k == n
    ensures limit.Some? && limit.value > 0 ==> k == if limit.value < n then limit.value else n
    ensures limit.Some? && limit.value < 0 ==> k == if n + limit.value < 0 then 0 else n + limit.value
  {
    if limit.None? || limit.value == 0 then n else SliceIndex(limit.value, n)
  }

  /** A prefix of a sorted list is sorted and draws on the list's elements. */
  lemma SortedPrefix(s: seq<Row>, n: nat, cmp: (Row, Row) -> int)
    requires Sorted(s, cmp) && n <= |s|
    ensures Sorted(s[..n], cmp)
    ensures multiset(s[..n]) <= multiset(s)
  {
    assert s == s[..n] + s[n..];
    assert multiset(s) == multiset(s[..n]) + multiset(s[n..]);
  }

  /** Lists with the same elements, counted with multiplicity, have the same members. */
  lemma SameMembers(r: seq<Row>, s: seq<Row>)
    requires multiset(r) == multiset(s)
    ensures forall x :: x in r <==> x in s
  {
    forall x ensures x in r <==> x in s {
      assert x in r <==> x in multiset(r);
      assert x in s <==> x in multiset(s);
    }
  }

  /** Every element of a sub-multiset is an element of the list. */
  lemma MultisetMembers(r: seq<Row>, s: seq<Row>)
    requires multiset(r) <= multiset(s)
    ensures forall i :: 0 <= i < |r| ==> r[i] in s
  {
    forall i | 0 <= i < |r| ensures r[i] in s {
      assert r[i] in multiset(r);
    }
  }

  /** `[...rows].sort(cmp)` followed by `if (limit) rows = rows.slice(0, limit)`:
      the first rows of the sorted copy, as many as the limit keeps. */
  function SortAndLimit(rows: seq<Row>, cmp: (Row, Row) -> int, limit: Option<int>): (r: seq<Row>)
    requires IsComparator(cmp)
    ensures Sorted(r, cmp)
    ensures multiset(r) <= multiset(rows)
    ensures |r| == LimitedLength(limit, |rows|)
    ensures r == Sort(rows, cmp)[..|r|]
    ensures |r| == |rows| ==> multiset(r) == multiset(rows)
  {
    var sorted := Sort(rows, cmp);
    SortSorted(rows, cmp);
    var r := if limit.Some? && limit.value != 0 then Slice(sorted, 0, limit.value) else sorted;
    assert r == sorted[..LimitedLength(limit, |rows|)];
    SortedPrefix(sorted, |r|, cmp);
    assert |r| == |rows| ==> r == sorted;
    r
  }

  // ---------------------------------------------------------------------------
  // Suite and plan membership (the relation tables)

  /** The relation row `{ [ownerKey]: owner, testCaseId, addedAt: now }`. */
  function LinkRow(ownerKey: string, owner: Value, testCaseId: Value, now: int): Row {
    map[ownerKey := owner, "testCaseId" := testCaseId, "addedAt" := Date(now)]
  }

  /** The rows the loop of `addTestCasesTo{Suite,Plan}` pushes, one per id, in order. */
  function LinkRows(ownerKey: string, owner: Value, ids: seq<Value>, now: int): (r: seq<Row>)
    ensures |r| == |ids|
    ensures forall i :: 0 <= i < |ids| ==> r[i] == LinkRow(ownerKey, owner, ids[i], now)
  {
    seq(|ids|, i requires 0 <= i < |ids| => LinkRow(ownerKey, owner, ids[i], now))
  }

  /** `rel => !(rel[ownerKey] === owner && ids.includes(rel.testCaseId))` */
  function NotLinkedTo(ownerKey: string, owner: Value, ids: seq<Value>): Row -> bool {
    rel => !(Get(rel, ownerKey) == owner && Get(rel, "testCaseId") in ids)
  }

  /** `rel => rel[ownerKey] === owner && rel.testCaseId === id` */
  function IsLink(ownerKey: string, owner: Value, id: Value): Row -> bool {
    rel => Get(rel, ownerKey) == owner && Get(rel, "testCaseId") == id
  }

  /** The relation table after `addTestCasesTo{Suite,Plan}(owner, ids)`: the old
      relations of `owner` with these ids removed, then one new relation per id. */
  function AddLinks(rels: seq<Row>, ownerKey: string, owner: Value, ids: seq<Value>, now: int): seq<Row>
    requires ownerKey != "testCaseId" && ownerKey != "addedAt"
  {
    Filter(rels, NotLinkedTo(ownerKey, owner, ids)) + LinkRows(ownerKey, owner, ids, now)
  }

  lemma {:induction false} CountLinks(ownerKey: string, owner: Value, ids: seq<Value>, now: int, id: Value)
    requires ownerKey != "testCaseId" && ownerKey != "addedAt"
    ensures |Filter(LinkRows(ownerKey, owner, ids, now), IsLink(ownerKey, owner, id))| == multiset(ids)[id]
    decreases |ids|
  {
    if ids != [] {
      var rows := LinkRows(ownerKey, owner, ids, now);
      CountLinks(ownerKey, owner, ids[1..], now, id);
      assert rows[1..] == LinkRows(ownerKey, owner, ids[1..], now);
      assert ids == [ids[0]] + ids[1..];
      assert Get(rows[0], "testCaseId") == ids[0] && Get(rows[0], ownerKey) == owner;
    }
  }

  /** After adding, each listed id is related to the owner exactly as many times
      as it is listed: at least once, and exactly once when the ids are distinct. */
  lemma AddLinksCount(rels: seq<Row>, ownerKey: string, owner: Value, ids: seq<Value>, now: int, id: Value)
    requires ownerKey != "testCaseId" && ownerKey != "addedAt"
    requires id in ids
    ensures |Filter(AddLinks(rels, ownerKey, owner, ids, now), IsLink(ownerKey, owner, id))| == multiset(ids)[id]
  {
    var kept := Filter(rels, NotLinkedTo(ownerKey, owner, ids));
    var added := LinkRows(ownerKey, owner, ids, now);
    FilterAppend(kept, added, IsLink(ownerKey, owner, id));
    FilterNone(kept, IsLink(ownerKey, owner, id));
    CountLinks(ownerKey, owner, ids, now, id);
  }

  /** Adding to one owner leaves the relations of every other owner as they were. */
  lemma AddLinksKeepsOthers(rels: seq<Row>, ownerKey: string, owner: Value, ids: seq<Value>, now: int)
    requires ownerKey != "testCaseId" && ownerKey != "addedAt"
    ensures Filter(AddLinks(rels, ownerKey, owner, ids, now), FieldIsNot(ownerKey, owner))
         == Filter(rels, FieldIsNot(ownerKey, owner))
  {
    var kept := Filter(rels, NotLinkedTo(ownerKey, owner, ids));
    var added := LinkRows(ownerKey, owner, ids, now);
    FilterAppend(kept, added, FieldIsNot(ownerKey, owner));
    FilterNone(added, FieldIsNot(ownerKey, owner));
    FilterFilter(rels, NotLinkedTo(ownerKey, owner, ids), FieldIsNot(ownerKey, owner), FieldIsNot(ownerKey, owner));
  }

  /** `removeTestCasesFrom{Suite,Plan}` keeps exactly the relations that do not link
      `owner` to one of `ids`, and reports a change exactly when one did. */
  lemma RemoveLinksExact(rels: seq<Row>, ownerKey: string, owner: Value, ids: seq<Value>)
    ensures var r := Filter(rels, NotLinkedTo(ownerKey, owner, ids));
      && Subsequence(r, rels)
      && (forall rel :: rel in r <==> rel in rels && !(Get(rel, ownerKey) == owner && Get(rel, "testCaseId") in ids))
      && (|r| != |rels| <==>
            exists i :: 0 <= i < |rels| && Get(rels[i], ownerKey) == owner && Get(rels[i], "testCaseId") in ids)
  {
    FilterMembers(rels, NotLinkedTo(ownerKey, owner, ids));
    FilterShrinks(rels, NotLinkedTo(ownerKey, owner, ids));
    FilterSubsequence(rels, NotLinkedTo(ownerKey, owner, ids));
  }

  /** The test-case ids related to `owner`, in relation-table order. */
  function LinkedIds(rels: seq<Row>, ownerKey: string, owner: Value): (ids: seq<Value>)
    ensures forall id :: id in ids <==> exists rel :: rel in rels && Get(rel, ownerKey) == owner && Get(rel, "testCaseId") == id
  {
    var mine := Filter(rels, FieldIs(ownerKey, owner));
    FilterMembers(rels, FieldIs(ownerKey, owner));
    var ids := seq(|mine|, i requires 0 <= i < |mine| => Get(mine[i], "testCaseId"));
    assert forall id :: id in ids ==> exists i :: 0 <= i < |mine| && Get(mine[i], "testCaseId") == id;
    assert forall rel :: rel in mine ==> Get(rel, "testCaseId") in ids by {
      forall rel | rel in mine ensures Get(rel, "testCaseId") in ids {
        var i :| 0 <= i < |mine| && mine[i] == rel;
        assert ids[i] == Get(rel, "testCaseId");
      }
    }
    ids
  }

  /** `testCaseIds.includes(testCase.id)` */
  function IdIn(ids: seq<Value>): Row -> bool {
    row => Get(row, "id") in ids
  }

  /** `getTestCasesFor{Suite,Plan}`: the test cases, in table order, that a relation links to `owner`. */
  function TestCasesFor(testCases: seq<Row>, rels: seq<Row>, ownerKey: string, owner: Value): (r: seq<Row>)
    ensures Subsequence(r, testCases)
    ensures forall tc :: tc in r <==> (tc in testCases &&
              exists rel :: rel in rels && Get(rel, ownerKey) == owner && Get(rel, "testCaseId") == Get(tc, "id"))
  {
    var ids := LinkedIds(rels, ownerKey, owner);
    FilterMembers(testCases, IdIn(ids));
    FilterSubsequence(testCases, IdIn(ids));
    Filter(testCases, IdIn(ids))
  }

  // ---------------------------------------------------------------------------
  // Searching test cases and notifications

  /** `row[key]?.toLowerCase().includes(q)` for an already lower-cased `q`. */
  predicate FieldMentions(row: Row, key: string, q: string) {
    Get(row, key).Str? && Text.Contains(Text.Lower(Get(row, key).s), q)
  }

  /** The filter of `getTestCases`: the type when one is given, the search text
      (case-insensitively, in the name, description or rich content) when one is given. */
  predicate TestCaseMatches(row: Row, testType: Value, search: Option<string>) {
    && (Truthy(testType) ==> Get(row, "type") == testType)
    && (search.Some? && search.value != "" ==>
          var q := Text.Lower(search.value);
          FieldMentions(row, "name", q) || FieldMentions(row, "description", q) || FieldMentions(row, "richContent", q))
  }

  function TestCaseQuery(testType: Value, search: Option<string>): Row -> bool {
    row => TestCaseMatches(row, testType, search)
  }

  /** `markAllNotificationsAsRead(userId)`: `{ ...n, read: true }` for the user's
      notifications, every other notification untouched. */
  function MarkAllRead(rows: seq<Row>, userId: Value): (r: seq<Row>)
    ensures |r| == |rows|
    ensures forall i :: 0 <= i < |rows| && Get(rows[i], "userId") == userId ==> r[i] == rows[i]["read" := Bool(true)]
    ensures forall i :: 0 <= i < |rows| && Get(rows[i], "userId") != userId ==> r[i] == rows[i]
  {
    seq(|rows|, i requires 0 <= i < |rows| =>
      if Get(rows[i], "userId") == userId then rows[i]["read" := Bool(true)] else rows[i])
  }

  /** After marking all of a user's notifications, none of them is unread, and
      marking again changes nothing. */
  lemma MarkAllReadDone(rows: seq<Row>, userId: Value)
    ensures forall i :: 0 <= i < |rows| && Get(MarkAllRead(rows, userId)[i], "userId") == userId ==>
              Get(MarkAllRead(rows, userId)[i], "read") == Bool(true)
    ensures MarkAllRead(MarkAllRead(rows, userId), userId) == MarkAllRead(rows, userId)
    ensures Where(Where(MarkAllRead(rows, userId), "userId", userId), "read", Bool(false)) == []
  {
    var r := MarkAllRead(rows, userId);
    forall i | 0 <= i < |rows| ensures Get(r[i], "userId") == userId ==> Get(r[i], "read") == Bool(true) {
      if Get(rows[i], "userId") != userId {
        assert r[i] == rows[i];
      }
    }
    var twice := MarkAllRead(r, userId);
    forall i | 0 <= i < |rows| ensures twice[i] == r[i] {
      if Get(r[i], "userId") == userId {
        assert r[i]["read" := Bool(true)] == r[i];
      }
    }
    var mine := Where(r, "userId", userId);
    forall i | 0 <= i < |mine| ensures !FieldIs("read", Bool(false))(mine[i]) {
      SubsequenceMembers(mine, r);
      assert mine[i] in r;
      var k :| 0 <= k < |r| && r[k] == mine[i];
    }
    FilterNone(mine, FieldIs("read", Bool(false)));
  }

  /** The filter of `getNotificationsForUser`: the user's, and only those whose
      `read` matches when `read` is given. */
  predicate NotificationSelected(n: Row, userId: Value, read: Value) {
    Get(n, "userId") == userId && (read != Undefined ==> Get(n, "read") == read)
  }

  /** The two filters of `getNotificationsForUser`, before its sort. */
  function SelectNotifications(rows: seq<Row>, userId: Value, read: Value): (r: seq<Row>)
    ensures forall n :: n in r <==> n in rows && NotificationSelected(n, userId, read)
  {
    var mine := Where(rows, "userId", userId);
    FilterMembers(rows, FieldIs("userId", userId));
    if read != Undefined then
      FilterMembers(mine, FieldIs("read", read));
      Where(mine, "read", read)
    else mine
  }

  // ---------------------------------------------------------------------------
  // Comments

  /** `deleteComment(id)`'s two filters: the comment itself, then its direct replies. */
  function WithoutComment(rows: seq<Row>, id: Value): seq<Row> {
    Without(Without(rows, "id", id), "parentId", id)
  }

  /** Deleting a comment removes it and its direct replies and nothing else; the
      survivors keep their order, so a reply to a reply survives. */
  lemma DeleteCommentCascade(rows: seq<Row>, id: Value)
    ensures var r := WithoutComment(rows, id);
      && Subsequence(r, rows)
      && (forall i :: 0 <= i < |r| ==> Get(r[i], "id") != id && Get(r[i], "parentId") != id)
      && (forall row :: row in r <==> row in rows && Get(row, "id") != id && Get(row, "parentId") != id)
  {
    var once := Without(rows, "id", id);
    var r := Without(once, "parentId", id);
    WithoutExact(rows, "id", id);
    WithoutExact(once, "parentId", id);
    SubsequenceTransitive(r, once, rows);
    SubsequenceMembers(r, once);
  }

  /** `deleteComment` reports a change exactly when some row had that id or that parent. */
  lemma DeleteCommentShrinks(rows: seq<Row>, id: Value)
    ensures |WithoutComment(rows, id)| < |rows| <==>
      exists i :: 0 <= i < |rows| && (Get(rows[i], "id") == id || Get(rows[i], "parentId") == id)
  {
    var once := Without(rows, "id", id);
    var r := Without(once, "parentId", id);
    if exists i :: 0 <= i < |rows| && (Get(rows[i], "id") == id || Get(rows[i], "parentId") == id) {
      var i :| 0 <= i < |rows| && (Get(rows[i], "id") == id || Get(rows[i], "parentId") == id);
      if Get(rows[i], "id") != id {
        WithoutExact(rows, "id", id);
        assert rows[i] in once;
        var k :| 0 <= k < |once| && once[k] == rows[i];
        assert |r| < |once|;
      }
    } else {
      WithoutExact(rows, "id", id);
      WithoutExact(once, "parentId", id);
    }
  }

  lemma {:induction false} SubsequenceTransitive<T>(a: seq<T>, b: seq<T>, c: seq<T>)
    requires Subsequence(a, b) && Subsequence(b, c)
    ensures Subsequence(a, c)
    decreases |c|
  {
    if a != [] {
      assert c != [];
      if b[0] == c[0] && Subsequence(b[1..], c[1..]) {
        if a[0] == b[0] && Subsequence(a[1..], b[1..]) {
          SubsequenceTransitive(a[1..], b[1..], c[1..]);
        } else {
          SubsequenceTransitive(a, b[1..], c[1..]);
        }
      } else {
        SubsequenceTransitive(a, b, c[1..]);
      }
    }
  }

  /** The state of the whole store, one field per table. */
  datatype Tables = Tables(
    users: seq<Row>, testRuns: seq<Row>, testSuites: seq<Row>, testCases: seq<Row>,
    testResults: seq<Row>, failureTracking: seq<Row>, testPlans: seq<Row>, comments: seq<Row>,
    notifications: seq<Row>, reportTemplates: seq<Row>, reports: seq<Row>,
    testSuiteTestCases: seq<Row>, testPlanTestCases: seq<Row>, counters: Counters)

  class MemStorage {
    var users: seq<Row>
    var testRuns: seq<Row>
    var testSuites: seq<Row>
    var testCases: seq<Row>
    var testResults: seq<Row>
    var failureTracking: seq<Row>
    var testPlans: seq<Row>
    var comments: seq<Row>
    var notifications: seq<Row>
    var reportTemplates: seq<Row>
    var reports: seq<Row>
    var testSuiteTestCases: seq<Row>
    var testPlanTestCases: seq<Row>
    var counters: Counters

    function State(): Tables
      reads this
    {
      Tables(users, testRuns, testSuites, testCases, testResults, failureTracking, testPlans,
             comments, notifications, reportTemplates, reports, testSuiteTestCases,
             testPlanTestCases, counters)
    }

    /** Every table empty, every counter at 1. */
    constructor ()
      ensures State() == Tables([], [], [], [], [], [], [], [], [], [], [], [], [],
                                Counters(1, 1, 1, 1, 1, 1, 1, 1, 1, 1, 1))
    {
      users, testRuns, testSuites, testCases, testResults := [], [], [], [], [];
      failureTracking, testPlans, comments, notifications := [], [], [], [];
      reportTemplates, reports, testSuiteTestCases, testPlanTestCases := [], [], [], [];
      counters := Counters(1, 1, 1, 1, 1, 1, 1, 1, 1, 1, 1);
    }

    // ----- users

    function GetUser(id: Value): (r: Option<Row>)
      reads this
      ensures IsFirstMatch(users, "id", id, r)
    {
      Find(users, "id", id)
    }

    function GetUserByUsername(username: Value): (r: Option<Row>)
      reads this
      ensures IsFirstMatch(users, "username", username, r)
    {
      Find(users, "username", username)
    }

    function GetUserByEmail(email: Value): (r: Option<Row>)
      reads this
      ensures IsFirstMatch(users, "email", email, r)
    {
      Find(users, "email", email)
    }

    method CreateUser(user: Row, now: int) returns (r: Row)
      modifies this
      ensures var (row, next) := NewRow(user, old(counters.users), now, true, true);
        r == row && State() == old(State()).(users := old(users) + [row], counters := old(counters).(users := next))
    {
      var next: int;
      r, next := NewRow(user, counters.users, now, true, true).0, NewRow(user, counters.users, now, true, true).1;
      users := users + [r];
      counters := counters.(users := next);
    }

    method UpsertUser(userData: Row, now: int) returns (r: Row)
      modifies this
      ensures var i := IndexOf(old(users), "id", Get(userData, "id"));
        if i >= 0 then
          r == Merged(old(users)[i], userData, now) && State() == old(State()).(users := old(users)[i := r])
        else
          var (row, next) := NewRow(userData, old(counters.users), now, true, true);
          r == row && State() == old(State()).(users := old(users) + [row], counters := old(counters).(users := next))
    {
      var i := IndexOf(users, "id", Get(userData, "id"));
      if i != -1 {
        r := Merged(users[i], userData, now);
        users := users[i := r];
      } else {
        r := CreateUser(userData, now);
      }
    }

    function GetUsersByRole(role: Value): (r: seq<Row>)
      reads this
      ensures Selects(r, users, "role", role)
    {
      Where(users, "role", role)
    }

    method UpdateUserRole(id: Value, role: Value, now: int) returns (r: Option<Row>)
      modifies this
      ensures var i := IndexOf(old(users), "id", id);
        if i < 0 then r == None && State() == old(State())
        else r == Some(Merged(old(users)[i], map["role" := role], now))
             && State() == old(State()).(users := old(users)[i := r.value])
    {
      var i := IndexOf(users, "id", id);
      if i == -1 { return None; }
      users := users[i := Merged(users[i], map["role" := role], now)];
      r := Some(users[i]);
    }

    method UpdateUserPreferences(id: Value, preferences: Value, now: int) returns (r: Option<Row>)
      modifies this
      ensures var i := IndexOf(old(users), "id", id);
        if i < 0 then r == None && State() == old(State())
        else r == Some(Merged(old(users)[i], map["preferences" := preferences], now))
             && State() == old(State()).(users := old(users)[i := r.value])
    {
      var i := IndexOf(users, "id", id);
      if i == -1 { return None; }
      users := users[i := Merged(users[i], map["preferences" := preferences], now)];
      r := Some(users[i]);
    }

    // ----- test runs

    method CreateTestRun(run: Row, now: int) returns (r: Row)
      modifies this
      ensures var (row, next) := NewRow(run, old(counters.testRuns), now, false, true);
        r == row && State() == old(State()).(testRuns := old(testRuns) + [row], counters := old(counters).(testRuns := next))
      ensures old(IdsBelow(testRuns, counters.testRuns)) && !Truthy(Get(run, "id")) ==>
        IdsBelow(testRuns, counters.testRuns) && forall i :: 0 <= i < |old(testRuns)| ==> Get(old(testRuns)[i], "id") != Get(r, "id")
    {
      if IdsBelow(testRuns, counters.testRuns) && !Truthy(Get(run, "id")) {
        GeneratedIdIsFresh(testRuns, run, counters.testRuns, now, true);
      }
      var next: int;
      r, next := NewRow(run, counters.testRuns, now, false, true).0, NewRow(run, counters.testRuns, now, false, true).1;
      testRuns := testRuns + [r];
      counters := counters.(testRuns := next);
    }

    function GetTestRun(id: Value): (r: Option<Row>)
      reads this
      ensures IsFirstMatch(testRuns, "id", id, r)
    {
      Find(testRuns, "id", id)
    }

    /** Newest first by `createdAt`, at most `limit` of them; the table itself is not reordered. */
    function GetTestRuns(limit: Option<int>): (r: seq<Row>)
      reads this
      ensures Sorted(r, NewestFirst("createdAt"))
      ensures r <= Sort(testRuns, NewestFirst("createdAt"))
      ensures multiset(r) <= multiset(testRuns)
      ensures |r| == LimitedLength(limit, |testRuns|)
      ensures |r| == |testRuns| ==> multiset(r) == multiset(testRuns)
    {
      TimeOrders([], "createdAt");
      SortAndLimit(testRuns, NewestFirst("createdAt"), limit)
    }

    method UpdateTestRun(id: Value, data: Row, now: int) returns (r: Option<Row>)
      modifies this
      ensures var i := IndexOf(old(testRuns), "id", id);
        if i < 0 then r == None && State() == old(State())
        else r == Some(Merged(old(testRuns)[i], data, now)) && State() == old(State()).(testRuns := old(testRuns)[i := r.value])
    {
      var i := IndexOf(testRuns, "id", id);
      if i == -1 { return None; }
      testRuns := testRuns[i := Merged(testRuns[i], data, now)];
      r := Some(testRuns[i]);
    }

    /** Removes the run and, as a cascade, the results that belong to it. */
    method DeleteTestRun(id: Value) returns (deleted: bool)
      modifies this
      ensures State() == old(State()).(testRuns := Without(old(testRuns), "id", id),
                                       testResults := Without(old(testResults), "testRunId", id))
      ensures deleted <==> exists i :: 0 <= i < |old(testRuns)| && Get(old(testRuns)[i], "id") == id
    {
      var initialLength := |testRuns|;
      testRuns := Without(testRuns, "id", id);
      testResults := Without(testResults, "testRunId", id);
      deleted := |testRuns| != initialLength;
    }

    // ----- test suites

    method CreateTestSuite(suite: Row, now: int) returns (r: Row)
      modifies this
      ensures var (row, next) := NewRow(suite, old(counters.testSuites), now, false, true);
        r == row && State() == old(State()).(testSuites := old(testSuites) + [row], counters := old(counters).(testSuites := next))
    {
      var next: int;
      r, next := NewRow(suite, counters.testSuites, now, false, true).0, NewRow(suite, counters.testSuites, now, false, true).1;
      testSuites := testSuites + [r];
      counters := counters.(testSuites := next);
    }

    function GetTestSuite(id: Value): (r: Option<Row>)
      reads this
      ensures IsFirstMatch(testSuites, "id", id, r)
    {
      Find(testSuites, "id", id)
    }

    /** The children of `parentId` when it is truthy, otherwise the whole table. */
    function GetTestSuites(parentId: Value): (r: seq<Row>)
      reads this
      ensures Truthy(parentId) ==> Selects(r, testSuites, "parentId", parentId)
      ensures !Truthy(parentId) ==> r == testSuites
    {
      if Truthy(parentId) then Where(testSuites, "parentId", parentId) else testSuites
    }

    method UpdateTestSuite(id: Value, data: Row, now: int) returns (r: Option<Row>)
      modifies this
      ensures var i := IndexOf(old(testSuites), "id", id);
        if i < 0 then r == None && State() == old(State())
        else r == Some(Merged(old(testSuites)[i], data, now)) && State() == old(State()).(testSuites := old(testSuites)[i := r.value])
    {
      var i := IndexOf(testSuites, "id", id);
      if i == -1 { return None; }
      testSuites := testSuites[i := Merged(testSuites[i], data, now)];
      r := Some(testSuites[i]);
    }

    /** Removes the suite and, as a cascade, its relations to test cases. */
    method DeleteTestSuite(id: Value) returns (deleted: bool)
      modifies this
      ensures State() == old(State()).(testSuites := Without(old(testSuites), "id", id),
                                       testSuiteTestCases := Without(old(testSuiteTestCases), "testSuiteId", id))
      ensures deleted <==> exists i :: 0 <= i < |old(testSuites)| && Get(old(testSuites)[i], "id") == id
    {
      var initialLength := |testSuites|;
      testSuites := Without(testSuites, "id", id);
      testSuiteTestCases := Without(testSuiteTestCases, "testSuiteId", id);
      deleted := |testSuites| != initialLength;
    }

    method AddTestCasesToSuite(suiteId: Value, testCaseIds: seq<Value>, now: int) returns (ok: bool)
      modifies this
      ensures ok
      ensures State() == old(State()).(testSuiteTestCases := AddLinks(old(testSuiteTestCases), "testSuiteId", suiteId, testCaseIds, now))
    {
      var rels := Filter(testSuiteTestCases, NotLinkedTo("testSuiteId", suiteId, testCaseIds));
      ghost var kept := rels;
      var i := 0;
      while i < |testCaseIds|
        invariant 0 <= i <= |testCaseIds|
        invariant rels == kept + LinkRows("testSuiteId", suiteId, testCaseIds[..i], now)
      {
        rels := rels + [LinkRow("testSuiteId", suiteId, testCaseIds[i], now)];
        assert testCaseIds[..i + 1] == testCaseIds[..i] + [testCaseIds[i]];
        i := i + 1;
      }
      assert testCaseIds[..i] == testCaseIds;
      testSuiteTestCases := rels;
      ok := true;
    }

    method RemoveTestCasesFromSuite(suiteId: Value, testCaseIds: seq<Value>) returns (removed: bool)
      modifies this
      ensures State() == old(State()).(testSuiteTestCases := Filter(old(testSuiteTestCases), NotLinkedTo("testSuiteId", suiteId, testCaseIds)))
      ensures removed <==> |testSuiteTestCases| != |old(testSuiteTestCases)|
    {
      var initialLength := |testSuiteTestCases|;
      testSuiteTestCases := Filter(testSuiteTestCases, NotLinkedTo("testSuiteId", suiteId, testCaseIds));
      removed := |testSuiteTestCases| != initialLength;
    }

    function GetTestCasesForSuite(suiteId: Value): (r: seq<Row>)
      reads this
      ensures Subsequence(r, testCases)
      ensures forall tc :: tc in r <==> (tc in testCases &&
                exists rel :: rel in testSuiteTestCases && Get(rel, "testSuiteId") == suiteId && Get(rel, "testCaseId") == Get(tc, "id"))
    {
      TestCasesFor(testCases, testSuiteTestCases, "testSuiteId", suiteId)
    }

    // ----- test cases

    method CreateTestCase(testCase: Row, now: int) returns (r: Row)
      modifies this
      ensures var (row, next) := NewRow(testCase, old(counters.testCases), now, false, true);
        r == row && State() == old(State()).(testCases := old(testCases) + [row], counters := old(counters).(testCases := next))
    {
      var next: int;
      r, next := NewRow(testCase, counters.testCases, now, false, true).0, NewRow(testCase, counters.testCases, now, false, true).1;
      testCases := testCases + [r];
      counters := counters.(testCases := next);
    }

    function GetTestCase(id: Value): (r: Option<Row>)
      reads this
      ensures IsFirstMatch(testCases, "id", id, r)
    {
      Find(testCases, "id", id)
    }

    /** Filtered by type and search text, most recently updated first, cut to `limit`. */
    function GetTestCases(testType: Value, search: Option<string>, limit: Option<int>): (r: seq<Row>)
      reads this
      ensures forall i :: 0 <= i < |r| ==> r[i] in testCases && TestCaseMatches(r[i], testType, search)
      ensures (limit.None? || limit.value == 0) ==>
                forall tc :: tc in testCases && TestCaseMatches(tc, testType, search) ==> tc in r
      ensures Sorted(r, NewestFirst("updatedAt"))
      ensures r <= Sort(Filter(testCases, TestCaseQuery(testType, search)), NewestFirst("updatedAt"))
      ensures |r| == LimitedLength(limit, |Filter(testCases, TestCaseQuery(testType, search))|)
    {
      var matching := Filter(testCases, TestCaseQuery(testType, search));
      FilterMembers(testCases, TestCaseQuery(testType, search));
      TimeOrders([], "updatedAt");
      var r := SortAndLimit(matching, NewestFirst("updatedAt"), limit);
      MultisetMembers(r, matching);
      if limit.None? || limit.value == 0 then SameMembers(r, matching); r else r
    }

    method UpdateTestCase(id: Value, data: Row, now: int) returns (r: Option<Row>)
      modifies this
      ensures var i := IndexOf(old(testCases), "id", id);
        if i < 0 then r == None && State() == old(State())
        else r == Some(Merged(old(testCases)[i], data, now)) && State() == old(State()).(testCases := old(testCases)[i := r.value])
    {
      var i := IndexOf(testCases, "id", id);
      if i == -1 { return None; }
      testCases := testCases[i := Merged(testCases[i], data, now)];
      r := Some(testCases[i]);
    }

    /** Removes the test case and everything that refers to it: suite and plan
        relations, results and comments. */
    method DeleteTestCase(id: Value) returns (deleted: bool)
      modifies this
      ensures State() == old(State()).(
        testCases := Without(old(testCases), "id", id),
        testSuiteTestCases := Without(old(testSuiteTestCases), "testCaseId", id),
        testPlanTestCases := Without(old(testPlanTestCases), "testCaseId", id),
        testResults := Without(old(testResults), "testCaseId", id),
        comments := Without(old(comments), "testCaseId", id))
      ensures deleted <==> exists i :: 0 <= i < |old(testCases)| && Get(old(testCases)[i], "id") == id
    {
      var initialLength := |testCases|;
      testCases := Without(testCases, "id", id);
      DropTestCaseLinks(id);
      DropTestCaseRecords(id);
      deleted := |testCases| != initialLength;
    }

    /** The relation half of `deleteTestCase`'s cascade. */
    method DropTestCaseLinks(id: Value)
      modifies this
      ensures State() == old(State()).(
        testSuiteTestCases := Without(old(testSuiteTestCases), "testCaseId", id),
        testPlanTestCases := Without(old(testPlanTestCases), "testCaseId", id))
    {
      testSuiteTestCases := Without(testSuiteTestCases, "testCaseId", id);
      testPlanTestCases := Without(testPlanTestCases, "testCaseId", id);
    }

    /** The results-and-comments half of `deleteTestCase`'s cascade. */
    method DropTestCaseRecords(id: Value)
      modifies this
      ensures State() == old(State()).(
        testResults := Without(old(testResults), "testCaseId", id),
        comments := Without(old(comments), "testCaseId", id))
    {
      testResults := Without(testResults, "testCaseId", id);
      comments := Without(comments, "testCaseId", id);
    }

    // ----- test results

    method CreateTestResult(result: Row, now: int) returns (r: Row)
      modifies this
      ensures var (row, next) := NewRow(result, old(counters.testResults), now, false, false);
        r == row && State() == old(State()).(testResults := old(testResults) + [row], counters := old(counters).(testResults := next))
    {
      var next: int;
      r, next := NewRow(result, counters.testResults, now, false, false).0, NewRow(result, counters.testResults, now, false, false).1;
      testResults := testResults + [r];
      counters := counters.(testResults := next);
    }

    function GetTestResult(id: Value): (r: Option<Row>)
      reads this
      ensures IsFirstMatch(testResults, "id", id, r)
    {
      Find(testResults, "id", id)
    }

    function GetTestResultsByRunId(runId: Value): (r: seq<Row>)
      reads this
      ensures Selects(r, testResults, "testRunId", runId)
    {
      Where(testResults, "testRunId", runId)
    }

    /** The results of one test case, newest first, cut to `limit`. */
    function GetTestResultHistory(testCaseId: Value, limit: Option<int>): (r: seq<Row>)
      reads this
      ensures forall i :: 0 <= i < |r| ==> r[i] in testResults && Get(r[i], "testCaseId") == testCaseId
      ensures (limit.None? || limit.value == 0) ==>
                forall res :: res in testResults && Get(res, "testCaseId") == testCaseId ==> res in r
      ensures Sorted(r, NewestFirst("createdAt"))
      ensures r <= Sort(Where(testResults, "testCaseId", testCaseId), NewestFirst("createdAt"))
      ensures |r| == LimitedLength(limit, |Where(testResults, "testCaseId", testCaseId)|)
    {
      var mine := Where(testResults, "testCaseId", testCaseId);
      FilterMembers(testResults, FieldIs("testCaseId", testCaseId));
      TimeOrders([], "createdAt");
      var r := SortAndLimit(mine, NewestFirst("createdAt"), limit);
      MultisetMembers(r, mine);
      if limit.None? || limit.value == 0 then SameMembers(r, mine); r else r
    }

    // ----- failure tracking

    method CreateFailureTracking(tracking: Row, now: int) returns (r: Row)
      modifies this
      ensures var (row, next) := NewRow(tracking, old(counters.failureTracking), now, false, true);
        r == row && State() == old(State()).(failureTracking := old(failureTracking) + [row],
                                             counters := old(counters).(failureTracking := next))
    {
      var next: int;
      r, next := NewRow(tracking, counters.failureTracking, now, false, true).0, NewRow(tracking, counters.failureTracking, now, false, true).1;
      failureTracking := failureTracking + [r];
      counters := counters.(failureTracking := next);
    }

    function GetFailureTracking(id: Value): (r: Option<Row>)
      reads this
      ensures IsFirstMatch(failureTracking, "id", id, r)
    {
      Find(failureTracking, "id", id)
    }

    function GetFailureTrackingByStatus(status: Value): (r: seq<Row>)
      reads this
      ensures Selects(r, failureTracking, "status", status)
    {
      Where(failureTracking, "status", status)
    }

    function GetFailureTrackingByAssignee(userId: Value): (r: seq<Row>)
      reads this
      ensures Selects(r, failureTracking, "assignedToId", userId)
    {
      Where(failureTracking, "assignedToId", userId)
    }

    method UpdateFailureTracking(id: Value, data: Row, now: int) returns (r: Option<Row>)
      modifies this
      ensures var i := IndexOf(old(failureTracking), "id", id);
        if i < 0 then r == None && State() == old(State())
        else r == Some(Merged(old(failureTracking)[i], data, now))
             && State() == old(State()).(failureTracking := old(failureTracking)[i := r.value])
    {
      var i := IndexOf(failureTracking, "id", id);
      if i == -1 { return None; }
      failureTracking := failureTracking[i := Merged(failureTracking[i], data, now)];
      r := Some(failureTracking[i]);
    }

    // ----- test plans

    method CreateTestPlan(plan: Row, now: int) returns (r: Row)
      modifies this
      ensures var (row, next) := NewRow(plan, old(counters.testPlans), now, false, true);
        r == row && State() == old(State()).(testPlans := old(testPlans) + [row], counters := old(counters).(testPlans := next))
    {
      var next: int;
      r, next := NewRow(plan, counters.testPlans, now, false, true).0, NewRow(plan, counters.testPlans, now, false, true).1;
      testPlans := testPlans + [r];
      counters := counters.(testPlans := next);
    }

    function GetTestPlan(id: Value): (r: Option<Row>)
      reads this
      ensures IsFirstMatch(testPlans, "id", id, r)
    {
      Find(testPlans, "id", id)
    }

    /** The plans with `status` when it is truthy, otherwise the whole table. */
    function GetTestPlans(status: Value): (r: seq<Row>)
      reads this
      ensures Truthy(status) ==> Selects(r, testPlans, "status", status)
      ensures !Truthy(status) ==> r == testPlans
    {
      if Truthy(status) then Where(testPlans, "status", status) else testPlans
    }

    method UpdateTestPlan(id: Value, data: Row, now: int) returns (r: Option<Row>)
      modifies this
      ensures var i := IndexOf(old(testPlans), "id", id);
        if i < 0 then r == None && State() == old(State())
        else r == Some(Merged(old(testPlans)[i], data, now)) && State() == old(State()).(testPlans := old(testPlans)[i := r.value])
    {
      var i := IndexOf(testPlans, "id", id);
      if i == -1 { return None; }
      testPlans := testPlans[i := Merged(testPlans[i], data, now)];
      r := Some(testPlans[i]);
    }

    method AddTestCasesToPlan(planId: Value, testCaseIds: seq<Value>, now: int) returns (ok: bool)
      modifies this
      ensures ok
      ensures State() == old(State()).(testPlanTestCases := AddLinks(old(testPlanTestCases), "testPlanId", planId, testCaseIds, now))
    {
      var rels := Filter(testPlanTestCases, NotLinkedTo("testPlanId", planId, testCaseIds));
      ghost var kept := rels;
      var i := 0;
      while i < |testCaseIds|
        invariant 0 <= i <= |testCaseIds|
        invariant rels == kept + LinkRows("testPlanId", planId, testCaseIds[..i], now)
      {
        rels := rels + [LinkRow("testPlanId", planId, testCaseIds[i], now)];
        assert testCaseIds[..i + 1] == testCaseIds[..i] + [testCaseIds[i]];
        i := i + 1;
      }
      assert testCaseIds[..i] == testCaseIds;
      testPlanTestCases := rels;
      ok := true;
    }

    method RemoveTestCasesFromPlan(planId: Value, testCaseIds: seq<Value>) returns (removed: bool)
      modifies this
      ensures State() == old(State()).(testPlanTestCases := Filter(old(testPlanTestCases), NotLinkedTo("testPlanId", planId, testCaseIds)))
      ensures removed <==> |testPlanTestCases| != |old(testPlanTestCases)|
    {
      var initialLength := |testPlanTestCases|;
      testPlanTestCases := Filter(testPlanTestCases, NotLinkedTo("testPlanId", planId, testCaseIds));
      removed := |testPlanTestCases| != initialLength;
    }

    function GetTestCasesForPlan(planId: Value): (r: seq<Row>)
      reads this
      ensures Subsequence(r, testCases)
      ensures forall tc :: tc in r <==> (tc in testCases &&
                exists rel :: rel in testPlanTestCases && Get(rel, "testPlanId") == planId && Get(rel, "testCaseId") == Get(tc, "id"))
    {
      TestCasesFor(testCases, testPlanTestCases, "testPlanId", planId)
    }

    // ----- notifications

    method CreateNotification(notification: Row, now: int) returns (r: Row)
      modifies this
      ensures var (row, next) := NewRow(notification, old(counters.notifications), now, false, false);
        r == row && State() == old(State()).(notifications := old(notifications) + [row],
                                             counters := old(counters).(notifications := next))
    {
      var next: int;
      r, next := NewRow(notification, counters.notifications, now, false, false).0, NewRow(notification, counters.notifications, now, false, false).1;
      notifications := notifications + [r];
      counters := counters.(notifications := next);
    }

    /** The user's notifications, only those with `read` when it is not `undefined`, newest first. */
    function GetNotificationsForUser(userId: Value, read: Value): (r: seq<Row>)
      reads this
      ensures forall n :: n in r <==> n in notifications && NotificationSelected(n, userId, read)
      ensures multiset(r) == multiset(SelectNotifications(notifications, userId, read))
      ensures Sorted(r, NewestFirst("createdAt"))
    {
      var chosen := SelectNotifications(notifications, userId, read);
      TimeOrders([], "createdAt");
      SortSorted(chosen, NewestFirst("createdAt"));
      var r := Sort(chosen, NewestFirst("createdAt"));
      SameMembers(r, chosen);
      r
    }

    method MarkNotificationAsRead(id: Value) returns (found: bool)
      modifies this
      ensures var i := IndexOf(old(notifications), "id", id);
        if i < 0 then !found && State() == old(State())
        else found && State() == old(State()).(notifications := old(notifications)[i := old(notifications)[i]["read" := Bool(true)]])
    {
      var i := IndexOf(notifications, "id", id);
      if i == -1 { return false; }
      notifications := notifications[i := notifications[i]["read" := Bool(true)]];
      found := true;
    }

    method MarkAllNotificationsAsRead(userId: Value) returns (ok: bool)
      modifies this
      ensures ok
      ensures State() == old(State()).(notifications := MarkAllRead(old(notifications), userId))
    {
      notifications := MarkAllRead(notifications, userId);
      ok := true;
    }

    // ----- report templates and reports

    method CreateReportTemplate(template: Row, now: int) returns (r: Row)
      modifies this
      ensures var (row, next) := NewRow(template, old(counters.reportTemplates), now, false, true);
        r == row && State() == old(State()).(reportTemplates := old(reportTemplates) + [row],
                                             counters := old(counters).(reportTemplates := next))
    {
      var next: int;
      r, next := NewRow(template, counters.reportTemplates, now, false, true).0, NewRow(template, counters.reportTemplates, now, false, true).1;
      reportTemplates := reportTemplates + [r];
      counters := counters.(reportTemplates := next);
    }

    /** `getReportTemplates()`: the table itself. */
    function GetReportTemplates(): seq<Row>
      reads this
    {
      reportTemplates
    }

    method CreateReport(report: Row, now: int) returns (r: Row)
      modifies this
      ensures var (row, next) := NewRow(report, old(counters.reports), now, false, false);
        r == row && State() == old(State()).(reports := old(reports) + [row], counters := old(counters).(reports := next))
    {
      var next: int;
      r, next := NewRow(report, counters.reports, now, false, false).0, NewRow(report, counters.reports, now, false, false).1;
      reports := reports + [r];
      counters := counters.(reports := next);
    }

    function GetReport(id: Value): (r: Option<Row>)
      reads this
      ensures IsFirstMatch(reports, "id", id, r)
    {
      Find(reports, "id", id)
    }

    function GetReportsByUser(userId: Value): (r: seq<Row>)
      reads this
      ensures Selects(r, reports, "createdById", userId)
    {
      Where(reports, "createdById", userId)
    }

    // ----- comments

    method CreateComment(comment: Row, now: int) returns (r: Row)
      modifies this
      ensures var (row, next) := NewRow(comment, old(counters.comments), now, false, true);
        r == row && State() == old(State()).(comments := old(comments) + [row], counters := old(counters).(comments := next))
      ensures old(IdsBelow(comments, counters.comments)) && !Truthy(Get(comment, "id")) ==>
        IdsBelow(comments, counters.comments) && forall i :: 0 <= i < |old(comments)| ==> Get(old(comments)[i], "id") != Get(r, "id")
    {
      if IdsBelow(comments, counters.comments) && !Truthy(Get(comment, "id")) {
        GeneratedIdIsFresh(comments, comment, counters.comments, now, true);
      }
      var next: int;
      r, next := NewRow(comment, counters.comments, now, false, true).0, NewRow(comment, counters.comments, now, false, true).1;
      comments := comments + [r];
      counters := counters.(comments := next);
    }

    function GetComment(id: Value): (r: Option<Row>)
      reads this
      ensures IsFirstMatch(comments, "id", id, r)
    {
      Find(comments, "id", id)
    }

    /** All comments of the test case, replies included, oldest first. */
    function GetCommentsByTestCase(testCaseId: Value): (r: seq<Row>)
      reads this
      ensures multiset(r) == multiset(Where(comments, "testCaseId", testCaseId))
      ensures Sorted(r, OldestFirst("createdAt"))
    {
      TimeOrders([], "createdAt");
      SortSorted(Where(comments, "testCaseId", testCaseId), OldestFirst("createdAt"));
      Sort(Where(comments, "testCaseId", testCaseId), OldestFirst("createdAt"))
    }

    function GetCommentsByUser(userId: Value): (r: seq<Row>)
      reads this
      ensures Selects(r, comments, "authorId", userId)
    {
      Where(comments, "authorId", userId)
    }

    /** The direct replies of `parentId`, oldest first. */
    function GetCommentReplies(parentId: Value): (r: seq<Row>)
      reads this
      ensures multiset(r) == multiset(Where(comments, "parentId", parentId))
      ensures Sorted(r, OldestFirst("createdAt"))
    {
      TimeOrders([], "createdAt");
      SortSorted(Where(comments, "parentId", parentId), OldestFirst("createdAt"));
      Sort(Where(comments, "parentId", parentId), OldestFirst("createdAt"))
    }

    method UpdateComment(id: Value, content: Value, now: int) returns (r: Option<Row>)
      modifies this
      ensures var i := IndexOf(old(comments), "id", id);
        if i < 0 then r == None && State() == old(State())
        else r == Some(old(comments)[i]["content" := content]["updatedAt" := Date(now)])
             && State() == old(State()).(comments := old(comments)[i := r.value])
    {
      var i := IndexOf(comments, "id", id);
      if i == -1 { return None; }
      comments := comments[i := comments[i]["content" := content]["updatedAt" := Date(now)]];
      r := Some(comments[i]);
    }

    /** Removes the comment and its direct replies; reports whether the table shrank. */
    method DeleteComment(id: Value) returns (deleted: bool)
      modifies this
      ensures State() == old(State()).(comments := WithoutComment(old(comments), id))
      ensures deleted <==> |comments| != |old(comments)|
    {
      var initialLength := |comments|;
      comments := Without(comments, "id", id);
      comments := Without(comments, "parentId", id);
      deleted := |comments| != initialLength;
    }
  }

  /** Membership carries over from a sub-list to the list. */
  lemma {:induction false} SubsequenceMembers<T>(r: seq<T>, s: seq<T>)
    requires Subsequence(r, s)
    ensures forall x :: x in r ==> x in s
    decreases |s|
  {
    if r != [] {
      if r[0] == s[0] && Subsequence(r[1..], s[1..]) {
        SubsequenceMembers(r[1..], s[1..]);
        assert forall x :: x in r ==> x == r[0] || x in r[1..];
      } else {
        SubsequenceMembers(r, s[1..]);
      }
    }
  }
}
