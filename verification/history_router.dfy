/** `GET /draw-history?groupId=…&startDate=…&endDate=…` (server/routes/drawHistoryRouter.js):
    the group's draw records, optionally within an inclusive date window, newest first.
    Dates are integer timestamps: `parseDate` stands for `new Date(text)` and `endOfDay` for
    `setHours(23, 59, 59, 999)` in the server's time zone. */
module HistoryRouter {
  import opened JsText
  import opened Schema
  import opened Collections

  /** The query object: the group, and the optional `$gte` and `$lte` bounds on `drawnAt`. */
  datatype Query = Query(groupId: string, from: Option<int>, until: Option<int>)

  /** The query built field by field from the request's parameters. */
  method BuildQuery(groupId: string, startDate: Option<string>, endDate: Option<string>,
                    parseDate: string -> int, endOfDay: int -> int)
    returns (q: Query)
    ensures q.groupId == groupId
    ensures q.from.Some? <==> Truthy(startDate)
    ensures q.until.Some? <==> Truthy(endDate)
    ensures q.from.Some? ==> q.from.value == parseDate(startDate.value)
    ensures q.until.Some? ==> q.until.value == endOfDay(parseDate(endDate.value))
  {
    q := Query(groupId, None, None);
    if Truthy(startDate) || Truthy(endDate) {
      if Truthy(startDate) {
        q := q.(from := Some(parseDate(startDate.value)));
      }
      if Truthy(endDate) {
        var endOfDayTime := endOfDay(parseDate(endDate.value));
        q := q.(until := Some(endOfDayTime));
      }
    }
  }

  predicate Matches(q: Query, r: DrawRecord) {
    && r.groupId == q.groupId
    && (q.from.Some? ==> r.drawnAt >= q.from.value)
    && (q.until.Some? ==> r.drawnAt <= q.until.value)
  }

  /** `DrawHistory.find(query)`: the matching records, in collection order. */
  function Find(records: seq<DrawRecord>, q: Query): (rs: seq<DrawRecord>)
    ensures forall r :: r in rs <==> r in records && Matches(q, r)
    ensures forall r :: multiset(rs)[r] == if Matches(q, r) then multiset(records)[r] else 0
  {
    if records == [] then []
    else
      assert records == [records[0]] + records[1..];
      var rest := Find(records[1..], q);
      if Matches(q, records[0]) then [records[0]] + rest else rest
  }

  /** Newest first. */
  predicate Descending(rs: seq<DrawRecord>) {
    forall i, j :: 0 <= i < j < |rs| ==> rs[i].drawnAt >= rs[j].drawnAt
  }

  function Insert(x: DrawRecord, rs: seq<DrawRecord>): (r: seq<DrawRecord>)
    requires Descending(rs)
    ensures Descending(r)
    ensures multiset(r) == multiset(rs) + multiset{x}
    ensures |r| == |rs| + 1 && (r[0] == x || (rs != [] && r[0] == rs[0]))
  {
    if rs == [] then [x]
    else if x.drawnAt >= rs[0].drawnAt then [x] + rs
    else
      assert rs == [rs[0]] + rs[1..];
      [rs[0]] + Insert(x, rs[1..])
  }

  /** `.sort({ drawnAt: -1 })`. */
  function SortNewestFirst(rs: seq<DrawRecord>): (r: seq<DrawRecord>)
    ensures Descending(r)
    ensures multiset(r) == multiset(rs)
  {
    if rs == [] then []
    else
      assert rs == [rs[0]] + rs[1..];
      Insert(rs[0], SortNewestFirst(rs[1..]))
  }

  method GetHistory(history: HistoryCollection, groupId: Option<string>, startDate: Option<string>,
                    endDate: Option<string>, parseDate: string -> int, endOfDay: int -> int)
    returns (status: nat, result: seq<DrawRecord>)
    ensures status == 400 <==> !Truthy(groupId)
    ensures status != 400 ==> status == 200
    ensures status == 400 ==> result == []
    ensures status == 200 ==>
      && Descending(result)
      && forall r :: r in result <==>
           && r in history.records && r.groupId == groupId.value
           && (Truthy(startDate) ==> r.drawnAt >= parseDate(startDate.value))
           && (Truthy(endDate) ==> r.drawnAt <= endOfDay(parseDate(endDate.value)))
    ensures status == 200 ==>
      var q := Query(groupId.value, if Truthy(startDate) then Some(parseDate(startDate.value)) else None,
                     if Truthy(endDate) then Some(endOfDay(parseDate(endDate.value))) else None);
      forall r :: multiset(result)[r] == if Matches(q, r) then multiset(history.records)[r] else 0
  {
    if !Truthy(groupId) {
      return 400, [];
    }
    var q := BuildQuery(groupId.value, startDate, endDate, parseDate, endOfDay);
    result := SortNewestFirst(Find(history.records, q));
    status := 200;
    forall r ensures r in result <==> r in Find(history.records, q) {
      assert r in result <==> r in multiset(result);
    }
  }

  /** Without dates the answer holds every record of the group, each as often as stored. */
  lemma NoDatesWholeGroup(records: seq<DrawRecord>, g: string)
    ensures var rs := SortNewestFirst(Find(records, Query(g, None, None)));
      forall r :: multiset(rs)[r] == if r.groupId == g then multiset(records)[r] else 0
  {
  }

  /** Narrowing the window never adds a record. */
  lemma NarrowerWindowFewerRecords(records: seq<DrawRecord>, g: string, from: int, until: int)
    ensures multiset(Find(records, Query(g, Some(from), Some(until)))) <= multiset(Find(records, Query(g, None, None)))
  {
    var a, b := Find(records, Query(g, Some(from), Some(until))), Find(records, Query(g, None, None));
    assert forall r :: multiset(a)[r] <= multiset(b)[r];
  }
}
