/** Keyset paging over the entry table: one page, and whole walks while the table changes. */
module Paging {
  import opened Prelude
  import Like

  /** A stored log entry. Ids are unique; observation times need not be. */
  datatype Row = Row(id: int, observedAt: int, projectId: string, service: string, host: string, level: string, message: string)

  datatype Cursor = Cursor(observedAt: int, id: int)

  datatype Query = Query(
    projectId: string, from: int, to: int, services: seq<string>, hosts: seq<string>, levels: seq<string>,
    message: string, limit: nat, cursor: Option<Cursor>)

  // ---- what a query selects

  predicate Among(values: seq<string>, value: string) { values == [] || value in values }

  /** The filters of a query; `alike` is the folding of case that ILIKE compares with. */
  ghost predicate Keeps(alike: Like.Alike, q: Query, r: Row) {
    && r.projectId == q.projectId && q.from <= r.observedAt < q.to
    && Among(q.services, r.service) && Among(q.hosts, r.host) && Among(q.levels, r.level)
    && (q.message == "" || Like.Occurs(alike, r.message, q.message))
  }

  predicate BelowKey(r: Row, c: Cursor) { r.observedAt < c.observedAt || (r.observedAt == c.observedAt && r.id < c.id) }

  predicate After(r: Row, cursor: Option<Cursor>) { cursor.None? || BelowKey(r, cursor.value) }

  function KeyOf(r: Row): Cursor { Cursor(r.observedAt, r.id) }

  // ---- the statement that buildEntryQuery writes

  datatype Arg = Text(s: string) | Int(n: int)

  datatype Column = Service | Host | Level

  /** A condition of the WHERE clause; numbers are placeholders, counted from one. */
  datatype Clause =
    | InProject(project: nat, from: nat, to: nat)
    | In(column: Column, values: seq<nat>)
    | MessageLike(pattern: nat)
    | KeyBelow(observedAt: nat, id: nat)

  datatype Statement = Statement(clauses: seq<Clause>, args: seq<Arg>, limit: nat)

  predicate Bound(args: seq<Arg>, i: nat) { 1 <= i <= |args| }

  predicate TextAt(args: seq<Arg>, i: nat) { Bound(args, i) && args[i - 1].Text? }

  predicate IntAt(args: seq<Arg>, i: nat) { Bound(args, i) && args[i - 1].Int? }

  function ColumnOf(c: Column, r: Row): string {
    match c case Service => r.service case Host => r.host case Level => r.level
  }

  /** What the database makes of one condition; a placeholder of the wrong kind satisfies nothing. */
  ghost predicate Holds(alike: Like.Alike, c: Clause, args: seq<Arg>, r: Row) {
    match c
    case InProject(p, f, t) =>
      && TextAt(args, p) && IntAt(args, f) && IntAt(args, t)
      && r.projectId == args[p - 1].s && args[f - 1].n <= r.observedAt < args[t - 1].n
    case In(column, values) =>
      exists i :: 0 <= i < |values| && TextAt(args, values[i]) && args[values[i] - 1].s == ColumnOf(column, r)
    case MessageLike(p) => TextAt(args, p) && Like.Matches(alike, r.message, args[p - 1].s)
    case KeyBelow(o, i) => IntAt(args, o) && IntAt(args, i) && BelowKey(r, Cursor(args[o - 1].n, args[i - 1].n))
  }

  ghost predicate AllHold(alike: Like.Alike, cs: seq<Clause>, args: seq<Arg>, r: Row) {
    forall i :: 0 <= i < |cs| ==> Holds(alike, cs[i], args, r)
  }

  function Placeholders(c: Clause): seq<nat> {
    match c
    case InProject(p, f, t) => [p, f, t]
    case In(_, values) => values
    case MessageLike(p) => [p]
    case KeyBelow(o, i) => [o, i]
  }

  predicate Within(cs: seq<Clause>, n: nat) {
    forall i, j :: 0 <= i < |cs| && 0 <= j < |Placeholders(cs[i])| ==> 1 <= Placeholders(cs[i])[j] <= n
  }

  /** Later arguments do not change what earlier conditions mean. */
  lemma MoreArgs(alike: Like.Alike, c: Clause, args: seq<Arg>, more: seq<Arg>, r: Row)
    requires forall j :: 0 <= j < |Placeholders(c)| ==> 1 <= Placeholders(c)[j] <= |args|
    ensures Holds(alike, c, args + more, r) <==> Holds(alike, c, args, r)
  {
    match c
    case InProject(p, f, t) => assert Placeholders(c)[0] == p && Placeholders(c)[1] == f && Placeholders(c)[2] == t;
    case In(_, values) =>
      forall i | 0 <= i < |values|
        ensures 1 <= values[i] <= |args| && (args + more)[values[i] - 1] == args[values[i] - 1]
      {
        assert Placeholders(c)[i] == values[i];
      }
    case MessageLike(p) => assert Placeholders(c)[0] == p;
    case KeyBelow(o, i) => assert Placeholders(c)[0] == o && Placeholders(c)[1] == i;
  }

  lemma AppendClause(alike: Like.Alike, cs: seq<Clause>, args: seq<Arg>, c: Clause, more: seq<Arg>, r: Row)
    requires Within(cs, |args|)
    ensures AllHold(alike, cs + [c], args + more, r) <==> AllHold(alike, cs, args, r) && Holds(alike, c, args + more, r)
  {
    forall i | 0 <= i < |cs| ensures Holds(alike, cs[i], args + more, r) <==> Holds(alike, cs[i], args, r) {
      MoreArgs(alike, cs[i], args, more, r);
    }
    var all := cs + [c];
    assert forall i :: 0 <= i < |cs| ==> all[i] == cs[i];
    assert all[|cs|] == c;
  }

  /** The two statements select the same rows with one more condition on the column. */
  ghost predicate Adds(before: Statement, after: Statement, column: Column, values: seq<string>) {
    forall alike: Like.Alike, r ::
      AllHold(alike, after.clauses, after.args, r)
      <==> AllHold(alike, before.clauses, before.args, r) && Among(values, ColumnOf(column, r))
  }

  /** appendIn: one argument and one numbered placeholder for each value, and no condition for no values. */
  method AppendIn(st: Statement, column: Column, values: seq<string>) returns (out: Statement)
    requires Within(st.clauses, |st.args|)
    ensures Within(out.clauses, |out.args|) && Adds(st, out, column, values)
  {
    if values == [] { return st; }
    var args := st.args;
    var numbers: seq<nat> := [];
    ghost var more: seq<Arg> := [];
    for i := 0 to |values|
      invariant args == st.args + more && |more| == i == |numbers|
      invariant forall j :: 0 <= j < i ==> more[j] == Text(values[j]) && numbers[j] == |st.args| + j + 1
    {
      args := args + [Text(values[i])];
      more := more + [Text(values[i])];
      numbers := numbers + [|args|];
    }
    var c := In(column, numbers);
    out := Statement(st.clauses + [c], args, st.limit);
    forall alike: Like.Alike, r
      ensures AllHold(alike, out.clauses, out.args, r)
         <==> AllHold(alike, st.clauses, st.args, r) && Among(values, ColumnOf(column, r))
    {
      AppendClause(alike, st.clauses, st.args, c, more, r);
      InMeans(alike, column, values, numbers, args, |st.args|, r);
    }
  }

  lemma InMeans(alike: Like.Alike, column: Column, values: seq<string>, numbers: seq<nat>, args: seq<Arg>, base: nat, r: Row)
    requires |numbers| == |values| && |args| == base + |values| && values != []
    requires forall j :: 0 <= j < |values| ==> numbers[j] == base + j + 1 && args[base + j] == Text(values[j])
    ensures Holds(alike, In(column, numbers), args, r) <==> Among(values, ColumnOf(column, r))
  {
    var v := ColumnOf(column, r);
    if v in values {
      var i :| 0 <= i < |values| && values[i] == v;
      assert args[base + i] == Text(values[i]) && TextAt(args, numbers[i]);
    }
    if Holds(alike, In(column, numbers), args, r) {
      var i :| 0 <= i < |numbers| && TextAt(args, numbers[i]) && args[numbers[i] - 1].s == v;
      assert args[base + i] == Text(values[i]);
    }
  }

  /** The statement selects what the query asks for: its filters, below its cursor, one row more than a page. */
  ghost predicate Selects(st: Statement, q: Query) {
    && (forall alike: Like.Alike, r :: AllHold(alike, st.clauses, st.args, r) <==> Keeps(alike, q, r) && After(r, q.cursor))
    && IntAt(st.args, st.limit) && st.args[st.limit - 1].n == q.limit + 1
  }

  /** buildEntryQuery. */
  method BuildEntryQuery(q: Query) returns (st: Statement)
    ensures Selects(st, q)
  {
    hide Holds, Like.Occurs, Like.Matches, Like.ContainsPattern;
    var st0 := Statement([InProject(1, 2, 3)], [Text(q.projectId), Int(q.from), Int(q.to)], 0);
    StartMeans(q);
    var st1 := AppendIn(st0, Service, q.services);
    var st2 := AppendIn(st1, Host, q.hosts);
    var st3 := AppendIn(st2, Level, q.levels);
    var args, clauses := st3.args, st3.clauses;
    if q.message != "" {
      args := args + [Text(Like.ContainsPattern(q.message))];
      clauses := clauses + [MessageLike(|args|)];
    }
    MessageMeans(st3, q, clauses, args);
    ghost var st4 := Statement(clauses, args, 0);
    if q.cursor.Some? {
      args := args + [Int(q.cursor.value.observedAt), Int(q.cursor.value.id)];
      clauses := clauses + [KeyBelow(|args| - 1, |args|)];
    }
    CursorMeans(st4, q, clauses, args);
    ghost var st5 := Statement(clauses, args, 0);
    args := args + [Int(q.limit + 1)];
    st := Statement(clauses, args, |args|);
    forall alike: Like.Alike, r
      ensures AllHold(alike, clauses, args, r) <==> Keeps(alike, q, r) && After(r, q.cursor)
    {
      LimitMeans(alike, st5, Int(q.limit + 1), r);
      assert AllHold(alike, st0.clauses, st0.args, r) <==> r.projectId == q.projectId && q.from <= r.observedAt < q.to;
    }
  }

  lemma StartMeans(q: Query)
    ensures var st := Statement([InProject(1, 2, 3)], [Text(q.projectId), Int(q.from), Int(q.to)], 0);
            && Within(st.clauses, |st.args|)
            && forall alike: Like.Alike, r ::
                 AllHold(alike, st.clauses, st.args, r) <==> r.projectId == q.projectId && q.from <= r.observedAt < q.to
  {
    var st := Statement([InProject(1, 2, 3)], [Text(q.projectId), Int(q.from), Int(q.to)], 0);
    forall alike: Like.Alike, r
      ensures AllHold(alike, st.clauses, st.args, r) <==> Holds(alike, st.clauses[0], st.args, r)
    {}
  }

  lemma MessageMeans(st: Statement, q: Query, clauses: seq<Clause>, args: seq<Arg>)
    requires Within(st.clauses, |st.args|)
    requires args == st.args + if q.message == "" then [] else [Text(Like.ContainsPattern(q.message))]
    requires clauses == st.clauses + if q.message == "" then [] else [MessageLike(|args|)]
    ensures Within(clauses, |args|)
    ensures forall alike: Like.Alike, r :: AllHold(alike, clauses, args, r)
              <==> AllHold(alike, st.clauses, st.args, r) && (q.message == "" || Like.Occurs(alike, r.message, q.message))
  {
    hide Like.Occurs, Like.Matches, Like.ContainsPattern;
    if q.message == "" {
      assert clauses == st.clauses && args == st.args;
    } else {
      forall alike: Like.Alike, r
        ensures AllHold(alike, clauses, args, r)
           <==> AllHold(alike, st.clauses, st.args, r) && Like.Occurs(alike, r.message, q.message)
      {
        AppendClause(alike, st.clauses, st.args, MessageLike(|args|), [Text(Like.ContainsPattern(q.message))], r);
        Like.ContainsPatternExact(alike, r.message, q.message);
      }
    }
  }

  lemma CursorMeans(st: Statement, q: Query, clauses: seq<Clause>, args: seq<Arg>)
    requires Within(st.clauses, |st.args|)
    requires args == st.args + if q.cursor.None? then [] else [Int(q.cursor.value.observedAt), Int(q.cursor.value.id)]
    requires clauses == st.clauses + if q.cursor.None? then [] else [KeyBelow(|args| - 1, |args|)]
    ensures Within(clauses, |args|)
    ensures forall alike: Like.Alike, r ::
              AllHold(alike, clauses, args, r) <==> AllHold(alike, st.clauses, st.args, r) && After(r, q.cursor)
  {
    if q.cursor.None? {
      assert clauses == st.clauses && args == st.args;
    } else {
      forall alike: Like.Alike, r
        ensures AllHold(alike, clauses, args, r) <==> AllHold(alike, st.clauses, st.args, r) && After(r, q.cursor)
      {
        AppendClause(alike, st.clauses, st.args, KeyBelow(|args| - 1, |args|),
                     [Int(q.cursor.value.observedAt), Int(q.cursor.value.id)], r);
      }
    }
  }

  lemma LimitMeans(alike: Like.Alike, st: Statement, limit: Arg, r: Row)
    requires Within(st.clauses, |st.args|)
    ensures AllHold(alike, st.clauses, st.args + [limit], r) <==> AllHold(alike, st.clauses, st.args, r)
  {
    forall i | 0 <= i < |st.clauses|
      ensures Holds(alike, st.clauses[i], st.args + [limit], r) <==> Holds(alike, st.clauses[i], st.args, r)
    {
      MoreArgs(alike, st.clauses[i], st.args, [limit], r);
    }
  }

  // ---- the order of the answer

  predicate Above(a: Row, b: Row) { BelowKey(b, KeyOf(a)) }

  ghost predicate Distinct(rows: set<Row>) { forall a, b :: a in rows && b in rows && a.id == b.id ==> a == b }

  ghost predicate Sorted(rs: seq<Row>) { forall i, j :: 0 <= i < j < |rs| ==> Above(rs[i], rs[j]) }

  predicate IsTop(top: Row, rows: set<Row>) { top in rows && forall r :: r in rows && r != top ==> Above(top, r) }

  lemma {:induction false} TopExists(rows: set<Row>)
    requires rows != {} && Distinct(rows)
    ensures exists top :: IsTop(top, rows)
  {
    var x :| x in rows;
    var rest := rows - {x};
    assert rows == rest + {x};
    if rest == {} {
      assert IsTop(x, rows);
    } else {
      TopExists(rest);
      var y :| IsTop(y, rest);
      if Above(y, x) {
        assert IsTop(y, rows);
      } else {
        assert Above(x, y);
        assert IsTop(x, rows);
      }
    }
  }

  function Top(rows: set<Row>): (top: Row)
    requires rows != {} && Distinct(rows)
    ensures IsTop(top, rows)
  {
    TopExists(rows);
    var top :| top in rows && IsTop(top, rows);
    top
  }

  /** ORDER BY observed_at DESC, id DESC. */
  function Ordered(rows: set<Row>): (rs: seq<Row>)
    requires Distinct(rows)
    ensures Sorted(rs) && (forall r :: r in rs <==> r in rows)
    decreases rows
  {
    if rows == {} then []
    else
      var top := Top(rows);
      [top] + Ordered(rows - {top})
  }

  /** There is one order: a sorted sequence is determined by its members. */
  lemma {:induction false} SortedUnique(rs: seq<Row>, qs: seq<Row>)
    requires Sorted(rs) && Sorted(qs) && forall r :: r in rs <==> r in qs
    ensures rs == qs
  {
    assert rs != [] ==> rs[0] in rs;
    assert qs != [] ==> qs[0] in qs;
    if rs != [] && qs != [] {
      assert rs[0] in qs && qs[0] in rs;
      assert rs[0] == qs[0];
      forall r | r in rs ensures r in rs[1..] <==> r != rs[0] {}
      forall r | r in qs ensures r in qs[1..] <==> r != qs[0] {}
      SortedUnique(rs[1..], qs[1..]);
      assert rs == [rs[0]] + rs[1..] && qs == [qs[0]] + qs[1..];
    }
  }

  // ---- one page

  datatype Page = Page(entries: seq<Row>, next: Option<Cursor>)

  ghost function Visible(alike: Like.Alike, table: set<Row>, q: Query): set<Row> {
    set r | r in table && Keeps(alike, q, r) && After(r, q.cursor)
  }

  /** What the database answers to the statement: the first rows in order, one more than a page. */
  ghost function Answer(alike: Like.Alike, table: set<Row>, q: Query): seq<Row>
    requires Distinct(table)
  {
    var all := Ordered(Visible(alike, table, q));
    if |all| > q.limit + 1 then all[..q.limit + 1] else all
  }

  /** List, on the database's answer: the extra row only says that there is a next page. */
  method List(answer: seq<Row>, limit: nat) returns (page: Page)
    requires limit > 0
    ensures page == PageOf(answer, limit)
  {
    var entries: seq<Row> := [];
    for i := 0 to |answer|
      invariant entries == answer[..i]
    {
      entries := entries + [answer[i]];
    }
    page := Page(entries, None);
    if |entries| > limit {
      var last := entries[..limit][limit - 1];
      page := Page(entries[..limit], Some(Cursor(last.observedAt, last.id)));
    }
  }

  function PageOf(answer: seq<Row>, limit: nat): Page
    requires limit > 0
  {
    if |answer| > limit then Page(answer[..limit], Some(KeyOf(answer[limit - 1]))) else Page(answer, None)
  }

  /** One page of a table. */
  ghost function PageAt(alike: Like.Alike, table: set<Row>, q: Query): Page
    requires Distinct(table) && q.limit > 0
  {
    PageOf(Answer(alike, table, q), q.limit)
  }

  /** A page holds visible rows in order; every visible row is on it or below its cursor, which is its last row. */
  lemma PageSplits(alike: Like.Alike, table: set<Row>, q: Query)
    requires Distinct(table) && q.limit > 0
    ensures var page := PageAt(alike, table, q);
            && Sorted(page.entries)
            && (forall r :: r in page.entries ==> r in Visible(alike, table, q))
            && (page.next.Some? ==> page.entries != [] && page.next.value == KeyOf(page.entries[|page.entries| - 1]))
            && (forall r :: r in Visible(alike, table, q) ==>
                  r in page.entries || (page.next.Some? && BelowKey(r, page.next.value)))
            && (forall i, j :: 0 <= i < j < |page.entries| ==>
                  page.entries[i].observedAt > page.entries[j].observedAt
                  || (page.entries[i].observedAt == page.entries[j].observedAt && page.entries[i].id > page.entries[j].id))
            && |page.entries| <= q.limit
            && (page.next.Some? ==> |page.entries| == q.limit)
            && (page.next.Some? <==> exists r :: r in Visible(alike, table, q) && r !in page.entries)
  {
    hide Keeps, Ordered;
    var all := Ordered(Visible(alike, table, q));
    var page := PageAt(alike, table, q);
    if |all| > q.limit {
      assert page.entries == all[..q.limit] && page.next == Some(KeyOf(all[q.limit - 1]));
      var extra := all[q.limit];
      assert extra in all;
      forall j | 0 <= j < q.limit ensures all[j] != extra { assert Above(all[j], all[q.limit]); }
      forall r | r in Visible(alike, table, q) && r !in page.entries ensures BelowKey(r, page.next.value) {
        var i :| 0 <= i < |all| && all[i] == r;
        assert Above(all[q.limit - 1], all[i]);
      }
    } else {
      assert page.entries == all;
    }
  }

  // ---- walks

  /** A visit: the table as it is when a page is fetched, and the size of that page. */
  datatype Visit = Visit(table: set<Row>, limit: nat)

  ghost predicate ValidVisits(visits: seq<Visit>) {
    forall v :: v in visits ==> Distinct(v.table) && v.limit > 0
  }

  function At(q: Query, v: Visit): Query { q.(limit := v.limit) }

  /** Follow Next from page to page, each on the table of its own moment. */
  ghost function Walk(alike: Like.Alike, visits: seq<Visit>, q: Query): (seq<Row>, bool)
    requires ValidVisits(visits)
    decreases |visits|
  {
    if visits == [] then ([], false)
    else
      var page := PageAt(alike, visits[0].table, At(q, visits[0]));
      if page.next.None? then (page.entries, true)
      else
        var (rest, finished) := Walk(alike, visits[1..], q.(cursor := page.next));
        (page.entries + rest, finished)
  }

  lemma VisibleLimit(alike: Like.Alike, table: set<Row>, q: Query, v: Visit)
    ensures Visible(alike, table, At(q, v)) == Visible(alike, table, q)
  {
    hide Like.Occurs;
  }

  lemma KeepsAnyCursor(alike: Like.Alike, q: Query, c: Option<Cursor>, r: Row)
    ensures Keeps(alike, q.(cursor := c), r) == Keeps(alike, q, r)
  {
    hide Like.Occurs;
  }

  /** No row comes twice, whatever happens to the table between pages: keys go strictly down. */
  lemma {:induction false} WalkDescends(alike: Like.Alike, visits: seq<Visit>, q: Query)
    requires ValidVisits(visits)
    ensures var rows := Walk(alike, visits, q).0;
            Sorted(rows) && forall r :: r in rows ==> Keeps(alike, q, r) && After(r, q.cursor)
    decreases |visits|
  {
    hide Keeps, Answer, PageOf;
    if visits != [] {
      var v := visits[0];
      var page := PageAt(alike, v.table, At(q, v));
      PageSplits(alike, v.table, At(q, v));
      VisibleLimit(alike, v.table, q, v);
      if page.next.Some? {
        var q' := q.(cursor := page.next);
        WalkDescends(alike, visits[1..], q');
        var rest := Walk(alike, visits[1..], q').0;
        forall r | r in rest ensures Keeps(alike, q, r) && After(r, q.cursor) {
          KeepsAnyCursor(alike, q, page.next, r);
          var last := page.entries[|page.entries| - 1];
          assert last in page.entries;
        }
        JoinSorted(page.entries, rest);
      }
    }
  }

  lemma JoinSorted(rs: seq<Row>, qs: seq<Row>)
    requires Sorted(rs) && Sorted(qs) && rs != []
    requires forall r :: r in qs ==> BelowKey(r, KeyOf(rs[|rs| - 1]))
    ensures Sorted(rs + qs)
  {
    var last := rs[|rs| - 1];
    forall i, j | 0 <= i < j < |rs + qs| ensures Above((rs + qs)[i], (rs + qs)[j]) {
      if i < |rs| <= j {
        assert qs[j - |rs|] in qs && Above(last, qs[j - |rs|]);
        assert i < |rs| - 1 ==> Above(rs[i], last);
      }
    }
  }

  /** The row is in the table at every visit. */
  ghost predicate Throughout(visits: seq<Visit>, r: Row) { forall v :: v in visits ==> r in v.table }

  /** A walk that reached its end has every row that was in the table throughout. */
  lemma {:induction false} WalkComplete(alike: Like.Alike, visits: seq<Visit>, q: Query, r: Row)
    requires ValidVisits(visits) && Walk(alike, visits, q).1
    requires Keeps(alike, q, r) && After(r, q.cursor) && Throughout(visits, r)
    ensures r in Walk(alike, visits, q).0
    decreases |visits|
  {
    hide Keeps, Answer, PageOf;
    var v := visits[0];
    var page := PageAt(alike, v.table, At(q, v));
    PageSplits(alike, v.table, At(q, v));
    VisibleLimit(alike, v.table, q, v);
    assert r in Visible(alike, v.table, q);
    if page.next.Some? && r !in page.entries {
      KeepsAnyCursor(alike, q, page.next, r);
      WalkComplete(alike, visits[1..], q.(cursor := page.next), r);
    }
  }

  /** Rows are immutable, so with unique ids a row that comes once comes in one place. */
  lemma SortedOnce(rs: seq<Row>)
    requires Sorted(rs)
    ensures NoDuplicates(rs)
    ensures forall i, j :: 0 <= i < j < |rs| ==> KeyOf(rs[i]) != KeyOf(rs[j])
  {
    forall i, j | 0 <= i < j < |rs| ensures KeyOf(rs[i]) != KeyOf(rs[j]) { assert Above(rs[i], rs[j]); }
  }

  ghost predicate Fixed(visits: seq<Visit>, table: set<Row>) { forall v :: v in visits ==> v.table == table }

  /** Over a fixed table a walk ends: each page but the last shows at least one more row. */
  lemma {:induction false} WalkEnds(alike: Like.Alike, visits: seq<Visit>, q: Query, table: set<Row>)
    requires ValidVisits(visits) && Distinct(table) && Fixed(visits, table) && |visits| > |Visible(alike, table, q)|
    ensures Walk(alike, visits, q).1
    decreases |visits|
  {
    hide Keeps, Answer, PageOf;
    var v := visits[0];
    assert v in visits;
    var page := PageAt(alike, table, At(q, v));
    PageSplits(alike, table, At(q, v));
    VisibleLimit(alike, table, q, v);
    if page.next.Some? {
      var q' := q.(cursor := page.next);
      var last := page.entries[|page.entries| - 1];
      assert last in page.entries;
      FewerVisible(alike, table, q, q', last);
      WalkEnds(alike, visits[1..], q', table);
    }
  }

  lemma FewerVisible(alike: Like.Alike, table: set<Row>, q: Query, q': Query, last: Row)
    requires q' == q.(cursor := Some(KeyOf(last))) && last in Visible(alike, table, q)
    ensures |Visible(alike, table, q')| < |Visible(alike, table, q)|
  {
    hide Keeps;
    forall r | r in Visible(alike, table, q') ensures r in Visible(alike, table, q) && r != last {
      KeepsAnyCursor(alike, q, q'.cursor, r);
    }
    assert Visible(alike, table, q') <= Visible(alike, table, q) - {last};
    SubsetSize(Visible(alike, table, q'), Visible(alike, table, q) - {last});
  }

  /** Over a fixed table, any mix of page sizes gives exactly the filtered rows, in order. */
  lemma FixedWalkExact(alike: Like.Alike, visits: seq<Visit>, q: Query, table: set<Row>)
    requires ValidVisits(visits) && Distinct(table) && Fixed(visits, table) && |visits| > |Visible(alike, table, q)|
    ensures Walk(alike, visits, q) == (Ordered(Visible(alike, table, q)), true)
  {
    hide Keeps, Walk;
    WalkEnds(alike, visits, q, table);
    WalkDescends(alike, visits, q);
    var rows := Walk(alike, visits, q).0;
    forall r ensures r in rows <==> r in Visible(alike, table, q) {
      if r in Visible(alike, table, q) { WalkComplete(alike, visits, q, r); }
      if r in rows { WalkFromTable(alike, visits, q, r); }
    }
    SortedUnique(rows, Ordered(Visible(alike, table, q)));
  }

  lemma {:induction false} WalkFromTable(alike: Like.Alike, visits: seq<Visit>, q: Query, r: Row)
    requires ValidVisits(visits) && r in Walk(alike, visits, q).0
    ensures exists v :: v in visits && r in v.table
    decreases |visits|
  {
    hide Keeps, Answer, PageOf;
    var v := visits[0];
    var page := PageAt(alike, v.table, At(q, v));
    PageSplits(alike, v.table, At(q, v));
    if r in page.entries {
      assert v in visits && r in v.table;
    } else {
      WalkFromTable(alike, visits[1..], q.(cursor := page.next), r);
      var u :| u in visits[1..] && r in u.table;
      assert u in visits;
    }
  }

  /**
    Paging while rows are inserted and deleted: nothing comes twice, everything that comes was
    asked for, and everything that was there throughout comes.
  */
  lemma WalkExact(alike: Like.Alike, visits: seq<Visit>, q: Query)
    requires ValidVisits(visits)
    ensures var (rows, finished) := Walk(alike, visits, q);
            && (forall i, j :: 0 <= i < j < |rows| ==> KeyOf(rows[i]) != KeyOf(rows[j]))
            && (forall r :: r in rows ==> Keeps(alike, q, r) && After(r, q.cursor) && exists v :: v in visits && r in v.table)
            && (finished ==> forall r :: Keeps(alike, q, r) && After(r, q.cursor) && Throughout(visits, r) ==> r in rows)
  {
    hide Keeps, Walk;
    WalkDescends(alike, visits, q);
    var (rows, finished) := Walk(alike, visits, q);
    SortedOnce(rows);
    forall r | r in rows ensures exists v :: v in visits && r in v.table { WalkFromTable(alike, visits, q, r); }
    if finished {
      forall r | Keeps(alike, q, r) && After(r, q.cursor) && Throughout(visits, r) ensures r in rows {
        WalkComplete(alike, visits, q, r);
      }
    }
  }
}
