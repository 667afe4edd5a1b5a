/**
 * The blog record and the parameter builder of the multi-row INSERT
 * (app/models/blogs.py). The SQL text itself and the driver are external;
 * what is modelled is the VALUES clause of `n` placeholder groups and the
 * flat positional parameter list that must line up with it.
 */
module Blogs {
  import opened Wrappers

  /** A point in time; datetimes are kept abstract as integers. */
  type Time = int

  /** One blog record (BlogRow). `clientMsgId` may be absent. */
  datatype BlogRow = BlogRow(
    clientMsgId: Option<string>,
    author: string,
    createdAt: Time,
    updatedAt: Time,
    genre: string,
    location: string,
    content: string)

  /** A positional parameter as handed to the SQL driver; `None` becomes `Null`. */
  datatype SqlValue = Null | Text(s: string) | Timestamp(t: Time)

  /** The statement `bulk_insert` executes: its VALUES clause and its parameters. */
  datatype InsertStatement = InsertStatement(valuesClause: string, params: seq<SqlValue>)

  const ColumnsPerRow: nat := 7
  const GroupHead: string := "(%s"
  const GroupMore: string := ", %s"
  /** One row's placeholder group, "(%s, %s, %s, %s, %s, %s, %s)" (see RowGroupText). */
  const RowGroup: string := GroupHead + GroupMore + GroupMore + GroupMore + GroupMore + GroupMore + GroupMore + ")"
  const GroupSeparator: string := ", "

  /** Python's `sep.join(parts)`. */
  function Join(parts: seq<string>, sep: string): string
  {
    if |parts| == 0 then ""
    else if |parts| == 1 then parts[0]
    else parts[0] + sep + Join(parts[1..], sep)
  }

  /** The number of `%s` placeholders in `s`. */
  function Placeholders(s: string): nat
  {
    if |s| < 2 then 0
    else (if s[0] == '%' && s[1] == 's' then 1 else 0) + Placeholders(s[1..])
  }

  /** Concatenation adds placeholder counts unless a `%` is left dangling at the seam. */
  lemma {:induction false} PlaceholdersConcat(a: string, b: string)
    requires a == [] || a[|a| - 1] != '%'
    ensures Placeholders(a + b) == Placeholders(a) + Placeholders(b)
  {
    if |a| == 0 {
      assert a + b == b;
    } else if |a| == 1 {
      if |b| > 0 {
        assert (a + b)[1..] == b;
      }
    } else {
      assert (a + b)[1..] == a[1..] + b;
      PlaceholdersConcat(a[1..], b);
    }
  }

  /** The row group spelled out. */
  lemma RowGroupText()
    ensures RowGroup == "(%s, %s, %s, %s, %s, %s, %s)"
  {
    assert GroupHead + GroupMore == "(%s, %s";
    assert "(%s, %s" + GroupMore == "(%s, %s, %s";
    assert "(%s, %s, %s" + GroupMore == "(%s, %s, %s, %s";
    assert "(%s, %s, %s, %s" + GroupMore == "(%s, %s, %s, %s, %s";
    assert "(%s, %s, %s, %s, %s" + GroupMore == "(%s, %s, %s, %s, %s, %s";
    assert "(%s, %s, %s, %s, %s, %s" + GroupMore == "(%s, %s, %s, %s, %s, %s, %s";
  }

  /** One row group holds seven placeholders and is 28 characters long. */
  lemma RowGroupShape()
    ensures Placeholders(RowGroup) == ColumnsPerRow
    ensures |RowGroup| == 28 && RowGroup[0] == '(' && RowGroup[27] == ')'
  {
    var head, more, close := GroupHead, GroupMore, ")";
    assert head[1..] == "%s" && "%s"[1..] == "s";
    assert more[1..] == " %s" && " %s"[1..] == "%s";
    assert Placeholders(head) == 1 && Placeholders(more) == 1 && Placeholders(close) == 0;
    var s1 := head + more;
    PlaceholdersConcat(head, more);
    var s2 := s1 + more;
    PlaceholdersConcat(s1, more);
    var s3 := s2 + more;
    PlaceholdersConcat(s2, more);
    var s4 := s3 + more;
    PlaceholdersConcat(s3, more);
    var s5 := s4 + more;
    PlaceholdersConcat(s4, more);
    var s6 := s5 + more;
    PlaceholdersConcat(s5, more);
    PlaceholdersConcat(s6, close);
  }

  /** `n` copies of the row group joined by the separator: the clause's shape. */
  lemma {:induction false} GroupsJoined(n: nat)
    ensures var c := Join(seq(n, _ => RowGroup), GroupSeparator);
      && Placeholders(c) == ColumnsPerRow * n
      && (n == 0 ==> c == "")
      && (n > 0 ==> |c| == 30 * n - 2 && c[0] == '(' && c[|c| - 1] == ')')
  {
    var parts := seq(n, _ => RowGroup);
    RowGroupShape();
    if n == 1 {
      assert Join(parts, GroupSeparator) == RowGroup;
    } else if n > 1 {
      var rest := seq(n - 1, _ => RowGroup);
      assert parts[1..] == rest;
      GroupsJoined(n - 1);
      var tail := Join(rest, GroupSeparator);
      assert Join(parts, GroupSeparator) == (RowGroup + GroupSeparator) + tail;
      PlaceholdersConcat(RowGroup, GroupSeparator);
      PlaceholdersConcat(RowGroup + GroupSeparator, tail);
    }
  }

  /**
   * `_values_clause(n)`: `n` placeholder groups of seven, comma separated.
   * No rows gives the empty clause.
   */
  function ValuesClause(n: nat): (c: string)
    ensures Placeholders(c) == ColumnsPerRow * n
    ensures c == "" <==> n == 0
    ensures n > 0 ==> |c| == 30 * n - 2 && c[0] == '(' && c[|c| - 1] == ')'
  {
    GroupsJoined(n);
    Join(seq(n, _ => RowGroup), GroupSeparator)
  }

  /** A possibly absent string as a driver parameter. */
  function OptText(o: Option<string>): SqlValue
  {
    match o
    case None => Null
    case Some(s) => Text(s)
  }

  /** The seven parameters of one row, in column order. */
  function RowValues(r: BlogRow): seq<SqlValue>
  {
    [OptText(r.clientMsgId), Text(r.author), Timestamp(r.createdAt), Timestamp(r.updatedAt),
     Text(r.genre), Text(r.location), Text(r.content)]
  }

  /** The driver's `rowcount or 0`. */
  function RowcountOrZero(rowcount: Option<int>): int
  {
    rowcount.GetOr(0)
  }

  /**
   * `bulk_insert`: no rows means no statement and a count of 0; otherwise one
   * statement whose seven parameters per row line up with the clause's
   * placeholders. `driverRowcount` is what the driver reports back.
   */
  method BulkInsert(rows: seq<BlogRow>, driverRowcount: Option<int>)
    returns (count: int, executed: Option<InsertStatement>)
    ensures rows == [] <==> executed == None
    ensures rows == [] ==> count == 0
    ensures rows != [] ==> count == RowcountOrZero(driverRowcount)
    ensures executed.Some? ==>
      var st := executed.value;
      && st.valuesClause == ValuesClause(|rows|)
      && |st.params| == ColumnsPerRow * |rows|
      && Placeholders(st.valuesClause) == |st.params|
      && forall i :: 0 <= i < |rows| ==>
           && st.params[7 * i] == OptText(rows[i].clientMsgId)
           && st.params[7 * i + 1] == Text(rows[i].author)
           && st.params[7 * i + 2] == Timestamp(rows[i].createdAt)
           && st.params[7 * i + 3] == Timestamp(rows[i].updatedAt)
           && st.params[7 * i + 4] == Text(rows[i].genre)
           && st.params[7 * i + 5] == Text(rows[i].location)
           && st.params[7 * i + 6] == Text(rows[i].content)
  {
    if rows == [] {
      return 0, None;
    }
    var values: seq<SqlValue> := [];
    for i := 0 to |rows|
      invariant |values| == 7 * i
      invariant forall k :: 0 <= k < i ==>
        && values[7 * k] == OptText(rows[k].clientMsgId)
        && values[7 * k + 1] == Text(rows[k].author)
        && values[7 * k + 2] == Timestamp(rows[k].createdAt)
        && values[7 * k + 3] == Timestamp(rows[k].updatedAt)
        && values[7 * k + 4] == Text(rows[k].genre)
        && values[7 * k + 5] == Text(rows[k].location)
        && values[7 * k + 6] == Text(rows[k].content)
    {
      values := values + RowValues(rows[i]);
    }
    executed := Some(InsertStatement(ValuesClause(|rows|), values));
    count := RowcountOrZero(driverRowcount);
  }
}
