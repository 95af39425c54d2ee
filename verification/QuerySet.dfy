/** The chainable query: its state, the statements it builds and the rows they select. */
module QuerySet {
  import opened Options
  import opened Expressions
  import opened ExpressionMeaning

  datatype TrashedMode = Exclude | Include | Only

  datatype Model = Model(columns: set<string>, softDeletes: bool)

  datatype State = State(
    conditions: seq<Sql>,
    order: seq<string>,
    limitValue: Option<nat>,
    offsetValue: Option<nat>,
    trashedMode: TrashedMode)

  datatype Query = Query(model: Model, state: State)

  /** What `where` takes: a ready condition, or a `Q` to compile. */
  datatype Condition = Ready(e: Sql) | Q(node: Node)

  // --------------------------------------------------------- chain operators

  function Compiled(c: Condition, columns: set<string>): Result<Sql, Error> {
    if c.Q? then Compile(c.node, columns) else Ok(c.e)
  }

  function CompiledAll(cs: seq<Condition>, columns: set<string>): Result<seq<Sql>, Error> {
    if cs == [] then Ok([])
    else Appended(CompiledAll(cs[..|cs| - 1], columns), Compiled(cs[|cs| - 1], columns))
  }

  function Where(q: Query, cs: seq<Condition>): Result<Query, Error> {
    match CompiledAll(cs, q.model.columns)
    case Err(e) => Err(e)
    case Ok(compiled) => Ok(q.(state := q.state.(conditions := q.state.conditions + compiled)))
  }

  function Trashed(q: Query, mode: TrashedMode): Query {
    q.(state := q.state.(trashedMode := mode))
  }

  // -------------------------------------------------------------- statements

  const DELETED_AT := "deleted_at"

  function SoftDeleteFilter(q: Query): Option<Sql> {
    if !q.model.softDeletes then None else
      match q.state.trashedMode
      case Exclude => Some(IsNull(DELETED_AT))
      case Only => Some(IsNotNull(DELETED_AT))
      case Include => None
  }

  function AllConditions(q: Query): seq<Sql> {
    match SoftDeleteFilter(q)
    case None => q.state.conditions
    case Some(filter) => [filter] + q.state.conditions
  }

  datatype Select = Select(wheres: seq<Sql>, order: seq<string>, limit: Option<nat>, offset: Option<nat>)

  /** What the database decides: its dialect, and the order rows come back in. */
  datatype Db = Db(dialect: Dialect, sort: (seq<string>, seq<Row>) -> seq<Row>)

  /** Sorting loses and adds nothing. */
  ghost predicate Sorts(db: Db) {
    forall order, rows :: multiset(db.sort(order, rows)) == multiset(rows)
  }

  /** A row passes a WHERE clause if every condition is true of it. */
  predicate Passes(wheres: seq<Sql>, row: Row, d: Dialect) {
    wheres == [] || (Passes(wheres[..|wheres| - 1], row, d) && Eval(wheres[|wheres| - 1], row, d).T?)
  }

  /** The rows that pass, and those that do not, in their order. */
  function Chosen(rows: seq<Row>, wheres: seq<Sql>, d: Dialect, pass: bool): seq<Row> {
    if rows == [] then [] else
      var rest, last := Chosen(rows[..|rows| - 1], wheres, d, pass), rows[|rows| - 1];
      if Passes(wheres, last, d) == pass then rest + [last] else rest
  }

  function Dropped<T>(s: seq<T>, n: nat): seq<T> {
    if n <= |s| then s[n..] else []
  }

  function Taken<T>(s: seq<T>, n: nat): seq<T> {
    if n <= |s| then s[..n] else s
  }

  function Fetch(stmt: Select, rows: seq<Row>, db: Db): seq<Row> {
    var ordered := db.sort(stmt.order, Chosen(rows, stmt.wheres, db.dialect, true));
    var rest := if stmt.offset.Some? then Dropped(ordered, stmt.offset.value) else ordered;
    if stmt.limit.Some? then Taken(rest, stmt.limit.value) else rest
  }

  function Statement(q: Query): Select {
    Select(AllConditions(q), q.state.order, q.state.limitValue, q.state.offsetValue)
  }

  /** The rows a query selects, whatever its order, limit and offset. */
  function Rows(q: Query, rows: seq<Row>, db: Db): seq<Row> {
    Chosen(rows, AllConditions(q), db.dialect, true)
  }

  // ------------------------------------------------------------------- laws

  lemma {:induction false} SortKeepsLength(db: Db, order: seq<string>, rows: seq<Row>)
    requires Sorts(db)
    ensures |db.sort(order, rows)| == |rows|
  {
    assert multiset(db.sort(order, rows)) == multiset(rows);
    assert |multiset(rows)| == |rows| && |multiset(db.sort(order, rows))| == |db.sort(order, rows)|;
  }

  /** `all` returns what is left of the `count` rows after the offset, up to the limit:
      with neither set, exactly as many rows as `count` reports. */
  lemma {:induction false} CountMatchesAll(q: Query, rows: seq<Row>, db: Db)
    requires Sorts(db)
    ensures var count := |Rows(q, rows, db)|;
            var left := if q.state.offsetValue.None? then count
                        else if q.state.offsetValue.value <= count then count - q.state.offsetValue.value else 0;
            |Fetch(Statement(q), rows, db)| ==
            if q.state.limitValue.Some? && q.state.limitValue.value <= left then q.state.limitValue.value else left
  {
    SortKeepsLength(db, q.state.order, Rows(q, rows, db));
  }

  lemma {:induction false} SameChoice(rows: seq<Row>, a: seq<Sql>, b: seq<Sql>, d: Dialect, pass: bool)
    requires forall i | 0 <= i < |rows| :: Passes(a, rows[i], d) == Passes(b, rows[i], d)
    ensures Chosen(rows, a, d, pass) == Chosen(rows, b, d, pass)
  {
    if rows != [] {
      SameChoice(rows[..|rows| - 1], a, b, d, pass);
    }
  }

  lemma {:induction false} PassesOneMore(cs: seq<Sql>, e: Sql, row: Row, d: Dialect)
    ensures Passes(cs + [e], row, d) <==> Passes(cs, row, d) && Eval(e, row, d).T?
  {
    assert (cs + [e])[..|cs + [e]| - 1] == cs;
  }

  lemma {:induction false} PassesBoth(a: seq<Sql>, b: seq<Sql>, row: Row, d: Dialect)
    ensures Passes(a + b, row, d) <==> Passes(a, row, d) && Passes(b, row, d)
  {
    if b == [] {
      assert a + b == a;
    } else {
      PassesBoth(a, b[..|b| - 1], row, d);
      assert a + b == (a + b[..|b| - 1]) + [b[|b| - 1]];
      PassesOneMore(a + b[..|b| - 1], b[|b| - 1], row, d);
    }
  }

  /** The conditions `where(x)` adds for one `Q`. */
  lemma {:induction false} WhereOne(q: Query, x: Node)
    ensures Outcome(Where(q, [Q(x)])) == Outcome(Compile(x, q.model.columns))
    ensures var compiled := Compile(x, q.model.columns);
            compiled.Ok? ==>
              Where(q, [Q(x)]) ==
              Ok(q.(state := q.state.(conditions := q.state.conditions + [compiled.value])))
  {
    assert [Q(x)][..0] == [] && CompiledAll([], q.model.columns) == Ok([]);
    assert CompiledAll([Q(x)], q.model.columns) == Appended(Ok([]), Compile(x, q.model.columns));
    if Compile(x, q.model.columns).Ok? {
      var e := Compile(x, q.model.columns).value;
      assert [] + [e] == [e];
    }
  }

  function WhereTwice(q: Query, a: Node, b: Node): Result<Query, Error> {
    var first := Where(q, [Q(a)]);
    if first.Err? then first else Where(first.value, [Q(b)])
  }

  lemma {:induction false} BothTrue(a: Sql, b: Sql, row: Row, d: Dialect)
    ensures Eval(AndAlso(a, b), row, d).T? <==> Eval(a, row, d).T? && Eval(b, row, d).T?
  {
  }

  lemma {:induction false} PairPasses(cs: seq<Sql>, a: Sql, b: Sql, row: Row, d: Dialect)
    ensures Passes(cs + [a] + [b], row, d) <==> Passes(cs + [AndAlso(a, b)], row, d)
  {
    PassesOneMore(cs, a, row, d);
    PassesOneMore(cs + [a], b, row, d);
    PassesOneMore(cs, AndAlso(a, b), row, d);
    BothTrue(a, b, row, d);
  }

  /** `where(a).where(b)` and `where(a & b)` raise the same error or select the same rows. */
  lemma {:induction false} WhereTwiceIsConjunction(q: Query, a: Node, b: Node, rows: seq<Row>, db: Db)
    ensures var x, y := WhereTwice(q, a, b), Where(q, [Q(And(a, b))]);
            Outcome(x) == Outcome(y) && (x.Ok? ==> Rows(x.value, rows, db) == Rows(y.value, rows, db))
  {
    var columns := q.model.columns;
    WhereOne(q, a);
    WhereOne(q, And(a, b));
    if Where(q, [Q(a)]).Ok? {
      var q1 := Where(q, [Q(a)]).value;
      WhereOne(q1, b);
      if Compile(b, columns).Ok? {
        var ca, cb := Compile(a, columns).value, Compile(b, columns).value;
        var cs := AllConditions(q);
        assert AllConditions(WhereTwice(q, a, b).value) == cs + [ca] + [cb];
        assert AllConditions(Where(q, [Q(And(a, b))]).value) == cs + [AndAlso(ca, cb)];
        forall i | 0 <= i < |rows|
          ensures Passes(cs + [ca] + [cb], rows[i], db.dialect) == Passes(cs + [AndAlso(ca, cb)], rows[i], db.dialect)
        {
          PairPasses(cs, ca, cb, rows[i], db.dialect);
        }
        SameChoice(rows, cs + [ca] + [cb], cs + [AndAlso(ca, cb)], db.dialect, true);
      }
    }
  }

  lemma {:induction false} PassesFilter(e: Sql, cs: seq<Sql>, row: Row, d: Dialect)
    ensures Passes([e] + cs, row, d) <==> Eval(e, row, d).T? && Passes(cs, row, d)
  {
    PassesBoth([e], cs, row, d);
    assert [e][..0] == [];
  }

  /** Where a model keeps its deleted rows, a mode's rows are those of `include` that
      the mode's filter is true of. */
  lemma {:induction false} ModeFilters(q: Query, row: Row, d: Dialect)
    requires q.model.softDeletes
    ensures var live := Read(row, DELETED_AT).Null?;
            var included := Passes(AllConditions(Trashed(q, Include)), row, d);
            && (Passes(AllConditions(Trashed(q, Exclude)), row, d) <==> included && live)
            && (Passes(AllConditions(Trashed(q, Only)), row, d) <==> included && !live)
  {
    PassesFilter(IsNull(DELETED_AT), q.state.conditions, row, d);
    PassesFilter(IsNotNull(DELETED_AT), q.state.conditions, row, d);
  }

  /** Soft-delete modes partition the rows: for any conditions, `exclude` and `only`
      share no row, and together are `include`, row for row. */
  lemma {:induction false} ModesPartition(q: Query, rows: seq<Row>, db: Db)
    requires q.model.softDeletes
    ensures var included := Rows(Trashed(q, Include), rows, db);
            var excluded, only := Rows(Trashed(q, Exclude), rows, db), Rows(Trashed(q, Only), rows, db);
            && multiset(included) == multiset(excluded) + multiset(only)
            && (forall r | r in excluded :: Read(r, DELETED_AT).Null?)
            && (forall r | r in only :: !Read(r, DELETED_AT).Null?)
            && multiset(excluded) !! multiset(only)
    decreases |rows|
  {
    if rows != [] {
      ModesPartition(q, rows[..|rows| - 1], db);
      ModeFilters(q, rows[|rows| - 1], db.dialect);
    }
  }

  /** Without soft deletes the mode changes nothing. */
  lemma {:induction false} ModesAgreeWithoutSoftDeletes(q: Query, mode: TrashedMode)
    requires !q.model.softDeletes
    ensures Statement(Trashed(q, mode)) == Statement(q)
  {
  }

  // ------------------------------------------------------- what is selected

  /** The query selects the row: its mode admits it, and every condition is true of it. */
  ghost predicate Selects(q: Query, row: Row, d: Dialect) {
    && (q.model.softDeletes && q.state.trashedMode == Exclude ==> DELETED_AT !in row || row[DELETED_AT] == Null)
    && (q.model.softDeletes && q.state.trashedMode == Only ==> DELETED_AT in row && row[DELETED_AT] != Null)
    && forall i | 0 <= i < |q.state.conditions| :: Eval(q.state.conditions[i], row, d) == T
  }

  lemma {:induction false} PassesIff(cs: seq<Sql>, row: Row, d: Dialect)
    ensures Passes(cs, row, d) <==> forall i | 0 <= i < |cs| :: Eval(cs[i], row, d) == T
  {
    if cs != [] {
      PassesIff(cs[..|cs| - 1], row, d);
      assert Passes(cs, row, d) ==> forall i | 0 <= i < |cs| :: Eval(cs[i], row, d) == T by {
        forall i | 0 <= i < |cs| && Passes(cs, row, d) ensures Eval(cs[i], row, d) == T {
          assert i < |cs| - 1 ==> cs[..|cs| - 1][i] == cs[i];
        }
      }
    }
  }

  lemma {:induction false} SelectsIff(q: Query, row: Row, d: Dialect)
    ensures Selects(q, row, d) <==> Passes(AllConditions(q), row, d)
  {
    PassesIff(q.state.conditions, row, d);
    if q.model.softDeletes {
      PassesFilter(IsNull(DELETED_AT), q.state.conditions, row, d);
      PassesFilter(IsNotNull(DELETED_AT), q.state.conditions, row, d);
    }
  }

  lemma {:induction false} ChosenConcat(rows: seq<Row>, more: seq<Row>, wheres: seq<Sql>, d: Dialect)
    ensures Chosen(rows + more, wheres, d, true) == Chosen(rows, wheres, d, true) + Chosen(more, wheres, d, true)
  {
    if more == [] {
      assert rows + more == rows;
    } else {
      var n := |more| - 1;
      ChosenConcat(rows, more[..n], wheres, d);
      assert (rows + more)[..|rows + more| - 1] == rows + more[..n];
    }
  }

  lemma {:induction false} ChosenCount(rows: seq<Row>, wheres: seq<Sql>, d: Dialect, row: Row)
    ensures multiset(Chosen(rows, wheres, d, true))[row] == if Passes(wheres, row, d) then multiset(rows)[row] else 0
  {
    if rows != [] {
      var n := |rows| - 1;
      ChosenCount(rows[..n], wheres, d, row);
      assert rows == rows[..n] + [rows[n]];
    }
  }

  /** The selected rows are exactly those the query selects, each as often as it is there,
      and in the order of the table: a part of the table selects its part of them. */
  lemma {:induction false} RowsAreSelected(q: Query, rows: seq<Row>, more: seq<Row>, db: Db, row: Row)
    ensures multiset(Rows(q, rows, db))[row] ==
              if Selects(q, row, db.dialect) then multiset(rows)[row] else 0
    ensures Rows(q, rows + more, db) == Rows(q, rows, db) + Rows(q, more, db)
  {
    SelectsIff(q, row, db.dialect);
    ChosenCount(rows, AllConditions(q), db.dialect, row);
    ChosenConcat(rows, more, AllConditions(q), db.dialect);
  }

  /** `all` sorts the selected rows by the query's order, leaves out as many as the offset
      says, and then takes no more than the limit. */
  lemma {:induction false} AllIsSlice(q: Query, rows: seq<Row>, db: Db)
    ensures var sorted := db.sort(q.state.order, Rows(q, rows, db));
            var skipped := match q.state.offsetValue
                           case None => 0
                           case Some(n) => if n < |sorted| then n else |sorted|;
            var end := match q.state.limitValue
                       case None => |sorted|
                       case Some(n) => if skipped + n < |sorted| then skipped + n else |sorted|;
            Fetch(Statement(q), rows, db) == sorted[skipped..end]
  {
  }

  lemma {:induction false} CompiledInOrder(cs: seq<Condition>, columns: set<string>, i: nat)
    requires i < |cs| && CompiledAll(cs, columns).Ok?
    ensures |CompiledAll(cs, columns).value| == |cs|
    ensures Ok(CompiledAll(cs, columns).value[i]) == if cs[i].Q? then Compile(cs[i].node, columns) else Ok(cs[i].e)
    decreases |cs|
  {
    var n := |cs| - 1;
    if 0 < n {
      CompiledInOrder(cs[..n], columns, if i < n then i else 0);
    }
  }

  /** `where` appends its conditions in order, each `Q` compiled and any other as it is,
      and changes nothing else of the query. */
  lemma {:induction false} WhereAppends(q: Query, cs: seq<Condition>, i: nat)
    requires Where(q, cs).Ok? && i < |cs|
    ensures var q', n := Where(q, cs).value, |q.state.conditions|;
            && q' == q.(state := q.state.(conditions := q'.state.conditions))
            && |q'.state.conditions| == n + |cs| && q'.state.conditions[..n] == q.state.conditions
            && Ok(q'.state.conditions[n + i]) ==
               if cs[i].Q? then Compile(cs[i].node, q.model.columns) else Ok(cs[i].e)
  {
    CompiledInOrder(cs, q.model.columns, i);
  }

  // ----------------------------------------------------------------- deletes

  /** `UPDATE … SET deleted_at = now` on the rows that pass. */
  function Stamped(rows: seq<Row>, wheres: seq<Sql>, d: Dialect, now: Value): (r: seq<Row>)
    ensures |r| == |rows|
    ensures forall i | 0 <= i < |rows| ::
      r[i] == if Passes(wheres, rows[i], d) then rows[i][DELETED_AT := now] else rows[i]
  {
    seq(|rows|, i requires 0 <= i < |rows| =>
      if Passes(wheres, rows[i], d) then rows[i][DELETED_AT := now] else rows[i])
  }

  function StampAll(rows: seq<Row>, now: Value): (r: seq<Row>)
    ensures |r| == |rows| && forall i | 0 <= i < |rows| :: r[i] == rows[i][DELETED_AT := now]
  {
    seq(|rows|, i requires 0 <= i < |rows| => rows[i][DELETED_AT := now])
  }

  predicate Mentions(e: Sql, column: string) {
    match e
    case True => false
    case AndAlso(l, r) => Mentions(l, column) || Mentions(r, column)
    case OrElse(l, r) => Mentions(l, column) || Mentions(r, column)
    case Negated(x) => Mentions(x, column)
    case Compare(c, _, v) => c == column || v == Column(column)
    case _ => e.column == column
  }

  lemma {:induction false} UnmentionedColumn(e: Sql, row: Row, column: string, v: Value, d: Dialect)
    requires !Mentions(e, column)
    ensures Eval(e, row[column := v], d) == Eval(e, row, d)
  {
    match e
    case AndAlso(l, r) =>
      UnmentionedColumn(l, row, column, v, d);
      UnmentionedColumn(r, row, column, v, d);
    case OrElse(l, r) =>
      UnmentionedColumn(l, row, column, v, d);
      UnmentionedColumn(r, row, column, v, d);
    case Negated(x) => UnmentionedColumn(x, row, column, v, d);
    case _ =>
  }

  lemma {:induction false} UnmentionedByAll(cs: seq<Sql>, row: Row, column: string, v: Value, d: Dialect)
    requires forall i | 0 <= i < |cs| :: !Mentions(cs[i], column)
    ensures Passes(cs, row[column := v], d) == Passes(cs, row, d)
  {
    if cs != [] {
      UnmentionedByAll(cs[..|cs| - 1], row, column, v, d);
      UnmentionedColumn(cs[|cs| - 1], row, column, v, d);
    }
  }

  ghost predicate IgnoresDeletion(q: Query) {
    forall i | 0 <= i < |q.state.conditions| :: !Mentions(q.state.conditions[i], DELETED_AT)
  }

  /** A stamped row passes the `only` filter iff it passed before, live or deleted. */
  lemma {:induction false} StampedRow(q: Query, row: Row, now: Value, d: Dialect)
    requires q.model.softDeletes && IgnoresDeletion(q) && !now.Null?
    ensures var stamped := row[DELETED_AT := now];
            && !Passes(AllConditions(Trashed(q, Exclude)), stamped, d)
            && (Passes(AllConditions(Trashed(q, Only)), stamped, d) <==>
                Passes(AllConditions(Trashed(q, Include)), row, d))
  {
    var stamped := row[DELETED_AT := now];
    ModeFilters(q, stamped, d);
    UnmentionedByAll(q.state.conditions, row, DELETED_AT, now, d);
  }

  /** The rows of the three modes before and after a delete: the live rows are stamped and
      among the deleted ones after, which are then all there are, and nothing else changed. */
  ghost predicate Moved(before: Modes, after: Modes, now: Value) {
    && after.excluding == []
    && multiset(after.only) == multiset(before.only) + multiset(StampAll(before.excluding, now))
    && multiset(after.including) == multiset(before.only) + multiset(StampAll(before.excluding, now))
  }

  datatype Modes = Modes(excluding: seq<Row>, only: seq<Row>, including: seq<Row>)

  function ModesOf(q: Query, rows: seq<Row>, db: Db): Modes {
    Modes(Rows(Trashed(q, Exclude), rows, db), Rows(Trashed(q, Only), rows, db), Rows(Trashed(q, Include), rows, db))
  }

  /** One more row: live, deleted, or not selected at all. */
  function WithRow(m: Modes, row: Row, live: bool, dead: bool): Modes {
    Modes(m.excluding + (if live then [row] else []),
          m.only + (if dead then [row] else []),
          m.including + (if live || dead then [row] else []))
  }

  lemma {:induction false} StampOneMore(rows: seq<Row>, row: Row, now: Value)
    ensures StampAll(rows + [row], now) == StampAll(rows, now) + [row[DELETED_AT := now]]
  {
  }

  lemma {:induction false} MovedOneMore(before: Modes, after: Modes, row: Row, live: bool, dead: bool, now: Value)
    requires Moved(before, after, now) && !(live && dead)
    ensures Moved(WithRow(before, row, live, dead),
                  WithRow(after, if live then row[DELETED_AT := now] else row, false, live || dead), now)
  {
    if live {
      StampOneMore(before.excluding, row, now);
      assert before.only + [] == before.only;
    } else {
      assert before.excluding + [] == before.excluding;
    }
  }

  lemma {:induction false} ChosenLast(rows: seq<Row>, last: Row, wheres: seq<Sql>, d: Dialect, pass: bool)
    ensures Chosen(rows + [last], wheres, d, pass) ==
      Chosen(rows, wheres, d, pass) + if Passes(wheres, last, d) == pass then [last] else []
  {
    assert (rows + [last])[..|rows + [last]| - 1] == rows;
  }

  lemma {:induction false} ModesOfLast(q: Query, rows: seq<Row>, last: Row, db: Db)
    requires q.model.softDeletes
    ensures var live, dead := Passes(AllConditions(Trashed(q, Exclude)), last, db.dialect),
                              Passes(AllConditions(Trashed(q, Only)), last, db.dialect);
            !(live && dead) && ModesOf(q, rows + [last], db) == WithRow(ModesOf(q, rows, db), last, live, dead)
  {
    ModeFilters(q, last, db.dialect);
    ChosenLast(rows, last, AllConditions(Trashed(q, Exclude)), db.dialect, true);
    ChosenLast(rows, last, AllConditions(Trashed(q, Only)), db.dialect, true);
    ChosenLast(rows, last, AllConditions(Trashed(q, Include)), db.dialect, true);
  }

  /** The fate of one row: afterwards it is deleted iff it was selected in either mode. */
  lemma {:induction false} RowAfterDelete(q: Query, row: Row, now: Value, d: Dialect)
    requires q.model.softDeletes && IgnoresDeletion(q) && !now.Null?
    ensures var live, dead := Passes(AllConditions(Trashed(q, Exclude)), row, d),
                              Passes(AllConditions(Trashed(q, Only)), row, d);
            var row' := if live then row[DELETED_AT := now] else row;
            && !Passes(AllConditions(Trashed(q, Exclude)), row', d)
            && (Passes(AllConditions(Trashed(q, Only)), row', d) <==> live || dead)
  {
    ModeFilters(q, row, d);
    StampedRow(q, row, now, d);
  }

  /** A default bulk delete empties `exclude` and moves exactly its rows, stamped, to
      `only`; `include` keeps every row, the moved ones stamped. */
  lemma {:induction false} DeleteMovesRows(q: Query, rows: seq<Row>, now: Value, db: Db)
    requires q.model.softDeletes && IgnoresDeletion(q) && !now.Null?
    ensures Moved(ModesOf(q, rows, db),
                  ModesOf(q, Stamped(rows, AllConditions(Trashed(q, Exclude)), db.dialect, now), db), now)
    decreases |rows|
  {
    if rows != [] {
      var live := AllConditions(Trashed(q, Exclude));
      var init, last := rows[..|rows| - 1], rows[|rows| - 1];
      var last' := if Passes(live, last, db.dialect) then last[DELETED_AT := now] else last;
      DeleteMovesRows(q, init, now, db);
      assert rows == init + [last];
      assert Stamped(rows, live, db.dialect, now) == Stamped(init, live, db.dialect, now) + [last'];
      ModesOfLast(q, init, last, db);
      ModesOfLast(q, Stamped(init, live, db.dialect, now), last', db);
      RowAfterDelete(q, last, now, db.dialect);
      MovedOneMore(ModesOf(q, init, db), ModesOf(q, Stamped(init, live, db.dialect, now), db), last,
                   Passes(live, last, db.dialect), Passes(AllConditions(Trashed(q, Only)), last, db.dialect), now);
    }
  }

  /** A hard delete removes exactly the rows the query selects, and keeps the others in
      their order. */
  lemma {:induction false} HardDeleteRemovesSelection(q: Query, rows: seq<Row>, db: Db)
    ensures var d, wheres := db.dialect, AllConditions(q);
            var kept := Chosen(rows, wheres, d, false);
            && multiset(rows) == multiset(Rows(q, rows, db)) + multiset(kept)
            && Rows(q, kept, db) == []
            && (forall r | r in kept :: !Passes(wheres, r, d))
            && (forall r | r in Rows(q, rows, db) :: Passes(wheres, r, d))
    decreases |rows|
  {
    if rows != [] {
      var init, last := rows[..|rows| - 1], rows[|rows| - 1];
      HardDeleteRemovesSelection(q, init, db);
      assert rows == init + [last];
      ChosenLast(Chosen(init, AllConditions(q), db.dialect, false), last, AllConditions(q), db.dialect, true);
    }
  }

  // ------------------------------------------------------------------- table

  /** The statement as `_build_select` assembles it. */
  method BuildSelect(q: Query) returns (stmt: Select)
    ensures stmt == Statement(q)
  {
    stmt := Select([], [], None, None);
    var conditions := AllConditions(q);
    for i := 0 to |conditions|
      invariant stmt == Select(conditions[..i], [], None, None)
    {
      stmt := stmt.(wheres := stmt.wheres + [conditions[i]]);
    }
    if q.state.order != [] {
      stmt := stmt.(order := q.state.order);
    }
    if q.state.limitValue.Some? {
      stmt := stmt.(limit := q.state.limitValue);
    }
    if q.state.offsetValue.Some? {
      stmt := stmt.(offset := q.state.offsetValue);
    }
  }

  /** The table behind a model, and the terminal operations that read and change it. */
  class Table {
    const db: Db

    var rows: seq<Row>

    constructor (db: Db, rows: seq<Row>)
      ensures this.db == db && this.rows == rows
    {
      this.db := db;
      this.rows := rows;
    }

    method All(q: Query) returns (r: seq<Row>)
      ensures r == Fetch(Statement(q), rows, db)
    {
      var stmt := BuildSelect(q);
      r := Fetch(stmt, rows, db);
    }

    method CollectConditions(q: Query) returns (wheres: seq<Sql>)
      ensures wheres == AllConditions(q)
    {
      wheres := [];
      var conditions := AllConditions(q);
      for i := 0 to |conditions|
        invariant wheres == conditions[..i]
      {
        wheres := wheres + [conditions[i]];
      }
    }

    method Count(q: Query) returns (n: nat)
      ensures n == |Rows(q, rows, db)|
    {
      var wheres := CollectConditions(q);
      n := |Chosen(rows, wheres, db.dialect, true)|;
    }

    /** Stamps the selected rows of a model with soft deletes, removes those of another;
        order, limit and offset play no part. */
    method Delete(q: Query, now: Value) returns (rowcount: nat)
      modifies this`rows
      ensures rowcount == |Rows(q, old(rows), db)|
      ensures rows == if q.model.softDeletes then Stamped(old(rows), AllConditions(q), db.dialect, now)
                      else Chosen(old(rows), AllConditions(q), db.dialect, false)
      ensures q.model.softDeletes && q.state.trashedMode == Exclude && IgnoresDeletion(q) && !now.Null? ==>
                Moved(ModesOf(q, old(rows), db), ModesOf(q, rows, db), now)
    {
      var wheres := CollectConditions(q);
      rowcount := |Chosen(rows, wheres, db.dialect, true)|;
      if q.model.softDeletes {
        if q.state.trashedMode == Exclude && IgnoresDeletion(q) && !now.Null? {
          assert q == Trashed(q, Exclude);
          DeleteMovesRows(q, rows, now, db);
        }
        rows := Stamped(rows, wheres, db.dialect, now);
      } else {
        rows := Chosen(rows, wheres, db.dialect, false);
      }
    }

    method ForceDelete(q: Query) returns (rowcount: nat)
      modifies this`rows
      ensures rowcount == |Rows(q, old(rows), db)|
      ensures rows == Chosen(old(rows), AllConditions(q), db.dialect, false)
      ensures multiset(old(rows)) == multiset(Rows(q, old(rows), db)) + multiset(rows)
      ensures Rows(q, rows, db) == []
    {
      var wheres := CollectConditions(q);
      HardDeleteRemovesSelection(q, rows, db);
      rowcount := |Chosen(rows, wheres, db.dialect, true)|;
      rows := Chosen(rows, wheres, db.dialect, false);
    }
  }
}
