/**
 What a compiled condition decides on a row with NULLs, under three-valued logic,
 against what the predicate means.
 */
module ExpressionMeaning {
  import opened Options
  import opened LikePattern
  import opened Expressions

  /** The truth values of section 8.12 of ISO/IEC 9075:1992. */
  datatype Truth = T | F | U

  type Row = map<string, Value>

  /** What the database decides: its order, its text form of values, its case folding. */
  datatype Dialect = Dialect(less: (Value, Value) -> bool, text: Value -> string, fold: char -> char)

  function Read(row: Row, column: string): Value {
    if column in row then row[column] else Null
  }

  function Given(row: Row, v: Operand): Value {
    if v.Column? then Read(row, v.name) else v.value
  }

  // -------------------------------------------------- the compiled condition

  function Decided(b: bool): Truth {
    if b then T else F
  }

  function Not3(a: Truth): Truth {
    match a case T => F case F => T case U => U
  }

  function And3(a: Truth, b: Truth): Truth {
    if a.F? || b.F? then F else if a.U? || b.U? then U else T
  }

  function Or3(a: Truth, b: Truth): Truth {
    if a.T? || b.T? then T else if a.U? || b.U? then U else F
  }

  function Relates(relation: Relation, x: Value, y: Value, d: Dialect): bool {
    match relation
    case Eq => x == y
    case Ne => x != y
    case Gt => d.less(y, x)
    case Ge => d.less(y, x) || x == y
    case Lt => d.less(x, y)
    case Le => d.less(x, y) || x == y
  }

  function Compared(relation: Relation, x: Value, y: Value, d: Dialect): Truth {
    if x.Null? || y.Null? then U else Decided(Relates(relation, x, y, d))
  }

  /** `x IN (…)` is a chain of equalities. */
  function AnyEqual(x: Value, vs: seq<Value>, d: Dialect): Truth {
    if vs == [] then F else Or3(Compared(Eq, x, vs[0], d), AnyEqual(x, vs[1..], d))
  }

  predicate EndsWithPart(part: string, s: string) {
    |part| <= |s| && s[|s| - |part|..] == part
  }

  function OnText(x: Value, f: string -> bool, d: Dialect): Truth {
    if x.Null? then U else Decided(f(d.text(x)))
  }

  function Eval(e: Sql, row: Row, d: Dialect): Truth {
    match e
    case True => T
    case IsNull(c) => Decided(Read(row, c).Null?)
    case IsNotNull(c) => Decided(!Read(row, c).Null?)
    case Compare(c, relation, v) => Compared(relation, Read(row, c), Given(row, v), d)
    case In(c, vs) => AnyEqual(Read(row, c), vs, d)
    case Contains(c, part) => OnText(Read(row, c), s => Occurs(part, s), d)
    case StartsWith(c, part) => OnText(Read(row, c), s => part <= s, d)
    case EndsWith(c, part) => OnText(Read(row, c), s => EndsWithPart(part, s), d)
    case ILike(c, pattern) => OnText(Read(row, c), s => Matches(Folded(pattern, d.fold), Folded(s, d.fold)), d)
    case AndAlso(l, r) => And3(Eval(l, row, d), Eval(r, row, d))
    case OrElse(l, r) => Or3(Eval(l, row, d), Eval(r, row, d))
    case Negated(x) => Not3(Eval(x, row, d))
  }

  // -------------------------------------------------------- the direct meaning

  /** `x` stands in the relation `op` to `y`, the value of operand `v`. */
  predicate Satisfied(x: Value, op: Op, v: Operand, y: Value, d: Dialect) {
    match op
    case Relating(Eq) => x == y && (x.Null? ==> v.Literal?)
    case Relating(Ne) => x != y && !x.Null? && (y.Null? ==> v.Literal?)
    case Relating(Gt) => !x.Null? && !y.Null? && d.less(y, x)
    case Relating(Ge) => !x.Null? && !y.Null? && (d.less(y, x) || x == y)
    case Relating(Lt) => !x.Null? && !y.Null? && d.less(x, y)
    case Relating(Le) => !x.Null? && !y.Null? && (d.less(x, y) || x == y)
    case Among => !x.Null? && Iterated(v).Some? && x in Iterated(v).value
    case Nullness => x.Null? == (v.Column? || Truthy(y))
    case Containing => !x.Null? && y.Text? && Occurs(y.s, d.text(x))
    case ContainingFolded => !x.Null? && y.Text? && Occurs(Folded(y.s, d.fold), Folded(d.text(x), d.fold))
    case Starting => !x.Null? && y.Text? && y.s <= d.text(x)
    case Ending => !x.Null? && y.Text? && EndsWithPart(y.s, d.text(x))
  }

  /** The lookup is satisfied by the row. */
  predicate LookupHolds(k: Lookup, row: Row, d: Dialect) {
    Operator(k.op).Some? && Satisfied(Read(row, k.field), Operator(k.op).value, k.operand, Given(row, k.operand), d)
  }

  /** Membership is decided unless a NULL might be the missing match. */
  predicate Members(x: Value, vs: seq<Value>) {
    vs == [] || (!x.Null? && (x in vs || Null !in vs))
  }

  /** Whether the question is decided in spite of NULLs. */
  predicate Known(x: Value, op: Op, v: Operand, y: Value) {
    match op
    case Relating(_) => v == Literal(Null) || (!x.Null? && !y.Null?)
    case Among => Iterated(v).Some? && Members(x, Iterated(v).value)
    case Nullness => true
    case _ => !x.Null?
  }

  /** The lookup is refuted by the row: what it asks is known, and not the case. */
  predicate LookupFails(k: Lookup, row: Row, d: Dialect) {
    Operator(k.op).Some? && !LookupHolds(k, row, d) &&
    Known(Read(row, k.field), Operator(k.op).value, k.operand, Given(row, k.operand))
  }

  ghost predicate Holds(n: Node, row: Row, d: Dialect) {
    match n
    case Cmp(left, op, right) => LookupHolds(Lookup(left, op, right), row, d)
    case Kwargs(items) => forall i | 0 <= i < |items| :: LookupHolds(LookupOf(items[i]), row, d)
    case And(l, r) => Holds(l, row, d) && Holds(r, row, d)
    case Or(l, r) => Holds(l, row, d) || Holds(r, row, d)
    case Not(c) => Fails(c, row, d)
  }

  ghost predicate Fails(n: Node, row: Row, d: Dialect) {
    match n
    case Cmp(left, op, right) => LookupFails(Lookup(left, op, right), row, d)
    case Kwargs(items) => exists i | 0 <= i < |items| :: LookupFails(LookupOf(items[i]), row, d)
    case And(l, r) => Fails(l, row, d) || Fails(r, row, d)
    case Or(l, r) => Fails(l, row, d) && Fails(r, row, d)
    case Not(c) => Holds(c, row, d)
  }

  // ------------------------------------------------------------------ lookups

  lemma {:induction false} AnyEqualIsMembership(x: Value, vs: seq<Value>, d: Dialect)
    ensures AnyEqual(x, vs, d).T? <==> !x.Null? && x in vs
    ensures AnyEqual(x, vs, d).F? <==> Members(x, vs) && !(!x.Null? && x in vs)
  {
    if vs != [] {
      AnyEqualIsMembership(x, vs[1..], d);
      assert forall v :: v in vs <==> v == vs[0] || v in vs[1..];
    }
  }

  /** A condition is true on the row iff `holds`, and false iff `fails`. */
  predicate Means(e: Sql, row: Row, d: Dialect, holds: bool, fails: bool) {
    Eval(e, row, d) == if holds then T else if fails then F else U
  }

  lemma {:induction false} ConditionMeaning(column: string, op: Op, v: Operand, row: Row, d: Dialect)
    requires Condition(column, op, v).Some? && FoldsCase(d.fold)
    ensures var x, y := Read(row, column), Given(row, v);
            var holds := Satisfied(x, op, v, y, d);
            Means(Condition(column, op, v).value, row, d, holds, !holds && Known(x, op, v, y))
  {
    match op
    case Among => AnyEqualIsMembership(Read(row, column), Iterated(v).value, d);
    case ContainingFolded => EscapedPatternFindsFolded(v.value.s, d.text(Read(row, column)), d.fold);
    case _ =>
  }

  /** Every operator of the table compiles to a condition with the lookup's meaning. */
  lemma {:induction false} LookupMeaning(k: Lookup, columns: set<string>, row: Row, d: Dialect)
    requires Clause(k, columns).Ok? && FoldsCase(d.fold)
    ensures Means(Clause(k, columns).value, row, d, LookupHolds(k, row, d), LookupFails(k, row, d))
  {
    ConditionMeaning(k.field, Operator(k.op).value, k.operand, row, d);
  }

  // ------------------------------------------------------------------- trees

  ghost predicate AllTrue(cs: seq<Sql>, row: Row, d: Dialect) {
    forall i | 0 <= i < |cs| :: Eval(cs[i], row, d).T?
  }

  ghost predicate SomeFalse(cs: seq<Sql>, row: Row, d: Dialect) {
    exists i | 0 <= i < |cs| :: Eval(cs[i], row, d).F?
  }

  lemma {:induction false} JoinedMeaning(cs: seq<Sql>, row: Row, d: Dialect)
    ensures Means(Joined(cs), row, d, AllTrue(cs, row, d), SomeFalse(cs, row, d))
  {
    if cs != [] {
      var init, last := cs[..|cs| - 1], cs[|cs| - 1];
      JoinedMeaning(init, row, d);
      assert AllTrue(cs, row, d) <==> AllTrue(init, row, d) && Eval(last, row, d).T?;
      assert SomeFalse(cs, row, d) <==> SomeFalse(init, row, d) || Eval(last, row, d).F? by {
        if Eval(last, row, d).F? {
          assert Eval(cs[|cs| - 1], row, d).F?;
        }
        if SomeFalse(init, row, d) {
          var i :| 0 <= i < |init| && Eval(init[i], row, d).F?;
          assert Eval(cs[i], row, d).F?;
        }
      }
    }
  }

  lemma {:induction false} ClauseOfItem(items: seq<(string, Operand)>, columns: set<string>, i: nat)
    requires Clauses(items, columns).Ok? && i < |items|
    ensures Clause(LookupOf(items[i]), columns) == Ok(Clauses(items, columns).value[i])
    decreases |items|
  {
    var last := |items| - 1;
    var init := Clauses(items[..last], columns);
    assert Clauses(items, columns) == Appended(init, Clause(LookupOf(items[last]), columns));
    if i < last {
      ClauseOfItem(items[..last], columns, i);
      assert Clauses(items, columns).value[i] == init.value[i];
    }
  }

  lemma {:induction false} ItemsAgree(items: seq<(string, Operand)>, cs: seq<Sql>, row: Row, d: Dialect)
    requires |cs| == |items|
    requires forall i | 0 <= i < |items| ::
      Means(cs[i], row, d, LookupHolds(LookupOf(items[i]), row, d), LookupFails(LookupOf(items[i]), row, d))
    ensures Holds(Kwargs(items), row, d) <==> AllTrue(cs, row, d)
    ensures Fails(Kwargs(items), row, d) <==> SomeFalse(cs, row, d)
  {
  }

  lemma {:induction false} KwargsMeaning(items: seq<(string, Operand)>, columns: set<string>, row: Row, d: Dialect)
    requires Clauses(items, columns).Ok? && FoldsCase(d.fold)
    ensures Means(Joined(Clauses(items, columns).value), row, d,
                  Holds(Kwargs(items), row, d), Fails(Kwargs(items), row, d))
  {
    var cs := Clauses(items, columns).value;
    JoinedMeaning(cs, row, d);
    forall i | 0 <= i < |items|
      ensures Means(cs[i], row, d, LookupHolds(LookupOf(items[i]), row, d), LookupFails(LookupOf(items[i]), row, d))
    {
      ClauseOfItem(items, columns, i);
      LookupMeaning(LookupOf(items[i]), columns, row, d);
    }
    ItemsAgree(items, cs, row, d);
  }

  lemma {:induction false} HoldsOrFails(n: Node, row: Row, d: Dialect)
    ensures !(Holds(n, row, d) && Fails(n, row, d))
  {
    match n
    case Cmp(left, op, right) =>
    case Kwargs(items) =>
    case And(l, r) => HoldsOrFails(l, row, d); HoldsOrFails(r, row, d);
    case Or(l, r) => HoldsOrFails(l, row, d); HoldsOrFails(r, row, d);
    case Not(c) => HoldsOrFails(c, row, d);
  }

  /** Compilation preserves meaning: on every row the condition is true exactly where
      the predicate holds, false exactly where it fails, and unknown elsewhere. */
  lemma {:induction false} CompilationPreservesMeaning(n: Node, columns: set<string>, row: Row, d: Dialect)
    requires Compile(n, columns).Ok? && FoldsCase(d.fold)
    ensures Eval(Compile(n, columns).value, row, d).T? <==> Holds(n, row, d)
    ensures Eval(Compile(n, columns).value, row, d).F? <==> Fails(n, row, d)
  {
    match n
    case Cmp(left, op, right) => LookupMeaning(Lookup(left, op, right), columns, row, d);
    case Kwargs(items) =>
      KwargsMeaning(items, columns, row, d);
      HoldsOrFails(n, row, d);
    case And(l, r) =>
      CompilationPreservesMeaning(l, columns, row, d);
      CompilationPreservesMeaning(r, columns, row, d);
    case Or(l, r) =>
      CompilationPreservesMeaning(l, columns, row, d);
      CompilationPreservesMeaning(r, columns, row, d);
    case Not(c) =>
      CompilationPreservesMeaning(c, columns, row, d);
  }

  // ------------------------------------------------------------------ errors

  /** The lookups of a predicate, in the order in which it was written. */
  function Lookups(n: Node): seq<Lookup> {
    match n
    case Cmp(left, op, right) => [Lookup(left, op, right)]
    case Kwargs(items) => seq(|items|, i requires 0 <= i < |items| => LookupOf(items[i]))
    case And(l, r) => Lookups(l) + Lookups(r)
    case Or(l, r) => Lookups(l) + Lookups(r)
    case Not(c) => Lookups(c)
  }

  /** The operand is one the operator takes. */
  predicate Fits(op: Op, v: Operand) {
    match op
    case Relating(relation) =>
      v.Column? || v.value.Int? || v.value.Text? || (relation in {Eq, Ne} && !v.value.List?)
    case Among => v.Literal? && (v.value.Text? || v.value.List?)
    case Nullness => true
    case _ => v.Literal? && v.value.Text?
  }

  /** What is wrong with a lookup, if anything. */
  function Fault(k: Lookup, columns: set<string>): Option<Error> {
    if k.field !in columns then Some(NoSuchColumn(k.field))
    else if k.operand.Column? && k.operand.name !in columns then Some(NoSuchColumn(k.operand.name))
    else if Operator(k.op).None? then Some(UnknownOperator(k.op))
    else if !Fits(Operator(k.op).value, k.operand) then Some(BadOperand(k.op))
    else None
  }

  /** The first fault among the lookups. */
  ghost predicate Reports(ks: seq<Lookup>, columns: set<string>, fault: Option<Error>) {
    if fault.None? then forall k | k in ks :: Fault(k, columns).None?
    else exists i | 0 <= i < |ks| ::
           Fault(ks[i], columns) == fault && forall j | 0 <= j < i :: Fault(ks[j], columns).None?
  }

  function Outcome<V>(r: Result<V, Error>): Option<Error> {
    if r.Ok? then None else Some(r.error)
  }

  lemma {:induction false} ClauseFault(k: Lookup, columns: set<string>)
    ensures Outcome(Clause(k, columns)) == Fault(k, columns)
  {
  }

  lemma {:induction false} ReportsJoin(
    ks: seq<Lookup>, ls: seq<Lookup>, columns: set<string>, f: Option<Error>, g: Option<Error>)
    requires Reports(ks, columns, f) && Reports(ls, columns, g)
    ensures Reports(ks + ls, columns, if f.Some? then f else g)
  {
    if f.None? && g.Some? {
      var i :| 0 <= i < |ls| && Fault(ls[i], columns) == g && forall j | 0 <= j < i :: Fault(ls[j], columns).None?;
      assert (ks + ls)[|ks| + i] == ls[i];
      forall j | 0 <= j < |ks| + i ensures Fault((ks + ls)[j], columns).None? {
        assert j < |ks| ==> ks[j] in ks;
      }
    } else if f.Some? {
      var i :| 0 <= i < |ks| && Fault(ks[i], columns) == f && forall j | 0 <= j < i :: Fault(ks[j], columns).None?;
      assert (ks + ls)[i] == ks[i];
    }
  }

  lemma {:induction false} SingleReport(k: Lookup, columns: set<string>)
    ensures Reports([k], columns, Fault(k, columns))
  {
    if Fault(k, columns).Some? {
      assert Fault([k][0], columns) == Fault(k, columns);
    }
  }

  lemma {:induction false} ClausesReport(items: seq<(string, Operand)>, columns: set<string>)
    ensures Reports(Lookups(Kwargs(items)), columns, Outcome(Clauses(items, columns)))
  {
    if items != [] {
      var init, last := items[..|items| - 1], LookupOf(items[|items| - 1]);
      ClausesReport(init, columns);
      ClauseFault(last, columns);
      assert Lookups(Kwargs(items)) == Lookups(Kwargs(init)) + [last];
      SingleReport(last, columns);
      ReportsJoin(Lookups(Kwargs(init)), [last], columns, Outcome(Clauses(init, columns)), Fault(last, columns));
    }
  }

  /** Compilation succeeds exactly when no lookup is at fault, and otherwise reports
      the first fault in the order of writing, whatever connects the lookups. */
  lemma {:induction false} CompilationReportsFirstFault(n: Node, columns: set<string>)
    ensures Reports(Lookups(n), columns, Outcome(Compile(n, columns)))
  {
    match n
    case Cmp(left, op, right) =>
      ClauseFault(Lookup(left, op, right), columns);
      SingleReport(Lookup(left, op, right), columns);
    case Kwargs(items) => ClausesReport(items, columns);
    case And(l, r) =>
      CompilationReportsFirstFault(l, columns);
      CompilationReportsFirstFault(r, columns);
      ReportsJoin(Lookups(l), Lookups(r), columns, Outcome(Compile(l, columns)), Outcome(Compile(r, columns)));
    case Or(l, r) =>
      CompilationReportsFirstFault(l, columns);
      CompilationReportsFirstFault(r, columns);
      ReportsJoin(Lookups(l), Lookups(r), columns, Outcome(Compile(l, columns)), Outcome(Compile(r, columns)));
    case Not(c) => CompilationReportsFirstFault(c, columns);
  }

  // -------------------------------------------------------------------- laws

  /** Single lookups combined with `&`. */
  function Folding(items: seq<(string, Operand)>): Node
    requires items != []
  {
    if |items| == 1 then Kwargs(items) else And(Folding(items[..|items| - 1]), Kwargs(items[|items| - 1..]))
  }

  /** Keywords are the fold of `&` over single lookups: same condition, same error. */
  lemma {:induction false} KwargsAreConjunction(items: seq<(string, Operand)>, columns: set<string>)
    requires items != []
    ensures Compile(Kwargs(items), columns) == Compile(Folding(items), columns)
  {
    if |items| > 1 {
      var init, last := items[..|items| - 1], items[|items| - 1..];
      KwargsAreConjunction(init, columns);
      assert last[..0] == [] && last[0] == items[|items| - 1];
      assert Clauses(last, columns) == Appended(Ok([]), Clause(LookupOf(last[0]), columns));
      if Clauses(items, columns).Ok? {
        var cs := Clauses(items, columns).value;
        assert cs[..|cs| - 1] == Clauses(init, columns).value;
      }
    }
  }

  /** The same error, or conditions with the same truth value on the row. */
  predicate SameMeaning(a: Result<Sql, Error>, b: Result<Sql, Error>, row: Row, d: Dialect) {
    Outcome(a) == Outcome(b) && (a.Ok? ==> Eval(a.value, row, d) == Eval(b.value, row, d))
  }

  /** `Q()` is neutral for `&`. */
  lemma {:induction false} EmptyQIsNeutral(a: Node, columns: set<string>, row: Row, d: Dialect)
    ensures SameMeaning(Compile(And(Kwargs([]), a), columns), Compile(a, columns), row, d)
    ensures SameMeaning(Compile(And(a, Kwargs([])), columns), Compile(a, columns), row, d)
  {
    assert Compile(Kwargs([]), columns) == Ok(True);
  }

  /** `~` turns `&` and `|` into each other, and cancels. */
  lemma {:induction false} DeMorgan(a: Node, b: Node, columns: set<string>, row: Row, d: Dialect)
    ensures SameMeaning(Compile(Not(And(a, b)), columns), Compile(Or(Not(a), Not(b)), columns), row, d)
    ensures SameMeaning(Compile(Not(Or(a, b)), columns), Compile(And(Not(a), Not(b)), columns), row, d)
    ensures SameMeaning(Compile(Not(Not(a)), columns), Compile(a, columns), row, d)
  {
  }
}
