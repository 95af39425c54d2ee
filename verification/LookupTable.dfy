/**
 The lookups as they are written: for each suffix, which operands it takes and what
 the compiled condition decides, in terms of the row's values.
 */
module LookupTable {
  import opened Options
  import opened LikePattern
  import opened Expressions
  import opened ExpressionMeaning

  function ValueAt(row: Row, column: string): Value {
    if column in row then row[column] else Null
  }

  function ValueOf(row: Row, v: Operand): Value {
    match v
    case Literal(x) => x
    case Column(name) => ValueAt(row, name)
  }

  /** Unknown, or else true or false. */
  function Verdict(known: bool, holds: bool): Truth {
    if !known then U else if holds then T else F
  }

  /** If the lookup compiles, its condition has this truth value on the row. */
  ghost predicate Says(
    column: string, op: string, v: Operand, columns: set<string>, row: Row, d: Dialect, t: Truth)
  {
    var compiled := Compile(Cmp(column, op, v), columns);
    compiled.Ok? ==> Eval(compiled.value, row, d) == t
  }

  /** `eq` and `ne`: a literal `None` asks for NULL, and is always answered; otherwise
      both sides must be known. */
  lemma {:induction false} EqualityMeaning(
    column: string, v: Operand, columns: set<string>, row: Row, d: Dialect)
    ensures var x, y := ValueAt(row, column), ValueOf(row, v);
            v == Literal(Null) ==>
              Says(column, "eq", v, columns, row, d, Verdict(true, x == Null)) &&
              Says(column, "ne", v, columns, row, d, Verdict(true, x != Null))
    ensures var x, y := ValueAt(row, column), ValueOf(row, v);
            v != Literal(Null) ==>
              Says(column, "eq", v, columns, row, d, Verdict(x != Null && y != Null, x == y)) &&
              Says(column, "ne", v, columns, row, d, Verdict(x != Null && y != Null, x != y))
  {
  }

  /** `gt`, `ge`, `lt` and `le`: the column on the left of the operand, both known. */
  lemma {:induction false} OrderMeaning(
    column: string, v: Operand, columns: set<string>, row: Row, d: Dialect)
    ensures var x, y := ValueAt(row, column), ValueOf(row, v);
            var known := x != Null && y != Null;
            && Says(column, "gt", v, columns, row, d, Verdict(known, d.less(y, x)))
            && Says(column, "ge", v, columns, row, d, Verdict(known, d.less(y, x) || x == y))
            && Says(column, "lt", v, columns, row, d, Verdict(known, d.less(x, y)))
            && Says(column, "le", v, columns, row, d, Verdict(known, d.less(x, y) || x == y))
  {
  }

  /** `isnull`: a falsy operand asks for a value, any other for NULL. */
  lemma {:induction false} NullnessMeaning(
    column: string, v: Operand, columns: set<string>, row: Row, d: Dialect)
    ensures var falsy := v.Literal? && v.value in {Null, Bool(false), Int(0), Text(""), List([])};
            Says(column, "isnull", v, columns, row, d, Verdict(true, (ValueAt(row, column) == Null) == !falsy))
  {
    assert Operator("isnull") == Some(Nullness);
    var falsy := v.Literal? && v.value in {Null, Bool(false), Int(0), Text(""), List([])};
    assert v.Literal? ==> falsy == !Truthy(v.value);
  }

  /** `in`: true if the value is among the items, false if it is known not to be; a NULL
      on either side leaves it open, but nothing is in an empty list. */
  lemma {:induction false} MembershipMeaning(
    column: string, items: seq<Value>, columns: set<string>, row: Row, d: Dialect)
    ensures var x := ValueAt(row, column);
            Says(column, "in", Literal(List(items)), columns, row, d,
                 Verdict(items == [] || (x != Null && (x in items || Null !in items)), x in items))
  {
    var k := Lookup(column, "in", Literal(List(items)));
    if column in columns {
      AnyEqualIsMembership(ValueAt(row, column), items, d);
    }
  }

  /** `in` over a string: among its characters. */
  lemma {:induction false} CharacterMembership(
    column: string, s: string, columns: set<string>, row: Row, d: Dialect)
    ensures var x := ValueAt(row, column);
            Says(column, "in", Literal(Text(s)), columns, row, d,
                 Verdict(s == "" || x != Null, exists c | c in s :: x == Text([c])))
  {
    var items := Iterated(Literal(Text(s))).value;
    if column in columns {
      AnyEqualIsMembership(ValueAt(row, column), items, d);
      forall c | c in s ensures Text([c]) in items {
        var i :| 0 <= i < |s| && s[i] == c;
        assert items[i] == Text([c]);
      }
      assert Null !in items && (forall x | x in items :: x.Text? && |x.s| == 1 && x.s[0] in s && x == Text([x.s[0]]));
    }
  }

  ghost predicate Holding(s: string, part: string) {
    exists a: string, b: string :: s == a + part + b
  }

  ghost predicate Heading(s: string, part: string) {
    exists b: string :: s == part + b
  }

  ghost predicate Tailing(s: string, part: string) {
    exists a: string :: s == a + part
  }

  lemma {:induction false} OccursAsBlock(part: string, s: string)
    ensures Occurs(part, s) <==> Holding(s, part)
  {
    if i :| 0 <= i <= |s| && part <= s[i..] {
      assert s == s[..i] + part + s[i + |part|..];
    }
    if a: string, b: string :| s == a + part + b {
      assert s[|a|..] == part + b;
    }
  }

  lemma {:induction false} PrefixAndSuffix(part: string, s: string)
    ensures part <= s <==> Heading(s, part)
    ensures EndsWithPart(part, s) <==> Tailing(s, part)
  {
    if part <= s {
      assert s == part + s[|part|..];
    }
    if EndsWithPart(part, s) {
      assert s == s[..|s| - |part|] + part;
    }
  }

  /** `contains`: the value's text has the operand somewhere. */
  lemma {:induction false} SubstringMeaning(
    column: string, part: string, columns: set<string>, row: Row, d: Dialect)
    ensures var x := ValueAt(row, column);
            Says(column, "contains", Literal(Text(part)), columns, row, d,
                 Verdict(x != Null, Holding(d.text(x), part)))
  {
    OccursAsBlock(part, d.text(ValueAt(row, column)));
  }

  /** `startswith`: the value's text begins with the operand. */
  lemma {:induction false} PrefixMeaning(
    column: string, part: string, columns: set<string>, row: Row, d: Dialect)
    ensures var x := ValueAt(row, column);
            Says(column, "startswith", Literal(Text(part)), columns, row, d,
                 Verdict(x != Null, Heading(d.text(x), part)))
  {
    PrefixAndSuffix(part, d.text(ValueAt(row, column)));
  }

  /** `endswith`: the value's text ends with the operand. */
  lemma {:induction false} SuffixMeaning(
    column: string, part: string, columns: set<string>, row: Row, d: Dialect)
    ensures var x := ValueAt(row, column);
            Says(column, "endswith", Literal(Text(part)), columns, row, d,
                 Verdict(x != Null, Tailing(d.text(x), part)))
  {
    PrefixAndSuffix(part, d.text(ValueAt(row, column)));
  }

  /** `icontains`: the operand somewhere, up to case, and nothing in it is a wildcard. */
  lemma {:induction false} FoldedTextMeaning(
    column: string, part: string, columns: set<string>, row: Row, d: Dialect)
    requires FoldsCase(d.fold)
    ensures var x := ValueAt(row, column);
            var s, p := Folded(d.text(x), d.fold), Folded(part, d.fold);
            Says(column, "icontains", Literal(Text(part)), columns, row, d,
                 Verdict(x != Null, Holding(s, p)))
  {
    var x := ValueAt(row, column);
    OccursAsBlock(Folded(part, d.fold), Folded(d.text(x), d.fold));
    EscapedPatternFindsFolded(part, d.text(x), d.fold);
  }

  // ------------------------------------------------------------------- errors

  /** The operands a suffix takes; any other suffix is refused as unknown. */
  lemma {:induction false} OperandsTaken(column: string, op: string, v: Operand, columns: set<string>)
    requires column in columns && (v.Column? ==> v.name in columns)
    ensures var compiled := Compile(Cmp(column, op, v), columns);
            if op in {"eq", "ne"} then
              compiled.Ok? == (v.Column? || !v.value.List?) && (compiled.Err? ==> compiled.error == BadOperand(op))
            else if op in {"gt", "ge", "lt", "le"} then
              compiled.Ok? == (v.Column? || v.value.Int? || v.value.Text?) &&
              (compiled.Err? ==> compiled.error == BadOperand(op))
            else if op in {"contains", "icontains", "startswith", "endswith"} then
              compiled.Ok? == (v.Literal? && v.value.Text?) && (compiled.Err? ==> compiled.error == BadOperand(op))
            else if op == "in" then
              compiled.Ok? == (v.Literal? && (v.value.Text? || v.value.List?)) &&
              (compiled.Err? ==> compiled.error == BadOperand(op))
            else if op == "isnull" then compiled.Ok?
            else compiled == Err(UnknownOperator(op))
  {
  }

  // ----------------------------------------------------------------- keywords

  lemma {:induction false} FirstSeparatorIsUnique(key: string, field: string, op: string)
    requires key == field + "__" + op && forall i: nat | i < |field| :: !SeparatorAt(key, i)
    ensures Partition(key) == (field, op)
  {
    assert SeparatorAt(key, |field|);
    var (f, o) := Partition(key);
    assert key == f + "__" + o && SeparatorAt(key, |f|);
    assert |f| == |field|;
    assert f == key[..|f|] == field && o == key[|f| + 2..] == op;
  }

  /** A keyword is the lookup that its first double underscore spells, with `eq` where no
      suffix is given; without a double underscore it is an `eq` of the whole keyword. */
  lemma {:induction false} KeywordMeaning(key: string, v: Operand, columns: set<string>, field: string, op: string)
    requires (key == field + "__" + op && forall i: nat | i < |field| :: !SeparatorAt(key, i)) ||
             (key == field && op == "" && forall i: nat :: !SeparatorAt(key, i))
    ensures Compile(Kwargs([(key, v)]), columns) == Compile(Cmp(field, if op == "" then "eq" else op, v), columns)
  {
    if key == field {
      var (f, o) := Partition(key);
      assert key == f + "__" + o ==> SeparatorAt(key, |f|);
    } else {
      FirstSeparatorIsUnique(key, field, op);
    }
    var items := [(key, v)];
    assert items[..0] == [] && Clauses([], columns) == Ok([]);
    assert Clauses(items, columns) == Appended(Ok([]), Clause(LookupOf(items[0]), columns));
  }
}
