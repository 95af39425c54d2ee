/** Q and F predicates, and their compilation to SQL conditions. */
module Expressions {
  import opened Options
  import opened LikePattern

  datatype Value = Null | Bool(b: bool) | Int(n: int) | Text(s: string) | List(items: seq<Value>)

  /** What stands on the right of a lookup: a Python value, or an `F` column. */
  datatype Operand = Literal(value: Value) | Column(name: string)

  datatype Error = NoSuchColumn(name: string) | UnknownOperator(op: string) | BadOperand(op: string)

  datatype Node =
    | Cmp(left: string, op: string, right: Operand)
    | Kwargs(items: seq<(string, Operand)>)
    | And(left_: Node, right_: Node)
    | Or(left_: Node, right_: Node)
    | Not(child: Node)

  datatype Relation = Eq | Ne | Gt | Ge | Lt | Le

  /** The entries of the operator table. */
  datatype Op = Relating(relation: Relation) | Among | Containing | ContainingFolded | Starting | Ending | Nullness

  datatype Sql =
    | True
    | IsNull(column: string)
    | IsNotNull(column: string)
    | Compare(column: string, relation: Relation, rhs: Operand)
    | In(column: string, values: seq<Value>)
    | Contains(column: string, part: string)
    | StartsWith(column: string, part: string)
    | EndsWith(column: string, part: string)
    | ILike(column: string, pattern: string)
    | AndAlso(l: Sql, r: Sql)
    | OrElse(l: Sql, r: Sql)
    | Negated(e: Sql)

  // ------------------------------------------------------------- compilation

  predicate SeparatorAt(key: string, i: nat) {
    i + 2 <= |key| && key[i] == '_' && key[i + 1] == '_'
  }

  /** A keyword split at its first double underscore. */
  function Partition(key: string): (r: (string, string))
    ensures (r == (key, "") && forall i: nat :: !SeparatorAt(key, i)) ||
            (key == r.0 + "__" + r.1 && forall i: nat | i < |r.0| :: !SeparatorAt(key, i))
  {
    if |key| < 2 then (key, "")
    else if SeparatorAt(key, 0) then
      assert key == "__" + key[2..];
      ("", key[2..])
    else
      var (field, op) := Partition(key[1..]);
      assert forall i: nat | i > 0 :: SeparatorAt(key, i) <==> SeparatorAt(key[1..], i - 1);
      assert key == [key[0]] + key[1..];
      ([key[0]] + field, op)
  }

  function Truthy(v: Value): bool {
    match v
    case Null => false
    case Bool(b) => b
    case Int(n) => n != 0
    case Text(s) => s != ""
    case List(items) => items != []
  }

  /** `tuple(v)`: a list's items, a string's characters. */
  function Iterated(v: Operand): Option<seq<Value>> {
    match v
    case Literal(List(items)) => Some(items)
    case Literal(Text(s)) => Some(seq(|s|, i requires 0 <= i < |s| => Text([s[i]])))
    case _ => None
  }

  function IsText(v: Operand): bool {
    v.Literal? && v.value.Text?
  }

  /** `None` and booleans have no order, and lists are no column values. */
  predicate Relatable(relation: Relation, v: Operand) {
    v.Literal? ==> !v.value.List? && (relation.Eq? || relation.Ne? || !(v.value.Null? || v.value.Bool?))
  }

  /** The condition of an operator, if its operand is one it takes. */
  function Condition(column: string, op: Op, v: Operand): Option<Sql> {
    match op
    case Relating(relation) =>
      if v == Literal(Null) && relation.Eq? then Some(IsNull(column))
      else if v == Literal(Null) && relation.Ne? then Some(IsNotNull(column))
      else if Relatable(relation, v) then Some(Compare(column, relation, v))
      else None
    case Among => if Iterated(v).Some? then Some(In(column, Iterated(v).value)) else None
    case Nullness => Some(if v.Column? || Truthy(v.value) then IsNull(column) else IsNotNull(column))
    case Containing => if IsText(v) then Some(Contains(column, v.value.s)) else None
    case ContainingFolded =>
      if IsText(v) then Some(ILike(column, "%" + EscapeLike(v.value.s) + "%")) else None
    case Starting => if IsText(v) then Some(StartsWith(column, v.value.s)) else None
    case Ending => if IsText(v) then Some(EndsWith(column, v.value.s)) else None
  }

  /** The operator table. */
  function Operator(op: string): Option<Op> {
    match op
    case "eq" => Some(Relating(Eq))
    case "ne" => Some(Relating(Ne))
    case "gt" => Some(Relating(Gt))
    case "ge" => Some(Relating(Ge))
    case "lt" => Some(Relating(Lt))
    case "le" => Some(Relating(Le))
    case "in" => Some(Among)
    case "contains" => Some(Containing)
    case "icontains" => Some(ContainingFolded)
    case "startswith" => Some(Starting)
    case "endswith" => Some(Ending)
    case "isnull" => Some(Nullness)
    case _ => None
  }

  function Apply(column: string, op: string, v: Operand): Result<Sql, Error> {
    match Operator(op)
    case None => Err(UnknownOperator(op))
    case Some(handler) =>
      match Condition(column, handler, v)
      case None => Err(BadOperand(op))
      case Some(e) => Ok(e)
  }

  /** One lookup, whichever way it was written. */
  datatype Lookup = Lookup(field: string, op: string, operand: Operand)

  function LookupOf(item: (string, Operand)): Lookup {
    var (field, op) := Partition(item.0);
    Lookup(field, if op == "" then "eq" else op, item.1)
  }

  function Clause(k: Lookup, columns: set<string>): Result<Sql, Error> {
    if k.field !in columns then Err(NoSuchColumn(k.field))
    else if k.operand.Column? && k.operand.name !in columns then Err(NoSuchColumn(k.operand.name))
    else Apply(k.field, k.op, k.operand)
  }

  function Appended(cs: Result<seq<Sql>, Error>, c: Result<Sql, Error>): Result<seq<Sql>, Error> {
    if cs.Err? then cs else if c.Err? then Err(c.error) else Ok(cs.value + [c.value])
  }

  function Clauses(items: seq<(string, Operand)>, columns: set<string>): (r: Result<seq<Sql>, Error>)
    ensures r.Ok? ==> |r.value| == |items|
  {
    if items == [] then Ok([])
    else Appended(Clauses(items[..|items| - 1], columns), Clause(LookupOf(items[|items| - 1]), columns))
  }

  /** `and_(*clauses)`, or a tautology for none. */
  function Joined(cs: seq<Sql>): Sql {
    if cs == [] then True
    else if |cs| == 1 then cs[0]
    else AndAlso(Joined(cs[..|cs| - 1]), cs[|cs| - 1])
  }

  function Both(l: Result<Sql, Error>, r: Result<Sql, Error>, f: (Sql, Sql) -> Sql): Result<Sql, Error> {
    if l.Err? then l else if r.Err? then r else Ok(f(l.value, r.value))
  }

  function Compile(n: Node, columns: set<string>): Result<Sql, Error> {
    match n
    case Cmp(left, op, right) => Clause(Lookup(left, op, right), columns)
    case Kwargs(items) =>
      (match Clauses(items, columns)
       case Err(e) => Err(e)
       case Ok(cs) => Ok(Joined(cs)))
    case And(l, r) => Both(Compile(l, columns), Compile(r, columns), (x, y) => AndAlso(x, y))
    case Or(l, r) => Both(Compile(l, columns), Compile(r, columns), (x, y) => OrElse(x, y))
    case Not(c) =>
      (match Compile(c, columns)
       case Err(e) => Err(e)
       case Ok(x) => Ok(Negated(x)))
  }

  lemma {:induction false} ClausesStopAtError(items: seq<(string, Operand)>, columns: set<string>, i: nat)
    requires i < |items| && Clauses(items[..i], columns).Ok?
    requires Clause(LookupOf(items[i]), columns).Err?
    ensures Clauses(items, columns) == Err(Clause(LookupOf(items[i]), columns).error)
    decreases |items|
  {
    var last := |items| - 1;
    if i < last {
      assert items[..last][..i] == items[..i];
      ClausesStopAtError(items[..last], columns, i);
    } else {
      assert items[..i] == items[..last];
    }
  }

  /** Keyword compilation as the loop it is. */
  method CompileKwargs(items: seq<(string, Operand)>, columns: set<string>) returns (r: Result<Sql, Error>)
    ensures r == Compile(Kwargs(items), columns)
  {
    var clauses: seq<Sql> := [];
    for i := 0 to |items|
      invariant Clauses(items[..i], columns) == Ok(clauses)
    {
      var (rawKey, value) := items[i];
      var (field, op) := Partition(rawKey);
      if field !in columns {
        ClausesStopAtError(items, columns, i);
        return Err(NoSuchColumn(field));
      }
      if value.Column? && value.name !in columns {
        ClausesStopAtError(items, columns, i);
        return Err(NoSuchColumn(value.name));
      }
      var clause := Apply(field, if op == "" then "eq" else op, value);
      if clause.Err? {
        ClausesStopAtError(items, columns, i);
        return Err(clause.error);
      }
      clauses := clauses + [clause.value];
      assert items[..i + 1][..i] == items[..i];
    }
    assert items[..|items|] == items;
    if clauses == [] {
      return Ok(True);
    }
    if |clauses| == 1 {
      return Ok(clauses[0]);
    }
    return Ok(Joined(clauses));
  }
}
