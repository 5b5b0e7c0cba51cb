/**
 The decode language of an ISA description, the C++ switch statements it is compiled to, and
 what each of them means.
 */
module DecodeSpec {

  datatype Option<+T> = None | Some(value: T)

  // ---------------------------------------------------------------- source

  // An instruction, with an explicit format or the one of the enclosing format block.
  datatype Inst = Inst(format: Option<string>, name: string)

  datatype Label = Cases(values: seq<int>) | Default

  datatype Stmt =
    | FormatBlock(format: string, body: Stmts)
    | Nested(tag: Label, block: Block)
    | Leaf(tag: Label, inst: Inst)

  datatype Stmts = One(stmt: Stmt) | More(stmt: Stmt, rest: Stmts)

  datatype Block = Block(field: string, fallback: Option<Inst>, body: Stmts)

  // An instruction whose format is settled.
  datatype Op = Op(format: string, name: string)

  // What a switch looks for: a value, or else the default.
  datatype Key = Value(v: int) | Otherwise

  predicate Matches(l: Label, key: Key) {
    match (l, key)
    case (Cases(vs), Value(v)) => v in vs
    case (Default, Otherwise) => true
    case _ => false
  }

  function Resolve(formats: set<string>, i: Inst, fmt: Option<string>): Option<Op> {
    match i.format
    case Some(f) => if f in formats then Some(Op(f, i.name)) else None
    case None => if fmt.Some? then Some(Op(fmt.value, i.name)) else None
  }

  // What a list of statements has under a key; the instruction is None if it has no format.
  datatype Found = NotHere | Here(op: Option<Op>)

  // Lexical scoping: fmt and dflt are the format and default instruction in force.
  function FindStmts(formats: set<string>, s: Stmts, key: Key, fmt: Option<string>, dflt: Option<Op>,
                     env: string -> int): Found
  {
    match s
    case One(st) => FindStmt(formats, st, key, fmt, dflt, env)
    case More(st, rest) =>
      var here := FindStmt(formats, st, key, fmt, dflt, env);
      if here.Here? then here else FindStmts(formats, rest, key, fmt, dflt, env)
  }

  function FindStmt(formats: set<string>, st: Stmt, key: Key, fmt: Option<string>, dflt: Option<Op>,
                    env: string -> int): Found
  {
    match st
    case FormatBlock(f, body) => FindStmts(formats, body, key, Some(f), dflt, env)
    case Nested(l, b) => if Matches(l, key) then Here(Meaning(formats, b, fmt, dflt, env)) else NotHere
    case Leaf(l, i) => if Matches(l, key) then Here(Resolve(formats, i, fmt)) else NotHere
  }

  // The default in force inside a block.
  function Fallback(formats: set<string>, own: Option<Inst>, fmt: Option<string>, dflt: Option<Op>): Option<Op> {
    match own
    case Some(i) => Resolve(formats, i, fmt)
    case None => dflt
  }

  /** The instruction a decode block selects, given the value of every field of a word. */
  function Meaning(formats: set<string>, b: Block, fmt: Option<string>, dflt: Option<Op>,
                   env: string -> int): Option<Op>
  {
    var d := Fallback(formats, b.fallback, fmt, dflt);
    match FindStmts(formats, b.body, Value(env(b.field)), fmt, d, env)
    case Here(op) => op
    case NotHere =>
      match FindStmts(formats, b.body, Otherwise, fmt, d, env)
      case Here(op) => op
      case NotHere => d
  }

  // ---------------------------------------------------------------- target

  // A sequence of C++ tokens, each with the code that follows it.
  datatype Code =
    | Nil
    | Case(v: int, rest: Code)
    | DefaultCase(rest: Code)
    | Run(op: Op, rest: Code)
    | Break(rest: Code)
    | Switch(field: string, body: Code, rest: Code)

  function Append(a: Code, b: Code): Code {
    match a
    case Nil => b
    case Case(v, r) => Case(v, Append(r, b))
    case DefaultCase(r) => DefaultCase(Append(r, b))
    case Run(op, r) => Run(op, Append(r, b))
    case Break(r) => Break(Append(r, b))
    case Switch(f, body, r) => Switch(f, body, Append(r, b))
  }

  function Size(c: Code): nat {
    match c
    case Nil => 0
    case Case(_, r) => 1 + Size(r)
    case DefaultCase(r) => 1 + Size(r)
    case Run(_, r) => 1 + Size(r)
    case Break(r) => 1 + Size(r)
    case Switch(_, body, r) => 1 + Size(body) + Size(r)
  }

  // Where a jump to the label for a key lands; labels of inner switches do not count.
  function From(c: Code, key: Key): (r: Option<Code>)
    ensures r.Some? ==> Size(r.value) < Size(c)
  {
    match c
    case Nil => None
    case Case(v, r) => if key == Value(v) then Some(r) else From(r, key)
    case DefaultCase(r) => if key == Otherwise then Some(r) else From(r, key)
    case Run(_, r) => From(r, key)
    case Break(r) => From(r, key)
    case Switch(_, _, r) => From(r, key)
  }

  datatype How = Fell | Broke | Returned

  // The instructions executed, and how control left.
  datatype Result = Result(trace: seq<Op>, how: How)

  // One thing after another: the second happens only if control falls out of the first.
  function Then(x: Result, y: Result): Result {
    if x.how == Fell then Result(x.trace + y.trace, y.how) else x
  }

  // A break leaves the innermost switch only.
  function Left(inner: Result): Result {
    if inner.how == Broke then Result(inner.trace, Fell) else inner
  }

  // ret says which instructions' code returns from the decoder.
  function Exec(c: Code, env: string -> int, ret: Op -> bool): Result
    decreases Size(c), 0
  {
    match c
    case Nil => Result([], Fell)
    case Case(_, r) => Exec(r, env, ret)
    case DefaultCase(r) => Exec(r, env, ret)
    case Run(op, r) => Then(Result([op], if ret(op) then Returned else Fell), Exec(r, env, ret))
    case Break(_) => Result([], Broke)
    case Switch(f, body, r) => Then(Left(Enter(body, env(f), env, ret)), Exec(r, env, ret))
  }

  // Execute the body of a switch on v: jump to its case, or else to default, or else nowhere.
  function Enter(body: Code, v: int, env: string -> int, ret: Op -> bool): Result
    decreases Size(body), 1
  {
    match From(body, Value(v))
    case Some(c) => Exec(c, env, ret)
    case None =>
      match From(body, Otherwise)
      case Some(c) => Exec(c, env, ret)
      case None => Result([], Fell)
  }

  // ---------------------------------------------------------------- generated code

  // decls stands for the code that goes to the other output files.
  datatype Gen = Gen(code: Code, hasDefault: bool, decls: seq<Op>)

  function Plus(a: Gen, b: Gen): Gen {
    Gen(Append(a.code, b.code), a.hasDefault || b.hasDefault, a.decls + b.decls)
  }

  function Labelled(l: Label, c: Code): Code {
    match l
    case Default => DefaultCase(c)
    case Cases(vs) => CaseLabels(vs, c)
  }

  function CaseLabels(vs: seq<int>, c: Code): Code {
    if vs == [] then c else Case(vs[0], CaseLabels(vs[1..], c))
  }

  function LowerInst(formats: set<string>, i: Inst, fmt: Option<string>): Option<Gen> {
    match Resolve(formats, i, fmt)
    case None => None
    case Some(op) => Some(Gen(Run(op, Nil), false, [op]))
  }

  // The clause used when a block has no default of its own.
  function AsDefault(g: Gen): Gen {
    g.(code := DefaultCase(Append(g.code, Break(Nil))))
  }

  // Compilation with the format and the default clause in force; None is a reported error.
  function LowerStmts(formats: set<string>, s: Stmts, fmt: Option<string>, dflt: Option<Gen>): Option<Gen>
  {
    match s
    case One(st) => LowerStmt(formats, st, fmt, dflt)
    case More(st, rest) =>
      match (LowerStmt(formats, st, fmt, dflt), LowerStmts(formats, rest, fmt, dflt))
      case (Some(a), Some(b)) => if a.hasDefault && b.hasDefault then None else Some(Plus(a, b))
      case _ => None
  }

  function LowerStmt(formats: set<string>, st: Stmt, fmt: Option<string>, dflt: Option<Gen>): Option<Gen>
  {
    match st
    case FormatBlock(f, body) => if f in formats then LowerStmts(formats, body, Some(f), dflt) else None
    case Nested(l, b) =>
      (match LowerBlock(formats, b, fmt, dflt)
       case None => None
       case Some(g) => Some(Gen(Labelled(l, g.code), l.Default?, g.decls)))
    case Leaf(l, i) =>
      match LowerInst(formats, i, fmt)
      case None => None
      case Some(g) => Some(Gen(Labelled(l, Append(g.code, Break(Nil))), l.Default?, g.decls))
  }

  // The default clause in force inside a block; the outer None is an error.
  function LowerFallback(formats: set<string>, own: Option<Inst>, fmt: Option<string>, dflt: Option<Gen>)
    : Option<Option<Gen>>
  {
    match own
    case None => Some(dflt)
    case Some(i) =>
      match LowerInst(formats, i, fmt)
      case None => None
      case Some(g) => Some(Some(AsDefault(g)))
  }

  // Close a block: add the default clause unless there is one, and wrap it all in a switch.
  function Closed(field: string, body: Gen, d: Option<Gen>): Option<Gen> {
    if body.hasDefault then Some(body.(code := Switch(field, body.code, Nil)))
    else if d.None? then None
    else
      var g := Plus(body, d.value);
      Some(g.(code := Switch(field, g.code, Nil)))
  }

  function LowerBlock(formats: set<string>, b: Block, fmt: Option<string>, dflt: Option<Gen>): Option<Gen>
  {
    match LowerFallback(formats, b.fallback, fmt, dflt)
    case None => None
    case Some(d) =>
      match LowerStmts(formats, b.body, fmt, d)
      case None => None
      case Some(g) => Closed(b.field, g, d)
  }
}
