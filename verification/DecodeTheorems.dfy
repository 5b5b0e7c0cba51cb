/**
 What the compiled switches do, compared with the lexically scoped meaning of the source, for
 every source and every value of every field.
 */
module DecodeTheorems {
  import opened DecodeSpec

  // ---------------------------------------------------------------- code in sequence

  lemma AppendFrom(a: Code, b: Code, key: Key)
    ensures From(Append(a, b), key) ==
            if From(a, key).Some? then Some(Append(From(a, key).value, b)) else From(b, key)
  {}

  lemma ThenAssociative(x: Result, y: Result, z: Result)
    ensures Then(x, Then(y, z)) == Then(Then(x, y), z)
  {
    assert x.trace + (y.trace + z.trace) == (x.trace + y.trace) + z.trace;
  }

  lemma {:induction false} AppendExec(a: Code, b: Code, env: string -> int, ret: Op -> bool)
    ensures Exec(Append(a, b), env, ret) == Then(Exec(a, env, ret), Exec(b, env, ret))
  {
    match a
    case Nil => assert [] + Exec(b, env, ret).trace == Exec(b, env, ret).trace;
    case Case(_, r) => AppendExec(r, b, env, ret);
    case DefaultCase(r) => AppendExec(r, b, env, ret);
    case Run(op, r) =>
      AppendExec(r, b, env, ret);
      ThenAssociative(Result([op], if ret(op) then Returned else Fell), Exec(r, env, ret), Exec(b, env, ret));
    case Break(_) =>
    case Switch(f, body, r) =>
      AppendExec(r, b, env, ret);
      ThenAssociative(Left(Enter(body, env(f), env, ret)), Exec(r, env, ret), Exec(b, env, ret));
  }

  // A jump to one of several labels in a row runs the code behind them all.
  lemma {:induction false} CaseLabelsFrom(vs: seq<int>, c: Code, key: Key, env: string -> int, ret: Op -> bool)
    ensures Exec(CaseLabels(vs, c), env, ret) == Exec(c, env, ret)
    ensures if Matches(Cases(vs), key)
            then From(CaseLabels(vs, c), key).Some?
                 && Exec(From(CaseLabels(vs, c), key).value, env, ret) == Exec(c, env, ret)
            else From(CaseLabels(vs, c), key) == From(c, key)
  {
    if vs != [] {
      CaseLabelsFrom(vs[1..], c, key, env, ret);
    }
  }

  lemma LabelledFrom(l: Label, c: Code, key: Key, env: string -> int, ret: Op -> bool)
    ensures Exec(Labelled(l, c), env, ret) == Exec(c, env, ret)
    ensures if Matches(l, key)
            then From(Labelled(l, c), key).Some?
                 && Exec(From(Labelled(l, c), key).value, env, ret) == Exec(c, env, ret)
            else From(Labelled(l, c), key) == From(c, key)
  {
    if l.Cases? {
      CaseLabelsFrom(l.values, c, key, env, ret);
    }
  }

  // ---------------------------------------------------------------- where control goes afterwards

  // What happens behind the selected instruction if its code does not return: it leaves the
  // enclosing switch at once, it runs off the end of the statements, or it runs into others.
  datatype Ending = Leaves | RunsOff | RunsOn

  function EndStmts(formats: set<string>, s: Stmts, key: Key, fmt: Option<string>, d: Option<Op>,
                    env: string -> int): Ending
  {
    match s
    case One(st) => EndStmt(formats, st, key, fmt, d, env)
    case More(st, rest) =>
      if FindStmt(formats, st, key, fmt, d, env).Here? then
        var e := EndStmt(formats, st, key, fmt, d, env);
        if e == RunsOff then RunsOn else e
      else EndStmts(formats, rest, key, fmt, d, env)
  }

  function EndStmt(formats: set<string>, st: Stmt, key: Key, fmt: Option<string>, d: Option<Op>,
                   env: string -> int): Ending
  {
    match st
    case FormatBlock(f, body) => EndStmts(formats, body, key, Some(f), d, env)
    case Nested(_, b) => if Alone(formats, b, fmt, d, env) then RunsOff else RunsOn
    case Leaf(_, _) => Leaves
  }

  /** The selected instruction is not in a nested block that other code follows: every nested
      block on the way to it is the last statement of a block with a default of its own. */
  predicate Alone(formats: set<string>, b: Block, fmt: Option<string>, dflt: Option<Op>, env: string -> int)
  {
    var d := Fallback(formats, b.fallback, fmt, dflt);
    var v := Value(env(b.field));
    var own := FindStmts(formats, b.body, Otherwise, fmt, d, env).Here?;
    var e := if FindStmts(formats, b.body, v, fmt, d, env).Here? then EndStmts(formats, b.body, v, fmt, d, env)
             else if own then EndStmts(formats, b.body, Otherwise, fmt, d, env)
             else Leaves;
    e == Leaves || (e == RunsOff && own)
  }

  // ---------------------------------------------------------------- the main argument

  // m is executed first; if its code returns, nothing else is.
  predicate StmtResult(r: Result, m: Op, ret: Op -> bool, e: Ending) {
    if ret(m) then r == Result([m], Returned)
    else
      match e
      case Leaves => r == Result([m], Broke)
      case RunsOff => r == Result([m], Fell)
      case RunsOn => |r.trace| >= 2 && r.trace[0] == m
  }

  predicate BlockResult(r: Result, m: Op, ret: Op -> bool, alone: bool) {
    StmtResult(r, m, ret, if alone then RunsOff else RunsOn)
  }

  // The default clause on the stack is the one for the default instruction in force.
  predicate Clause(dflt: Option<Gen>, d: Option<Op>) {
    match (dflt, d)
    case (None, None) => true
    case (Some(g), Some(op)) => g.code == DefaultCase(Run(op, Break(Nil))) && !g.hasDefault && g.decls == [op]
    case _ => false
  }

  // The code behind the labels of one statement.
  lemma SegmentOk(l: Label, c: Code, key: Key, m: Op, e: Ending, env: string -> int, ret: Op -> bool)
    requires StmtResult(Exec(c, env, ret), m, ret, e) && From(c, key) == None
    ensures From(Labelled(l, c), key).Some? <==> Matches(l, key)
    ensures Matches(l, key) ==> StmtResult(Exec(From(Labelled(l, c), key).value, env, ret), m, ret, e)
    ensures Exec(Labelled(l, c), env, ret).trace != []
  {
    LabelledFrom(l, c, key, env, ret);
  }

  lemma {:induction false} StmtOk(formats: set<string>, st: Stmt, key: Key, fmt: Option<string>,
      dflt: Option<Gen>, d: Option<Op>, env: string -> int, ret: Op -> bool, g: Gen)
    requires Clause(dflt, d) && LowerStmt(formats, st, fmt, dflt) == Some(g)
    ensures var f := FindStmt(formats, st, key, fmt, d, env);
      && (From(g.code, key).Some? <==> f.Here?)
      && (f.Here? ==> f.op.Some? && StmtResult(Exec(From(g.code, key).value, env, ret), f.op.value, ret,
                                               EndStmt(formats, st, key, fmt, d, env)))
    ensures Exec(g.code, env, ret).trace != []
    decreases st
  {
    match st
    case FormatBlock(f, body) => StmtsOk(formats, body, key, Some(f), dflt, d, env, ret, g);
    case Nested(l, b) =>
      var inner := LowerBlock(formats, b, fmt, dflt).value;
      BlockOk(formats, b, fmt, dflt, d, env, ret, inner);
      var m := Meaning(formats, b, fmt, d, env).value;
      SegmentOk(l, inner.code, key, m, if Alone(formats, b, fmt, d, env) then RunsOff else RunsOn, env, ret);
    case Leaf(l, i) =>
      var op := Resolve(formats, i, fmt).value;
      var c := Run(op, Break(Nil));
      assert Append(Run(op, Nil), Break(Nil)) == c;
      assert Exec(Break(Nil), env, ret) == Result([], Broke);
      assert [op] + [] == [op];
      SegmentOk(l, c, key, op, Leaves, env, ret);
  }

  lemma {:induction false} StmtsOk(formats: set<string>, s: Stmts, key: Key, fmt: Option<string>,
      dflt: Option<Gen>, d: Option<Op>, env: string -> int, ret: Op -> bool, g: Gen)
    requires Clause(dflt, d) && LowerStmts(formats, s, fmt, dflt) == Some(g)
    ensures var f := FindStmts(formats, s, key, fmt, d, env);
      && (From(g.code, key).Some? <==> f.Here?)
      && (f.Here? ==> f.op.Some? && StmtResult(Exec(From(g.code, key).value, env, ret), f.op.value, ret,
                                               EndStmts(formats, s, key, fmt, d, env)))
    ensures Exec(g.code, env, ret).trace != []
    decreases s
  {
    match s
    case One(st) => StmtOk(formats, st, key, fmt, dflt, d, env, ret, g);
    case More(st, rest) =>
      var a := LowerStmt(formats, st, fmt, dflt).value;
      var b := LowerStmts(formats, rest, fmt, dflt).value;
      StmtOk(formats, st, key, fmt, dflt, d, env, ret, a);
      StmtsOk(formats, rest, key, fmt, dflt, d, env, ret, b);
      Followed(a.code, b.code, key, env, ret);
  }

  // Code that follows changes nothing unless control runs off the end.
  lemma Followed(a: Code, b: Code, key: Key, env: string -> int, ret: Op -> bool)
    ensures From(Append(a, b), key).Some? <==> From(a, key).Some? || From(b, key).Some?
    ensures From(a, key).Some? ==>
      Exec(From(Append(a, b), key).value, env, ret) == Then(Exec(From(a, key).value, env, ret), Exec(b, env, ret))
    ensures From(a, key).None? ==> From(Append(a, b), key) == From(b, key)
    ensures Exec(Append(a, b), env, ret) == Then(Exec(a, env, ret), Exec(b, env, ret))
  {
    AppendFrom(a, b, key);
    AppendExec(a, b, env, ret);
    if From(a, key).Some? {
      AppendExec(From(a, key).value, b, env, ret);
    }
  }

  // The flag kept with the generated code says whether there is a default label.
  lemma {:induction false} FlagStmts(formats: set<string>, s: Stmts, fmt: Option<string>, dflt: Option<Gen>,
                                     d: Option<Op>, env: string -> int, g: Gen)
    requires LowerStmts(formats, s, fmt, dflt) == Some(g)
    ensures g.hasDefault == FindStmts(formats, s, Otherwise, fmt, d, env).Here?
    decreases s
  {
    match s
    case One(st) => FlagStmt(formats, st, fmt, dflt, d, env, g);
    case More(st, rest) =>
      FlagStmt(formats, st, fmt, dflt, d, env, LowerStmt(formats, st, fmt, dflt).value);
      FlagStmts(formats, rest, fmt, dflt, d, env, LowerStmts(formats, rest, fmt, dflt).value);
  }

  lemma {:induction false} FlagStmt(formats: set<string>, st: Stmt, fmt: Option<string>, dflt: Option<Gen>,
                                    d: Option<Op>, env: string -> int, g: Gen)
    requires LowerStmt(formats, st, fmt, dflt) == Some(g)
    ensures g.hasDefault == FindStmt(formats, st, Otherwise, fmt, d, env).Here?
    decreases st
  {
    if st.FormatBlock? {
      FlagStmts(formats, st.body, Some(st.format), dflt, d, env, g);
    }
  }

  lemma ClauseInside(formats: set<string>, b: Block, fmt: Option<string>, dflt: Option<Gen>, d: Option<Op>)
    requires Clause(dflt, d) && LowerFallback(formats, b.fallback, fmt, dflt).Some?
    ensures Clause(LowerFallback(formats, b.fallback, fmt, dflt).value, Fallback(formats, b.fallback, fmt, d))
  {
    if b.fallback.Some? {
      var op := Resolve(formats, b.fallback.value, fmt).value;
      assert Append(Run(op, Nil), Break(Nil)) == Run(op, Break(Nil));
    }
  }

  lemma {:induction false} BlockOk(formats: set<string>, b: Block, fmt: Option<string>, dflt: Option<Gen>,
      d: Option<Op>, env: string -> int, ret: Op -> bool, g: Gen)
    requires Clause(dflt, d) && LowerBlock(formats, b, fmt, dflt) == Some(g)
    ensures g.code.Switch? && g.code.rest == Nil
    ensures var m := Meaning(formats, b, fmt, d, env);
      m.Some? && BlockResult(Exec(g.code, env, ret), m.value, ret, Alone(formats, b, fmt, d, env))
    decreases b
  {
    var clause := LowerFallback(formats, b.fallback, fmt, dflt).value;
    var d' := Fallback(formats, b.fallback, fmt, d);
    var body := LowerStmts(formats, b.body, fmt, clause).value;
    var v := env(b.field);
    ClauseInside(formats, b, fmt, dflt, d);
    StmtsOk(formats, b.body, Value(v), fmt, clause, d', env, ret, body);
    StmtsOk(formats, b.body, Otherwise, fmt, clause, d', env, ret, body);
    FlagStmts(formats, b.body, fmt, clause, d', env, body);
    var atValue := FindStmts(formats, b.body, Value(v), fmt, d', env);
    var atDefault := FindStmts(formats, b.body, Otherwise, fmt, d', env);
    Entered(body.code, g.code.body, v,
            if atValue.Here? then Some((atValue.op.value, EndStmts(formats, b.body, Value(v), fmt, d', env))) else None,
            if atDefault.Here? then Some((atDefault.op.value, EndStmts(formats, b.body, Otherwise, fmt, d', env))) else None,
            d', env, ret);
    assert Exec(g.code, env, ret) == Left(Enter(g.code.body, v, env, ret)) by {
      var inner := Left(Enter(g.code.body, v, env, ret));
      assert inner.trace + [] == inner.trace;
    }
  }

  // Enter a whole switch, knowing what the statements do for the value and for the default.
  lemma Entered(c: Code, whole: Code, v: int, atValue: Option<(Op, Ending)>, atDefault: Option<(Op, Ending)>,
                d: Option<Op>, env: string -> int, ret: Op -> bool)
    requires Reaches(c, Value(v), atValue, env, ret) && Reaches(c, Otherwise, atDefault, env, ret)
    requires atDefault.None? ==> d.Some?
    requires whole == if atDefault.Some? then c else Append(c, DefaultCase(Run(d.value, Break(Nil))))
    ensures
      var (m, e) := if atValue.Some? then atValue.value else if atDefault.Some? then atDefault.value else (d.value, Leaves);
      BlockResult(Left(Enter(whole, v, env, ret)), m, ret, e == Leaves || (e == RunsOff && atDefault.Some?))
  {
    if atDefault.None? {
      DefaultAdded(c, DefaultCase(Run(d.value, Break(Nil))), d.value, v, env, ret);
    }
  }

  predicate Reaches(c: Code, key: Key, at: Option<(Op, Ending)>, env: string -> int, ret: Op -> bool) {
    match From(c, key)
    case None => at.None?
    case Some(tail) => at.Some? && StmtResult(Exec(tail, env, ret), at.value.0, ret, at.value.1)
  }

  // A default clause added at the end is entered if nothing matches, and run into otherwise
  // exactly when control runs off the end of what precedes it.
  lemma DefaultAdded(c: Code, clause: Code, op: Op, v: int, env: string -> int, ret: Op -> bool)
    requires clause == DefaultCase(Run(op, Break(Nil))) && From(c, Otherwise) == None
    ensures var after := Exec(Run(op, Break(Nil)), env, ret);
      && after.trace == [op] && after.how == (if ret(op) then Returned else Broke)
      && Enter(Append(c, clause), v, env, ret) ==
         if From(c, Value(v)).Some? then Then(Exec(From(c, Value(v)).value, env, ret), after) else after
  {
    Followed(c, clause, Value(v), env, ret);
    Followed(c, clause, Otherwise, env, ret);
    var body := Run(op, Break(Nil));
    assert From(body, Value(v)) == From(Break(Nil), Value(v)) == From(Nil, Value(v)) == None;
    assert From(clause, Otherwise) == Some(body);
    assert Exec(Break(Nil), env, ret) == Result([], Broke);
    assert [op] + [] == [op];
  }

  /** For every source that compiles without a surrounding default, and every value of every
      field: the switches first execute exactly the instruction the source means.  If the code of
      that instruction returns, nothing else is executed; if it does not, nothing else is
      executed if and only if no other code follows a nested block on the way to it. */
  lemma SwitchesMeanSource(formats: set<string>, b: Block, fmt: Option<string>, env: string -> int,
                           ret: Op -> bool, g: Gen)
    requires LowerBlock(formats, b, fmt, None) == Some(g)
    ensures Meaning(formats, b, fmt, None, env).Some?
    ensures var m := Meaning(formats, b, fmt, None, env).value;
      && Exec(g.code, env, ret).trace != [] && Exec(g.code, env, ret).trace[0] == m
      && (ret(m) ==> Exec(g.code, env, ret) == Result([m], Returned))
      && (Exec(g.code, env, ret).trace == [m] <==> ret(m) || Alone(formats, b, fmt, None, env))
  {
    BlockOk(formats, b, fmt, None, None, env, ret, g);
  }

  // ---------------------------------------------------------------- shape of the code

  // The default labels of one switch; those of inner switches do not count.
  function DefaultLabels(c: Code): nat {
    match c
    case Nil => 0
    case Case(_, r) => DefaultLabels(r)
    case DefaultCase(r) => 1 + DefaultLabels(r)
    case Run(_, r) => DefaultLabels(r)
    case Break(r) => DefaultLabels(r)
    case Switch(_, _, r) => DefaultLabels(r)
  }

  // Every switch, however deep, has exactly one default label.
  predicate OneDefault(c: Code) {
    match c
    case Nil => true
    case Case(_, r) => OneDefault(r)
    case DefaultCase(r) => OneDefault(r)
    case Run(_, r) => OneDefault(r)
    case Break(r) => OneDefault(r)
    case Switch(_, body, r) => DefaultLabels(body) == 1 && OneDefault(body) && OneDefault(r)
  }

  // The instructions in the order of the text.
  function Emitted(c: Code): seq<Op> {
    match c
    case Nil => []
    case Case(_, r) => Emitted(r)
    case DefaultCase(r) => Emitted(r)
    case Run(op, r) => [op] + Emitted(r)
    case Break(r) => Emitted(r)
    case Switch(_, body, r) => Emitted(body) + Emitted(r)
  }

  lemma AppendShape(a: Code, b: Code)
    ensures DefaultLabels(Append(a, b)) == DefaultLabels(a) + DefaultLabels(b)
    ensures OneDefault(Append(a, b)) == (OneDefault(a) && OneDefault(b))
  {}

  lemma {:induction false} AppendEmitted(a: Code, b: Code)
    ensures Emitted(Append(a, b)) == Emitted(a) + Emitted(b)
  {
    match a
    case Nil =>
    case Case(_, r) => AppendEmitted(r, b);
    case DefaultCase(r) => AppendEmitted(r, b);
    case Run(op, r) => AppendEmitted(r, b);
    case Break(r) => AppendEmitted(r, b);
    case Switch(_, body, r) => AppendEmitted(r, b);
  }

  lemma {:induction vs} CaseLabelsShape(vs: seq<int>, c: Code)
    ensures DefaultLabels(CaseLabels(vs, c)) == DefaultLabels(c)
    ensures OneDefault(CaseLabels(vs, c)) == OneDefault(c)
    ensures Emitted(CaseLabels(vs, c)) == Emitted(c)
  {}

  // The flag counts the default labels, and the other output has one entry per instruction.
  ghost predicate Shaped(g: Gen) {
    && DefaultLabels(g.code) == (if g.hasDefault then 1 else 0)
    && OneDefault(g.code)
    && Emitted(g.code) == g.decls
  }

  lemma PlusShaped(a: Gen, b: Gen)
    requires Shaped(a) && Shaped(b) && !(a.hasDefault && b.hasDefault)
    ensures Shaped(Plus(a, b))
  {
    AppendShape(a.code, b.code);
    AppendEmitted(a.code, b.code);
  }

  lemma LeafShaped(l: Label, op: Op)
    ensures Shaped(Gen(Labelled(l, Append(Run(op, Nil), Break(Nil))), l.Default?, [op]))
  {
    var c := Run(op, Break(Nil));
    assert Append(Run(op, Nil), Break(Nil)) == c;
    assert Emitted(Break(Nil)) == [];
    assert DefaultLabels(c) == DefaultLabels(Break(Nil)) == 0;
    assert OneDefault(c) == OneDefault(Break(Nil));
    if l.Cases? {
      CaseLabelsShape(l.values, c);
    }
  }

  lemma {:induction false} StmtShaped(formats: set<string>, st: Stmt, fmt: Option<string>, dflt: Option<Gen>,
                                      d: Option<Op>, g: Gen)
    requires Clause(dflt, d) && LowerStmt(formats, st, fmt, dflt) == Some(g)
    ensures Shaped(g)
    decreases st
  {
    match st
    case FormatBlock(f, body) => StmtsShaped(formats, body, Some(f), dflt, d, g);
    case Nested(l, b) =>
      var inner := LowerBlock(formats, b, fmt, dflt).value;
      BlockShaped(formats, b, fmt, dflt, d, inner);
      assert DefaultLabels(inner.code) == DefaultLabels(Nil) == 0;
      if l.Cases? {
        CaseLabelsShape(l.values, inner.code);
      }
    case Leaf(l, i) => LeafShaped(l, Resolve(formats, i, fmt).value);
  }

  lemma {:induction false} StmtsShaped(formats: set<string>, s: Stmts, fmt: Option<string>, dflt: Option<Gen>,
                                       d: Option<Op>, g: Gen)
    requires Clause(dflt, d) && LowerStmts(formats, s, fmt, dflt) == Some(g)
    ensures Shaped(g)
    decreases s
  {
    match s
    case One(st) => StmtShaped(formats, st, fmt, dflt, d, g);
    case More(st, rest) =>
      var a := LowerStmt(formats, st, fmt, dflt).value;
      var b := LowerStmts(formats, rest, fmt, dflt).value;
      StmtShaped(formats, st, fmt, dflt, d, a);
      StmtsShaped(formats, rest, fmt, dflt, d, b);
      PlusShaped(a, b);
  }

  lemma {:induction false} BlockShaped(formats: set<string>, b: Block, fmt: Option<string>, dflt: Option<Gen>,
                                       d: Option<Op>, g: Gen)
    requires Clause(dflt, d) && LowerBlock(formats, b, fmt, dflt) == Some(g)
    ensures g.code.Switch? && g.code.rest == Nil && OneDefault(g.code) && Emitted(g.code) == g.decls
    decreases b
  {
    var clause := LowerFallback(formats, b.fallback, fmt, dflt).value;
    var d' := Fallback(formats, b.fallback, fmt, d);
    var body := LowerStmts(formats, b.body, fmt, clause).value;
    ClauseInside(formats, b, fmt, dflt, d);
    StmtsShaped(formats, b.body, fmt, clause, d', body);
    var inner := body;
    if !body.hasDefault {
      LeafShaped(Default, d'.value);
      assert Append(Run(d'.value, Nil), Break(Nil)) == Run(d'.value, Break(Nil));
      var c := clause.value;
      AppendShape(body.code, c.code);
      AppendEmitted(body.code, c.code);
      inner := Plus(body, c);
    }
    assert g.code == Switch(b.field, inner.code, Nil) && g.decls == inner.decls;
    assert Emitted(Nil) == [] && Emitted(inner.code) + [] == Emitted(inner.code);
  }

  /** Every switch that is emitted has exactly one default, and every instruction in the decoder
      has its code in the other outputs, in the same order. */
  lemma SwitchesTotal(formats: set<string>, b: Block, fmt: Option<string>, g: Gen)
    requires LowerBlock(formats, b, fmt, None) == Some(g)
    ensures OneDefault(g.code) && Emitted(g.code) == g.decls
  {
    BlockShaped(formats, b, fmt, None, None, g);
  }

  // ---------------------------------------------------------------- what compiles

  // The default statements of one block, through format blocks but not into nested blocks.
  function OwnDefaults(s: Stmts): nat {
    match s
    case One(st) => OwnDefault(st)
    case More(st, rest) => OwnDefault(st) + OwnDefaults(rest)
  }

  function OwnDefault(st: Stmt): nat {
    match st
    case FormatBlock(_, body) => OwnDefaults(body)
    case Nested(l, _) => if l.Default? then 1 else 0
    case Leaf(l, _) => if l.Default? then 1 else 0
  }

  // Every instruction has a format, every format exists, no block has two defaults, and every
  // block has a default or is inside one that names a default instruction.
  predicate WellFormed(formats: set<string>, b: Block, fmt: Option<string>, covered: bool) {
    var inside := covered || b.fallback.Some?;
    && (b.fallback.Some? ==> Resolve(formats, b.fallback.value, fmt).Some?)
    && OwnDefaults(b.body) <= 1
    && (OwnDefaults(b.body) == 1 || inside)
    && WellFormedStmts(formats, b.body, fmt, inside)
  }

  predicate WellFormedStmts(formats: set<string>, s: Stmts, fmt: Option<string>, covered: bool) {
    match s
    case One(st) => WellFormedStmt(formats, st, fmt, covered)
    case More(st, rest) => WellFormedStmt(formats, st, fmt, covered) && WellFormedStmts(formats, rest, fmt, covered)
  }

  predicate WellFormedStmt(formats: set<string>, st: Stmt, fmt: Option<string>, covered: bool) {
    match st
    case FormatBlock(f, body) => f in formats && WellFormedStmts(formats, body, Some(f), covered)
    case Nested(_, b) => WellFormed(formats, b, fmt, covered)
    case Leaf(_, i) => Resolve(formats, i, fmt).Some?
  }

  lemma {:induction false} StmtCompiles(formats: set<string>, st: Stmt, fmt: Option<string>, dflt: Option<Gen>)
    ensures var r := LowerStmt(formats, st, fmt, dflt);
      && (r.Some? <==> WellFormedStmt(formats, st, fmt, dflt.Some?) && OwnDefault(st) <= 1)
      && (r.Some? ==> r.value.hasDefault == (OwnDefault(st) == 1))
    decreases st
  {
    match st
    case FormatBlock(f, body) => StmtsCompile(formats, body, Some(f), dflt);
    case Nested(_, b) => CompilesIff(formats, b, fmt, dflt);
    case Leaf(_, _) =>
  }

  lemma {:induction false} StmtsCompile(formats: set<string>, s: Stmts, fmt: Option<string>, dflt: Option<Gen>)
    ensures var r := LowerStmts(formats, s, fmt, dflt);
      && (r.Some? <==> WellFormedStmts(formats, s, fmt, dflt.Some?) && OwnDefaults(s) <= 1)
      && (r.Some? ==> r.value.hasDefault == (OwnDefaults(s) == 1))
    decreases s
  {
    StmtCompiles(formats, s.stmt, fmt, dflt);
    if s.More? {
      StmtsCompile(formats, s.rest, fmt, dflt);
    }
  }

  /** Compilation reports an error exactly for the sources that are not well formed. */
  lemma {:induction false} CompilesIff(formats: set<string>, b: Block, fmt: Option<string>, dflt: Option<Gen>)
    ensures LowerBlock(formats, b, fmt, dflt).Some? <==> WellFormed(formats, b, fmt, dflt.Some?)
    decreases b
  {
    var clause := LowerFallback(formats, b.fallback, fmt, dflt);
    if clause.Some? {
      StmtsCompile(formats, b.body, fmt, clause.value);
    }
  }

  // ---------------------------------------------------------------- the missing break

  const Load := One(Leaf(Default, Inst(None, "load")))
  const Store := One(Leaf(Default, Inst(None, "store")))
  const ByMode := Block("MODE", None, Load)
  const ByOp := Block("OP", None, More(Nested(Cases([0]), ByMode), Store))

  lemma ByOpMeaning(env: string -> int)
    requires env("OP") == 0
    ensures Meaning({"F"}, ByOp, Some("F"), None, env) == Some(Op("F", "load"))
    ensures !Alone({"F"}, ByOp, Some("F"), None, env)
  {
    var formats, fmt := {"F"}, Some("F");
    assert FindStmts(formats, Load, Value(env("MODE")), fmt, None, env) == NotHere;
    assert FindStmts(formats, Load, Otherwise, fmt, None, env) == Here(Some(Op("F", "load")));
    assert Meaning(formats, ByMode, fmt, None, env) == Some(Op("F", "load"));
    var first := Nested(Cases([0]), ByMode);
    assert FindStmt(formats, first, Value(0), fmt, None, env) == Here(Some(Op("F", "load")));
    assert EndStmts(formats, ByOp.body, Value(0), fmt, None, env) == RunsOn;
  }

  lemma ByOpCompiles() returns (g: Gen)
    ensures LowerBlock({"F"}, ByOp, Some("F"), None) == Some(g)
  {
    var formats, fmt := {"F"}, Some("F");
    assert WellFormedStmts(formats, Load, fmt, false) && OwnDefaults(Load) == 1;
    assert WellFormed(formats, ByMode, fmt, false);
    assert WellFormedStmts(formats, Store, fmt, false) && OwnDefaults(Store) == 1;
    assert WellFormedStmts(formats, ByOp.body, fmt, false) && OwnDefaults(ByOp.body) == 1;
    CompilesIff(formats, ByOp, fmt, None);
    g := LowerBlock(formats, ByOp, fmt, None).value;
  }

  /** Without a return, a nested block that is not last runs into the next case: for OP = 0 the
      source means "load" alone, and the switches execute "load" and then something else. */
  lemma NestedBlockRunsOn(env: string -> int, ret: Op -> bool) returns (g: Gen)
    requires env("OP") == 0 && !ret(Op("F", "load"))
    ensures LowerBlock({"F"}, ByOp, Some("F"), None) == Some(g)
    ensures Meaning({"F"}, ByOp, Some("F"), None, env) == Some(Op("F", "load"))
    ensures Exec(g.code, env, ret).trace != [Op("F", "load")]
  {
    g := ByOpCompiles();
    ByOpMeaning(env);
    SwitchesMeanSource({"F"}, ByOp, Some("F"), env, ret, g);
  }
}
