/**
 Which case labels the switch of a decode block has: one for every value written on its statements, in
 their order, whether or not they stand in format blocks.
 */
module DecodeLabels {
  import opened DecodeSpec

  // The values written on the statements of a block; those of nested blocks do not count.
  function Written(s: Stmts): seq<int> {
    match s
    case One(st) => WrittenOn(st)
    case More(st, rest) => WrittenOn(st) + Written(rest)
  }

  function WrittenOn(st: Stmt): seq<int> {
    match st
    case FormatBlock(_, body) => Written(body)
    case Nested(l, _) => Values(l)
    case Leaf(l, _) => Values(l)
  }

  function Values(l: Label): seq<int> {
    match l
    case Cases(vs) => vs
    case Default => []
  }

  // The case labels of a switch body; those of inner switches do not count.
  function CaseValues(c: Code): seq<int> {
    match c
    case Nil => []
    case Case(v, r) => [v] + CaseValues(r)
    case DefaultCase(r) => CaseValues(r)
    case Run(_, r) => CaseValues(r)
    case Break(r) => CaseValues(r)
    case Switch(_, _, r) => CaseValues(r)
  }

  lemma {:induction false} ValuesAppend(a: Code, b: Code)
    ensures CaseValues(Append(a, b)) == CaseValues(a) + CaseValues(b)
  {
    match a
    case Nil => assert [] + CaseValues(b) == CaseValues(b);
    case Case(v, r) =>
      ValuesAppend(r, b);
      assert [v] + (CaseValues(r) + CaseValues(b)) == [v] + CaseValues(r) + CaseValues(b);
    case DefaultCase(r) => ValuesAppend(r, b);
    case Run(_, r) => ValuesAppend(r, b);
    case Break(r) => ValuesAppend(r, b);
    case Switch(_, _, r) => ValuesAppend(r, b);
  }

  lemma {:induction false} ValuesLabels(vs: seq<int>, c: Code)
    ensures CaseValues(CaseLabels(vs, c)) == vs + CaseValues(c)
  {
    if vs == [] {
      assert [] + CaseValues(c) == CaseValues(c);
    } else {
      ValuesLabels(vs[1..], c);
      assert [vs[0]] + (vs[1..] + CaseValues(c)) == vs + CaseValues(c);
    }
  }

  lemma ValuesLabelled(l: Label, c: Code)
    requires CaseValues(c) == []
    ensures CaseValues(Labelled(l, c)) == Values(l)
  {
    if l.Cases? {
      ValuesLabels(l.values, c);
      assert l.values + [] == l.values;
    }
  }

  lemma LeafValues(formats: set<string>, i: Inst, fmt: Option<string>, g: Gen)
    requires LowerInst(formats, i, fmt) == Some(g)
    ensures CaseValues(Append(g.code, Break(Nil))) == []
  {
    ValuesAppend(g.code, Break(Nil));
  }

  predicate NoCases(dflt: Option<Gen>) {
    dflt.Some? ==> CaseValues(dflt.value.code) == []
  }

  lemma {:induction false} StmtValues(formats: set<string>, st: Stmt, fmt: Option<string>, dflt: Option<Gen>, g: Gen)
    requires NoCases(dflt) && LowerStmt(formats, st, fmt, dflt) == Some(g)
    ensures CaseValues(g.code) == WrittenOn(st)
    decreases st
  {
    match st
    case FormatBlock(f, body) => StmtsValues(formats, body, Some(f), dflt, g);
    case Nested(l, b) =>
      var inner := LowerBlock(formats, b, fmt, dflt).value;
      SwitchCases(formats, b, fmt, dflt, inner);
      ValuesLabelled(l, inner.code);
    case Leaf(l, i) =>
      var inst := LowerInst(formats, i, fmt).value;
      LeafValues(formats, i, fmt, inst);
      ValuesLabelled(l, Append(inst.code, Break(Nil)));
  }

  lemma {:induction false} StmtsValues(formats: set<string>, s: Stmts, fmt: Option<string>, dflt: Option<Gen>, g: Gen)
    requires NoCases(dflt) && LowerStmts(formats, s, fmt, dflt) == Some(g)
    ensures CaseValues(g.code) == Written(s)
    decreases s
  {
    match s
    case One(st) => StmtValues(formats, st, fmt, dflt, g);
    case More(st, rest) =>
      var a, b := LowerStmt(formats, st, fmt, dflt).value, LowerStmts(formats, rest, fmt, dflt).value;
      StmtValues(formats, st, fmt, dflt, a);
      StmtsValues(formats, rest, fmt, dflt, b);
      ValuesAppend(a.code, b.code);
  }

  lemma FallbackValues(formats: set<string>, own: Option<Inst>, fmt: Option<string>, dflt: Option<Gen>,
                       d: Option<Gen>)
    requires NoCases(dflt) && LowerFallback(formats, own, fmt, dflt) == Some(d)
    ensures NoCases(d)
  {
    if own.Some? {
      LeafValues(formats, own.value, fmt, LowerInst(formats, own.value, fmt).value);
    }
  }

  /** The code of a block that compiles, at any depth, is one switch on its field, with a case label for
      every value written in it and no other. */
  lemma {:induction false} SwitchCases(formats: set<string>, b: Block, fmt: Option<string>, dflt: Option<Gen>, g: Gen)
    requires NoCases(dflt) && LowerBlock(formats, b, fmt, dflt) == Some(g)
    ensures g.code.Switch? && g.code.field == b.field && g.code.rest == Nil
    ensures CaseValues(g.code.body) == Written(b.body)
    decreases b
  {
    var d := LowerFallback(formats, b.fallback, fmt, dflt).value;
    FallbackValues(formats, b.fallback, fmt, dflt, d);
    var body := LowerStmts(formats, b.body, fmt, d).value;
    StmtsValues(formats, b.body, fmt, d, body);
    if !body.hasDefault {
      ValuesAppend(body.code, d.value.code);
      assert Written(b.body) + [] == Written(b.body);
    }
  }
}
