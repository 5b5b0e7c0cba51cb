/**
 The parser actions that compile decode blocks, with the stacks they keep.  The grammar rules run
 in the order in which the parser reduces them.
 */
module IsaParser {
  import opened DecodeSpec

  class Parser {
    // The format names that have been defined.
    const formats: set<string>
    // The innermost format and the innermost default clause are last; None is the initial
    // "no active format" and "no default".
    var formatStack: seq<Option<string>>
    var defaultStack: seq<Option<Gen>>

    constructor (formats: set<string>)
      ensures this.formats == formats && formatStack == [None] && defaultStack == [None]
    {
      this.formats := formats;
      formatStack, defaultStack := [None], [None];
    }

    ghost predicate Ready()
      reads this
    {
      formatStack != [] && defaultStack != []
    }

    function Format(): Option<string>
      reads this
      requires formatStack != []
    {
      formatStack[|formatStack| - 1]
    }

    function TopDefault(): Option<Gen>
      reads this
      requires defaultStack != []
    {
      defaultStack[|defaultStack| - 1]
    }

    // inst
    method DefineInst(i: Inst) returns (r: Option<Gen>)
      requires Ready()
      ensures r == LowerInst(formats, i, Format())
      ensures var f := if i.format.Some? then i.format else Format();
        && (r.Some? <==> f.Some? && (i.format.Some? ==> f.value in formats))
        && (r.Some? ==> r.value.code == Run(Op(f.value, i.name), Nil) && r.value.decls == [Op(f.value, i.name)])
    {
      match i.format
      case Some(f) =>
        if f !in formats {
          return None;
        }
        r := Some(Gen(Run(Op(f, i.name), Nil), false, [Op(f, i.name)]));
      case None =>
        var current := Format();
        if current.None? {
          return None;
        }
        r := Some(Gen(Run(Op(current.value, i.name), Nil), false, [Op(current.value, i.name)]));
    }

    // opt_default
    method OptDefault(d: Option<Inst>) returns (ok: bool)
      requires Ready()
      modifies this`defaultStack
      ensures ok ==> |defaultStack| == old(|defaultStack|) + 1 && defaultStack[..|defaultStack| - 1] == old(defaultStack)
      ensures var clause := LowerFallback(formats, d, Format(), old(TopDefault()));
              ok == clause.Some? && (ok ==> TopDefault() == clause.value)
    {
      match d
      case None =>
        defaultStack := defaultStack + [TopDefault()];
        ok := true;
      case Some(i) =>
        var g := DefineInst(i);
        if g.None? {
          return false;
        }
        defaultStack := defaultStack + [Some(AsDefault(g.value))];
        ok := true;
    }

    /** decode_block: the result is the lexically scoped compilation, and whenever compilation
        succeeds both stacks are back to what they were. */
    method DecodeBlock(b: Block) returns (r: Option<Gen>)
      requires Ready()
      modifies this
      ensures r == LowerBlock(formats, b, old(Format()), old(TopDefault()))
      ensures r.Some? ==> formatStack == old(formatStack) && defaultStack == old(defaultStack)
      decreases b
    {
      var ok := OptDefault(b.fallback);
      if !ok {
        return None;
      }
      var body := StmtList(b.body);
      if body.None? {
        return None;
      }
      // pop the default clause pushed above
      var d := TopDefault();
      defaultStack := defaultStack[..|defaultStack| - 1];
      var code := body.value;
      if !code.hasDefault {
        if d.None? {
          return None;
        }
        code := Plus(code, d.value);
      }
      r := Some(code.(code := Switch(b.field, code.code, Nil)));
    }

    // decode_stmt_list
    method StmtList(s: Stmts) returns (r: Option<Gen>)
      requires Ready()
      modifies this
      ensures r == LowerStmts(formats, s, old(Format()), old(TopDefault()))
      ensures r.Some? ==> formatStack == old(formatStack) && defaultStack == old(defaultStack)
      decreases s
    {
      var first := DecodeStmt(s.stmt);
      if first.None? || s.One? {
        return first;
      }
      var rest := StmtList(s.rest);
      if rest.None? {
        return None;
      }
      if first.value.hasDefault && rest.value.hasDefault {
        return None;
      }
      r := Some(Plus(first.value, rest.value));
    }

    // decode_stmt
    method DecodeStmt(st: Stmt) returns (r: Option<Gen>)
      requires Ready()
      modifies this
      ensures r == LowerStmt(formats, st, old(Format()), old(TopDefault()))
      ensures r.Some? ==> formatStack == old(formatStack) && defaultStack == old(defaultStack)
      decreases st
    {
      match st
      case FormatBlock(f, body) =>
        if f !in formats {
          return None;
        }
        formatStack := formatStack + [Some(f)];
        r := StmtList(body);
        if r.None? {
          return;
        }
        formatStack := formatStack[..|formatStack| - 1];
      case Nested(l, b) =>
        var g := DecodeBlock(b);
        if g.None? {
          return None;
        }
        r := Some(Gen(Labelled(l, g.value.code), l.Default?, g.value.decls));
      case Leaf(l, i) =>
        var g := DefineInst(i);
        if g.None? {
          return None;
        }
        r := Some(Gen(Labelled(l, Append(g.value.code, Break(Nil))), l.Default?, g.value.decls));
    }
  }
}
