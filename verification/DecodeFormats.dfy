/**
 Which format every instruction of the output has: the one written on it, or that of the innermost
 format block around it.  A walk over the source, which neither looks up formats nor generates code,
 lists the places of the instructions; the output has exactly these, in this order.
 */
module DecodeFormats {
  import opened DecodeSpec
  import opened DecodeTheorems

  // An instruction as it is written, and the innermost format block around it.
  datatype Place = Place(inst: Inst, around: Option<string>)

  predicate Wears(op: Op, p: Place) {
    && op.name == p.inst.name
    && (p.inst.format.Some? ==> op.format == p.inst.format.value)
    && (p.inst.format.None? ==> p.around == Some(op.format))
  }

  predicate AllWear(ops: seq<Op>, places: seq<Place>) {
    |ops| == |places| && forall k :: 0 <= k < |ops| ==> Wears(ops[k], places[k])
  }

  predicate HasDefault(s: Stmts) {
    match s
    case One(st) => IsDefault(st)
    case More(st, rest) => IsDefault(st) || HasDefault(rest)
  }

  predicate IsDefault(st: Stmt) {
    match st
    case FormatBlock(_, body) => HasDefault(body)
    case Nested(l, _) => l == Default
    case Leaf(l, _) => l == Default
  }

  // The places of a list of statements, inside a format block and with a default instruction.
  function Places(s: Stmts, around: Option<string>, dflt: Option<Place>): seq<Place> {
    match s
    case One(st) => PlacesIn(st, around, dflt)
    case More(st, rest) => PlacesIn(st, around, dflt) + Places(rest, around, dflt)
  }

  function PlacesIn(st: Stmt, around: Option<string>, dflt: Option<Place>): seq<Place> {
    match st
    case FormatBlock(f, body) => Places(body, Some(f), dflt)
    case Nested(_, b) => BlockPlaces(b, around, dflt)
    case Leaf(_, i) => [Place(i, around)]
  }

  // A block's own default instruction counts from there on; it is written out in each block that has no
  // default statement.
  function BlockPlaces(b: Block, around: Option<string>, dflt: Option<Place>): seq<Place> {
    var d := if b.fallback.Some? then Some(Place(b.fallback.value, around)) else dflt;
    Places(b.body, around, d) + if HasDefault(b.body) || d.None? then [] else [d.value]
  }

  /** An instruction with a format written on it has that one, whatever is around it. */
  lemma WrittenFormat(formats: set<string>, f: string, name: string, around: Option<string>, env: string -> int,
                      ret: Op -> bool)
    requires f in formats
    ensures var g := LowerInst(formats, Inst(Some(f), name), around);
      g.Some? && g.value.decls == [Op(f, name)] && Exec(g.value.code, env, ret).trace == [Op(f, name)]
  {
    assert Exec(Nil, env, ret).trace == [];
  }

  lemma InstWears(formats: set<string>, i: Inst, around: Option<string>, g: Gen)
    requires LowerInst(formats, i, around) == Some(g)
    ensures AllWear(g.decls, [Place(i, around)])
  {}

  lemma AllWearPlus(a: seq<Op>, p: seq<Place>, b: seq<Op>, q: seq<Place>)
    requires AllWear(a, p) && AllWear(b, q)
    ensures AllWear(a + b, p + q)
  {}

  // The default clause in force is that of the default instruction.
  ghost predicate ClauseWears(dflt: Option<Gen>, d: Option<Place>) {
    dflt.Some? == d.Some? && (d.Some? ==> AllWear(dflt.value.decls, [d.value]))
  }

  lemma {:induction false} StmtWears(formats: set<string>, st: Stmt, around: Option<string>, dflt: Option<Gen>,
                                     d: Option<Place>, g: Gen)
    requires ClauseWears(dflt, d) && LowerStmt(formats, st, around, dflt) == Some(g)
    ensures AllWear(g.decls, PlacesIn(st, around, d)) && g.hasDefault == IsDefault(st)
    decreases st
  {
    match st
    case FormatBlock(f, body) => StmtsWear(formats, body, Some(f), dflt, d, g);
    case Nested(_, b) => BlockWears(formats, b, around, dflt, d, LowerBlock(formats, b, around, dflt).value);
    case Leaf(_, i) => InstWears(formats, i, around, LowerInst(formats, i, around).value);
  }

  lemma {:induction false} StmtsWear(formats: set<string>, s: Stmts, around: Option<string>, dflt: Option<Gen>,
                                     d: Option<Place>, g: Gen)
    requires ClauseWears(dflt, d) && LowerStmts(formats, s, around, dflt) == Some(g)
    ensures AllWear(g.decls, Places(s, around, d)) && g.hasDefault == HasDefault(s)
    decreases s
  {
    match s
    case One(st) => StmtWears(formats, st, around, dflt, d, g);
    case More(st, rest) =>
      var a := LowerStmt(formats, st, around, dflt).value;
      var b := LowerStmts(formats, rest, around, dflt).value;
      StmtWears(formats, st, around, dflt, d, a);
      StmtsWear(formats, rest, around, dflt, d, b);
      AllWearPlus(a.decls, PlacesIn(st, around, d), b.decls, Places(rest, around, d));
  }

  lemma {:induction false} BlockWears(formats: set<string>, b: Block, around: Option<string>, dflt: Option<Gen>,
                                      d: Option<Place>, g: Gen)
    requires ClauseWears(dflt, d) && LowerBlock(formats, b, around, dflt) == Some(g)
    ensures AllWear(g.decls, BlockPlaces(b, around, d))
    decreases b
  {
    var clause := LowerFallback(formats, b.fallback, around, dflt).value;
    var d' := if b.fallback.Some? then Some(Place(b.fallback.value, around)) else d;
    if b.fallback.Some? {
      InstWears(formats, b.fallback.value, around, LowerInst(formats, b.fallback.value, around).value);
    }
    var body := LowerStmts(formats, b.body, around, clause).value;
    StmtsWear(formats, b.body, around, clause, d', body);
    if !body.hasDefault {
      AllWearPlus(body.decls, Places(b.body, around, d'), clause.value.decls, [d'.value]);
    }
  }

  /** For every source that compiles: the instructions in the decoder, and those of the other outputs, are
      in order those of the places of the source, each with the format written on it, or with that of
      the innermost format block if none is. */
  lemma EmittedFormats(formats: set<string>, b: Block, around: Option<string>, g: Gen)
    requires LowerBlock(formats, b, around, None) == Some(g)
    ensures AllWear(g.decls, BlockPlaces(b, around, None)) && AllWear(Emitted(g.code), BlockPlaces(b, around, None))
  {
    BlockWears(formats, b, around, None, None, g);
    SwitchesTotal(formats, b, around, g);
  }
}
