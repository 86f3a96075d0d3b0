/** Grammar and C value of `#if` expressions, and the soundness of the three-valued evaluator. */
module UnifdefSound {
  import opened UnifdefExpr

  /** Expressions the evaluator can read, with the parentheses the author wrote. */
  datatype Expr =
    | Bin(op: BinOp, l: Expr, r: Expr)
    | Not(e: Expr)
    | Paren(e: Expr)
    | Num(n: nat)
    | Defd(paren: bool, word: seq<Token>)
    | Sym(name: string)
    | Call(name: string, args: seq<Token>)

  /** A valuation of everything a line may mention. `odd` values the forms that C itself rejects. */
  datatype Env = Env(
    value: string -> int,
    isDefined: string -> bool,
    call: (string, seq<Token>) -> int,
    odd: seq<Token> -> int)

  /** The valuation agrees with the command line. */
  ghost predicate Consistent(env: Env, o: Options) {
    forall s :: s in o.syms ==>
      match o.syms[s]
      case Undefined => !env.isDefined(s) && env.value(s) == 0
      case Value(n) => env.isDefined(s) && env.value(s) == n && forall args :: env.call(s, args) == n
      case NotNumeric => env.isDefined(s)
  }

  /** The C value of an expression, over unbounded integers. */
  function ValueOf(e: Expr, env: Env): int {
    match e
    case Bin(op, l, r) => Apply(op, ValueOf(l, env), ValueOf(r, env))
    case Not(e) => Truth(ValueOf(e, env) == 0)
    case Paren(e) => ValueOf(e, env)
    case Num(n) => n
    case Defd(_, word) =>
      if |word| == 1 && word[0].Ident? then Truth(env.isDefined(word[0].name)) else env.odd(word)
    case Sym(s) => env.value(s)
    case Call(s, args) => env.call(s, args)
  }

  function Spell(e: Expr): (toks: seq<Token>)
    ensures toks != []
  {
    match e
    case Bin(op, l, r) => Spell(l) + [Op(op)] + Spell(r)
    case Not(e) => [Bang] + Spell(e)
    case Paren(e) => [Open] + Spell(e) + [Close]
    case Num(n) => [Number(n)]
    case Defd(paren, word) => if paren then [DefinedKw, Open] + word + [Close] else [DefinedKw] + word
    case Sym(s) => [Ident(s)]
    case Call(s, args) => [Ident(s)] + args
  }

  /** The C grammar at a precedence row: binary operators associate to the left. */
  predicate Gram(o: Options, lvl: nat, e: Expr)
    decreases e
  {
    match e
    case Bin(op, l, r) => lvl <= Level(op) && Gram(o, Level(op), l) && Gram(o, Level(op) + 1, r)
    case Not(e) => Gram(o, UNARY, e)
    case Paren(e) => Gram(o, 0, e)
    case Num(_) => true
    case Defd(_, word) => word == [] || (|word| == 1 && IsWord(word[0]))
    case Sym(_) => true
    case Call(s, args) => IsArgs(args) && !(s in o.syms && o.syms[s].Undefined?)
  }

  /** A parenthesised list that closes exactly at its end. */
  predicate IsArgs(args: seq<Token>) {
    args != [] && args[0] == Open && ArgsLength(args[1..], 1) == |args| - 1
  }

  /** Evaluation on the tree: what the token evaluator computes for a spelled expression. */
  datatype TreeResult = Bad | Tree(verdict: Verdict, symbolic: bool)

  function EvalTree(o: Options, e: Expr): TreeResult {
    match e
    case Bin(op, l, r) =>
      var a, b := EvalTree(o, l), EvalTree(o, r);
      if a.Bad? || b.Bad? then Bad else Tree(OpFn(o, op, a.verdict, b.verdict), a.symbolic || b.symbolic)
    case Not(e) =>
      var a := EvalTree(o, e);
      if a.Bad? then Bad else a.(verdict := Negate(a.verdict))
    case Paren(e) => EvalTree(o, e)
    case Num(n) => Tree(Known(StrtolToInt(n)), false)
    case Defd(_, word) => Tree(LookupDefined(o, word), true)
    case Sym(s) => EvalName(o, s)
    case Call(s, _) => if s in o.syms && o.syms[s].Undefined? then Bad else EvalName(o, s)
  }

  function EvalName(o: Options, s: string): TreeResult {
    if s !in o.syms then Tree(Unknown, true)
    else match o.syms[s]
      case Undefined => Tree(Known(0), true)
      case Value(n) => Tree(Known(StrtolToInt(n)), true)
      case NotNumeric => Bad
  }

  /** Every number the evaluator stores in an int fits there. */
  predicate Fits(o: Options, e: Expr) {
    match e
    case Bin(_, l, r) => Fits(o, l) && Fits(o, r)
    case Not(e) => Fits(o, e)
    case Paren(e) => Fits(o, e)
    case Num(n) => FitsInt(n)
    case Defd(_, _) => true
    case Sym(s) => NameFits(o, s)
    case Call(s, _) => NameFits(o, s)
  }

  predicate NameFits(o: Options, s: string) {
    s in o.syms && o.syms[s].Value? ==> FitsInt(o.syms[s].n)
  }

  // ---------------------------------------------------------------------------------------------
  // Soundness on trees.

  /** A known verdict is the C value, whatever the unknown symbols are. */
  lemma {:induction false} TreeSound(o: Options, e: Expr, env: Env)
    requires Consistent(env, o) && Fits(o, e)
    ensures var t := EvalTree(o, e);
            t.Tree? && t.verdict.Known? ==> ValueOf(e, env) == t.verdict.v
  {
    match e {
      case Bin(op, l, r) => TreeSound(o, l, env); TreeSound(o, r, env);
      case Not(e) => TreeSound(o, e, env);
      case Paren(e) => TreeSound(o, e, env);
      case Call(s, args) => assert s in o.syms && o.syms[s].Value? ==> env.call(s, args) == o.syms[s].n;
      case _ =>
    }
  }

  // ---------------------------------------------------------------------------------------------
  // The token evaluator reads exactly the grammar.

  /** Tokens that may follow an expression of row `lvl` without being taken into it. */
  predicate Follows(lvl: nat, rest: seq<Token>) {
    rest == [] || rest[0] == Close || (rest[0].Op? && Level(rest[0].op) <= lvl)
  }

  /** What the evaluator of row `lvl` makes of a tree result followed by `rest`. */
  function Continue(o: Options, lvl: nat, t: TreeResult, rest: seq<Token>): Result
    requires lvl <= UNARY
  {
    if t.Bad? then Error
    else if lvl == UNARY then Ok(t.verdict, rest, t.symbolic)
    else Loop(o, lvl, t.verdict, t.symbolic, rest)
  }

  lemma {:induction false} ArgsLengthPrefix(a: seq<Token>, b: seq<Token>, level: nat)
    requires level > 0 && ArgsLength(a, level) <= |a|
    ensures ArgsLength(a + b, level) == ArgsLength(a, level)
    decreases |a|
  {
    var l := if a[0] == Open then level + 1 else if a[0] == Close then level - 1 else level;
    assert (a + b)[1..] == a[1..] + b;
    if l > 0 { ArgsLengthPrefix(a[1..], b, l); }
  }

  lemma SkipArgsOfCall(args: seq<Token>, rest: seq<Token>)
    requires IsArgs(args)
    ensures SkipArgs(args + rest) == rest
  {
    assert (args + rest)[1..] == args[1..] + rest;
    ArgsLengthPrefix(args[1..], rest, 1);
  }

  /** A tighter row hands back its operand when nothing of that row follows. */
  lemma InnerStops(o: Options, lvl: nat, t: TreeResult, rest: seq<Token>)
    requires lvl < UNARY && Follows(lvl, rest)
    ensures Continue(o, lvl + 1, t, rest) == if t.Bad? then Error else Ok(t.verdict, rest, t.symbolic)
  {
  }

  /** One turn of the loop of eval_table. */
  lemma LoopTurn(o: Options, lvl: nat, op: BinOp, l: TreeResult, r: TreeResult, right: seq<Token>, rest: seq<Token>)
    requires lvl == Level(op) && l.Tree? && Follows(lvl, rest)
    requires EvalLevel(o, lvl + 1, right + rest) == Continue(o, lvl + 1, r, rest)
    ensures Loop(o, lvl, l.verdict, l.symbolic, [Op(op)] + right + rest)
         == if r.Bad? then Error
            else Loop(o, lvl, OpFn(o, op, l.verdict, r.verdict), l.symbolic || r.symbolic, rest)
  {
    InnerStops(o, lvl, r, rest);
    var tail := [Op(op)] + right + rest;
    assert StartsWithOp(tail, lvl) && tail[0].op == op;
    assert tail[1..] == right + rest;
  }

  /** A spelled expression evaluates to the value of its tree, and evaluation goes on after it. */
  lemma {:induction false} EvalSpelled(o: Options, lvl: nat, e: Expr, rest: seq<Token>)
    requires lvl <= UNARY && Gram(o, lvl, e) && Follows(lvl, rest)
    ensures EvalLevel(o, lvl, Spell(e) + rest) == Continue(o, lvl, EvalTree(o, e), rest)
    decreases e, 1 + UNARY - lvl
  {
    if e.Bin? && Level(e.op) == lvl {
      BinSpelled(o, e.op, e.l, e.r, rest);
    } else if lvl < UNARY {
      EvalSpelled(o, lvl + 1, e, rest);
      InnerStops(o, lvl, EvalTree(o, e), rest);
    } else {
      UnarySpelled(o, e, rest);
    }
  }

  lemma {:induction false} BinSpelled(o: Options, op: BinOp, l: Expr, r: Expr, rest: seq<Token>)
    requires Gram(o, Level(op), l) && Gram(o, Level(op) + 1, r) && Follows(Level(op), rest)
    ensures EvalLevel(o, Level(op), Spell(Bin(op, l, r)) + rest) == Continue(o, Level(op), EvalTree(o, Bin(op, l, r)),
      rest)
    decreases Bin(op, l, r), 0
  {
    var lvl := Level(op);
    var tail := [Op(op)] + Spell(r) + rest;
    EvalSpelled(o, lvl, l, tail);
    assert Spell(Bin(op, l, r)) + rest == Spell(l) + tail;
    if EvalTree(o, l).Tree? {
      EvalSpelled(o, lvl + 1, r, rest);
      LoopTurn(o, lvl, op, EvalTree(o, l), EvalTree(o, r), Spell(r), rest);
    }
  }

  lemma DefinedSpelled(paren: bool, word: seq<Token>, rest: seq<Token>)
    requires word == [] || (|word| == 1 && IsWord(word[0]))
    requires Follows(UNARY, rest)
    ensures DefinedOperand((if paren then [Open] + word + [Close] else word) + rest) == (paren, word, rest, true)
  {
    if paren {
      var t := word + ([Close] + rest);
      assert ([Open] + word + [Close] + rest)[1..] == t;
      assert t[|word|..] == [Close] + rest;
    } else {
      assert (word + rest)[|word|..] == rest;
    }
  }

  lemma DefinedReads(toks: seq<Token>)
    requires DefinedOperand(toks).3
    ensures var (paren, word, rest, _) := DefinedOperand(toks);
            && (word == [] || (|word| == 1 && IsWord(word[0])))
            && toks == (if paren then [Open] + word + [Close] else word) + rest
  {
    var (paren, word, rest, _) := DefinedOperand(toks);
    if paren {
      assert toks == [Open] + toks[1..];
      assert toks[1..] == word + ([Close] + rest);
    }
  }

  lemma UnaryOf(o: Options, t: Token, toks: seq<Token>, tail: seq<Token>)
    requires toks == [t] + tail
    ensures EvalUnary(o, toks) == UnaryHead(o, t, tail)
  {
    assert toks[1..] == tail;
  }

  lemma NotSpelled(o: Options, f: Expr, rest: seq<Token>)
    requires EvalUnary(o, Spell(f) + rest) == Continue(o, UNARY, EvalTree(o, f), rest)
    ensures EvalUnary(o, Spell(Not(f)) + rest) == Continue(o, UNARY, EvalTree(o, Not(f)), rest)
  {
    UnaryOf(o, Bang, Spell(Not(f)) + rest, Spell(f) + rest);
  }

  lemma ParenSpelled(o: Options, f: Expr, rest: seq<Token>)
    requires EvalLevel(o, 0, Spell(f) + ([Close] + rest)) == Continue(o, 0, EvalTree(o, f), [Close] + rest)
    ensures EvalUnary(o, Spell(Paren(f)) + rest) == Continue(o, UNARY, EvalTree(o, f), rest)
  {
    UnaryOf(o, Open, Spell(Paren(f)) + rest, Spell(f) + ([Close] + rest));
    assert ([Close] + rest)[1..] == rest;
  }

  lemma NameSpelled(o: Options, s: string, args: seq<Token>, rest: seq<Token>)
    requires args == [] || (IsArgs(args) && !(s in o.syms && o.syms[s].Undefined?))
    requires Follows(UNARY, rest)
    ensures EvalUnary(o, [Ident(s)] + args + rest) == Continue(o, UNARY, EvalName(o, s), rest)
  {
    UnaryOf(o, Ident(s), [Ident(s)] + args + rest, args + rest);
    if args == [] {
      assert args + rest == rest;
    } else {
      SkipArgsOfCall(args, rest);
    }
  }

  lemma DefdSpelled(o: Options, paren: bool, word: seq<Token>, rest: seq<Token>)
    requires word == [] || (|word| == 1 && IsWord(word[0]))
    requires Follows(UNARY, rest)
    ensures EvalUnary(o, Spell(Defd(paren, word)) + rest) == Ok(LookupDefined(o, word), rest, true)
  {
    UnaryOf(o, DefinedKw, Spell(Defd(paren, word)) + rest, (if paren then [Open] + word + [Close] else word) + rest);
    DefinedSpelled(paren, word, rest);
  }

  lemma LeafSpelled(o: Options, e: Expr, rest: seq<Token>)
    requires e.Num? || e.Defd? || e.Sym? || e.Call?
    requires Gram(o, UNARY, e) && Follows(UNARY, rest)
    ensures EvalUnary(o, Spell(e) + rest) == Continue(o, UNARY, EvalTree(o, e), rest)
  {
    match e {
      case Num(n) =>
        UnaryOf(o, Number(n), Spell(e) + rest, rest);
      case Defd(paren, word) =>
        DefdSpelled(o, paren, word, rest);
      case Sym(s) =>
        assert [Ident(s)] == [Ident(s)] + [];
        NameSpelled(o, s, [], rest);
      case Call(s, args) =>
        NameSpelled(o, s, args, rest);
    }
  }

  lemma {:induction false} UnarySpelled(o: Options, e: Expr, rest: seq<Token>)
    requires Gram(o, UNARY, e) && Follows(UNARY, rest)
    ensures EvalUnary(o, Spell(e) + rest) == Continue(o, UNARY, EvalTree(o, e), rest)
    decreases e, 0
  {
    match e {
      case Not(f) =>
        UnarySpelled(o, f, rest);
        NotSpelled(o, f, rest);
      case Paren(f) =>
        EvalSpelled(o, 0, f, [Close] + rest);
        ParenSpelled(o, f, rest);
      case _ =>
        LeafSpelled(o, e, rest);
    }
  }

  /** Conversely, whatever is read without error is the spelling of some expression of the grammar. */
  lemma {:induction false} EvalReads(o: Options, lvl: nat, toks: seq<Token>) returns (e: Expr)
    requires lvl <= UNARY && EvalLevel(o, lvl, toks).Ok?
    ensures Gram(o, lvl, e) && toks == Spell(e) + EvalLevel(o, lvl, toks).rest
    decreases |toks|, 1 + UNARY - lvl
  {
    if lvl == UNARY {
      e := UnaryReads(o, toks);
    } else {
      e := EvalReads(o, lvl + 1, toks);
      GramWeaken(o, lvl, e);
      var r := EvalLevel(o, lvl + 1, toks);
      e := LoopReads(o, lvl, r.verdict, r.symbolic, toks, e, r.rest);
    }
  }

  lemma GramWeaken(o: Options, lvl: nat, e: Expr)
    requires Gram(o, lvl + 1, e)
    ensures Gram(o, lvl, e)
  {
  }

  lemma {:induction false} LoopReads(o: Options, lvl: nat, a: Verdict, symbolic: bool, all: seq<Token>, left: Expr,
      toks: seq<Token>)
    returns (e: Expr)
    requires lvl < UNARY && Gram(o, lvl, left) && all == Spell(left) + toks
    requires Loop(o, lvl, a, symbolic, toks).Ok?
    ensures Gram(o, lvl, e) && all == Spell(e) + Loop(o, lvl, a, symbolic, toks).rest
    decreases |toks|, 0
  {
    e := left;
    if StartsWithOp(toks, lvl) {
      var right := EvalReads(o, lvl + 1, toks[1..]);
      var r := EvalLevel(o, lvl + 1, toks[1..]);
      var both := Bin(toks[0].op, left, right);
      assert all == Spell(both) + r.rest by {
        assert toks == [toks[0]] + toks[1..];
      }
      e := LoopReads(o, lvl, OpFn(o, toks[0].op, a, r.verdict), symbolic || r.symbolic, all, both, r.rest);
    }
  }

  lemma {:induction false} UnaryReads(o: Options, toks: seq<Token>) returns (e: Expr)
    requires EvalUnary(o, toks).Ok?
    ensures Gram(o, UNARY, e) && toks == Spell(e) + EvalUnary(o, toks).rest
    decreases |toks|, 0
  {
    e := HeadReads(o, toks[0], toks[1..]);
    assert toks == [toks[0]] + toks[1..];
  }

  lemma {:induction false} HeadReads(o: Options, t: Token, tail: seq<Token>) returns (e: Expr)
    requires UnaryHead(o, t, tail).Ok?
    ensures Gram(o, UNARY, e) && [t] + tail == Spell(e) + UnaryHead(o, t, tail).rest
    decreases |tail|, 3 + UNARY
  {
    hide EvalUnary, EvalLevel, SymbolResult, DefinedOperand;
    var rest := UnaryHead(o, t, tail).rest;
    match t {
      case Bang =>
        var f := UnaryReads(o, tail);
        e := Not(f);
      case Open =>
        var f := EvalReads(o, 0, tail);
        assert EvalLevel(o, 0, tail).rest == [Close] + rest;
        e := Paren(f);
      case Number(n) =>
        e := Num(n);
      case DefinedKw =>
        var (paren, word, _, _) := DefinedOperand(tail);
        DefinedReads(tail);
        e := Defd(paren, word);
      case Ident(s) =>
        e := NameReads(o, s, tail);
    }
  }

  lemma NameReads(o: Options, s: string, tail: seq<Token>) returns (e: Expr)
    requires SymbolResult(o, s, tail).Ok?
    ensures Gram(o, UNARY, e) && [Ident(s)] + tail == Spell(e) + SymbolResult(o, s, tail).rest
  {
    hide SkipArgs, IsArgs;
    var rest := SymbolResult(o, s, tail).rest;
    var n := |tail| - |rest|;
    e := Sym(s);
    if n > 0 {
      ArgsOfSkip(tail);
      e := Call(s, tail[..n]);
      assert tail == tail[..n] + rest;
    }
  }

  /** What skipargs steps over is one closed list. */
  lemma ArgsOfSkip(toks: seq<Token>)
    requires |SkipArgs(toks)| < |toks|
    ensures IsArgs(toks[..|toks| - |SkipArgs(toks)|])
  {
    var n := ArgsLength(toks[1..], 1);
    assert toks[..1 + n][1..] == toks[1..][..n];
    ArgsLengthCut(toks[1..], 1);
  }

  lemma {:induction false} ArgsLengthCut(toks: seq<Token>, level: nat)
    requires level > 0 && ArgsLength(toks, level) <= |toks|
    ensures ArgsLength(toks[..ArgsLength(toks, level)], level) == ArgsLength(toks, level)
    decreases |toks|
  {
    var n := ArgsLength(toks, level);
    var l := if toks[0] == Open then level + 1 else if toks[0] == Close then level - 1 else level;
    if l > 0 {
      ArgsLengthCut(toks[1..], l);
      assert toks[..n][1..] == toks[1..][..n - 1];
    }
  }

  // ---------------------------------------------------------------------------------------------
  // Soundness on lines.

  ghost predicate Reads(o: Options, toks: seq<Token>, e: Expr) {
    Gram(o, 0, e) && Spell(e) == toks
  }

  /** ifeval is sound: a line it calls true or false has that truth value for every valuation that
      agrees with the command line, however the line is read, and it is readable. */
  lemma IfEvalSound(o: Options, toks: seq<Token>, env: Env)
    requires Consistent(env, o)
    ensures IfEval(o, toks).Known? ==> exists e :: Reads(o, toks, e)
    ensures IfEval(o, toks).Known? ==>
      forall e :: Reads(o, toks, e) && Fits(o, e) ==> ValueOf(e, env) == IfEval(o, toks).v
  {
    if IfEval(o, toks).Known? {
      var e0 := EvalReads(o, 0, toks);
      assert Spell(e0) + [] == toks == Spell(e0);
      assert Reads(o, toks, e0);
      forall e | Reads(o, toks, e) && Fits(o, e) ensures ValueOf(e, env) == IfEval(o, toks).v {
        assert Spell(e) + [] == toks;
        EvalSpelled(o, 0, e, []);
        TreeSound(o, e, env);
      }
    }
  }

  // ---------------------------------------------------------------------------------------------
  // How far soundness reaches: exactly to the literals an int can hold.

  /** All literals of the expression are `n` or fit an int, and so do the symbols from the command line. */
  predicate LiteralsAmong(o: Options, e: Expr, n: nat) {
    match e
    case Bin(_, l, r) => LiteralsAmong(o, l, n) && LiteralsAmong(o, r, n)
    case Not(e) => LiteralsAmong(o, e, n)
    case Paren(e) => LiteralsAmong(o, e, n)
    case Num(m) => m == n || FitsInt(m)
    case Defd(_, _) => true
    case Sym(s) => NameFits(o, s)
    case Call(s, _) => NameFits(o, s)
  }

  /** If ifeval says what the line is, then it is that for every valuation that agrees with the command line. */
  ghost predicate SoundLine(o: Options, e: Expr) {
    forall env :: Consistent(env, o) && IfEval(o, Spell(e)).Known? ==>
      (IfEval(o, Spell(e)).v != 0 <==> ValueOf(e, env) != 0)
  }

  lemma {:induction false} LiteralsFit(o: Options, e: Expr, n: nat)
    requires LiteralsAmong(o, e, n) && FitsInt(n)
    ensures Fits(o, e)
  {
    match e {
      case Bin(_, l, r) => LiteralsFit(o, l, n); LiteralsFit(o, r, n);
      case Not(f) => LiteralsFit(o, f, n);
      case Paren(f) => LiteralsFit(o, f, n);
      case _ =>
    }
  }

  /** ifeval on a line of the grammar. */
  lemma IfEvalTree(o: Options, e: Expr)
    requires Gram(o, 0, e)
    ensures var t := EvalTree(o, e);
      IfEval(o, Spell(e)) == if t.Bad? || (!o.killconsts && !t.symbolic) then Unknown else t.verdict
  {
    assert Spell(e) + [] == Spell(e);
    EvalSpelled(o, 0, e, []);
  }

  /** A literal that does not fit, compared with what becomes of it. */
  function Compared(n: nat): Expr {
    var m := StrtolToInt(n);
    if m == 0 then Num(n) else if m < 0 then Bin(Lt, Num(n), Num(0)) else Bin(Eq, Num(n), Num(m))
  }

  lemma ComparedIsWrong(o: Options, n: nat, env: Env)
    requires !FitsInt(n)
    ensures Gram(o, 0, Compared(n)) && LiteralsAmong(o, Compared(n), n) && EvalTree(o, Compared(n)).Tree?
    ensures var v := EvalTree(o, Compared(n)).verdict; v.Known? && !(v.v != 0 <==> ValueOf(Compared(n), env) != 0)
  {
    var m := StrtolToInt(n);
    assert EvalTree(o, Num(n)) == Tree(Known(m), false);
    if m < 0 {
      assert EvalTree(o, Num(0)) == Tree(Known(0), false);
      assert LiteralsAmong(o, Num(0), n) && LiteralsAmong(o, Num(n), n);
      assert ValueOf(Num(0), env) == 0 && ValueOf(Num(n), env) == n;
    } else if m > 0 {
      assert EvalTree(o, Num(m)) == Tree(Known(m), false);
      assert LiteralsAmong(o, Num(m), n) && LiteralsAmong(o, Num(n), n);
      assert ValueOf(Num(m), env) == m && ValueOf(Num(n), env) == n;
    }
  }

  /** The line `n == m || 0 && defined(s)`, so that a symbol is mentioned. */
  function Misjudged(n: nat, s: string): Expr { Bin(Or, Compared(n), Bin(And, Num(0), Defd(true, [Ident(s)]))) }

  /** Options under which some line with a literal and `defined(s)` is decided. */
  predicate Decides(o: Options, s: string) { o.killconsts || !o.strictlogic || s in o.syms }

  lemma FalsePart(o: Options, s: string, n: nat, env: Env)
    ensures var e := Bin(And, Num(0), Defd(true, [Ident(s)]));
      && Gram(o, 1, e) && LiteralsAmong(o, e, n) && ValueOf(e, env) == 0
      && EvalTree(o, e) == Tree(if !o.strictlogic || s in o.syms then Known(0) else Unknown, true)
  {
    var d := Defd(true, [Ident(s)]);
    assert EvalTree(o, d) == Tree(LookupDefined(o, [Ident(s)]), true);
    assert EvalTree(o, Num(0)) == Tree(Known(0), false);
    assert ValueOf(Num(0), env) == 0;
    assert Gram(o, 2, d) && Gram(o, 1, Num(0));
    assert LiteralsAmong(o, d, n) && LiteralsAmong(o, Num(0), n);
  }

  /** For every literal that does not fit, ifeval misjudges a line, with a symbol in it unless `-k` is given, for every
      valuation. */
  lemma MisjudgedIsWrong(o: Options, n: nat, s: string, env: Env)
    requires !FitsInt(n) && Decides(o, s)
    ensures var e := if o.killconsts then Compared(n) else Misjudged(n, s);
      && Gram(o, 0, e) && LiteralsAmong(o, e, n) && IfEval(o, Spell(e)).Known?
      && !(IfEval(o, Spell(e)).v != 0 <==> ValueOf(e, env) != 0)
  {
    hide EvalLevel, IfEval, Compared;
    ComparedIsWrong(o, n, env);
    if o.killconsts {
      IfEvalTree(o, Compared(n));
    } else {
      FalsePart(o, s, n, env);
      IfEvalTree(o, Misjudged(n, s));
    }
  }

  /** `4294967296 == 0 || defined(X)` */
  const TOO_WIDE := Bin(Or, Bin(Eq, Num(0x1_0000_0000), Num(0)), Defd(true, [Ident("X")]))

  /** By default, that line is called true. */
  lemma DefaultExample(o: Options, env: Env)
    requires !o.strictlogic && !o.killconsts && !env.isDefined("X")
    ensures Gram(o, 0, TOO_WIDE) && IfEval(o, Spell(TOO_WIDE)) == Known(1) && ValueOf(TOO_WIDE, env) == 0
  {
    var l, d := Bin(Eq, Num(0x1_0000_0000), Num(0)), Defd(true, [Ident("X")]);
    assert EvalTree(o, Num(0)) == Tree(Known(0), false) && EvalTree(o, Num(0x1_0000_0000)) == Tree(Known(0), false);
    assert EvalTree(o, l) == Tree(Known(1), false);
    assert ValueOf(Num(0), env) == 0 && ValueOf(Num(0x1_0000_0000), env) == 0x1_0000_0000;
    assert Gram(o, 2, Num(0x1_0000_0000)) && Gram(o, 3, Num(0)) && Gram(o, 0, l) && Gram(o, 1, d);
    assert ValueOf(d, env) == 0;
    IfEvalTree(o, Bin(Or, l, d));
  }

  /** Under strict logic, what mentions a symbol is decided only if a symbol is given. */
  lemma {:induction false} StrictUnknown(o: Options, e: Expr)
    requires o.strictlogic && o.syms == map[]
    ensures var t := EvalTree(o, e); t.Tree? && t.symbolic ==> t.verdict.Unknown?
  {
    match e {
      case Bin(_, l, r) => StrictUnknown(o, l); StrictUnknown(o, r);
      case Not(f) => StrictUnknown(o, f);
      case Paren(f) => StrictUnknown(o, f);
      case _ =>
    }
  }

  /** No line is ever decided. */
  predicate Undecided(o: Options) { o.strictlogic && !o.killconsts && o.syms == map[] }

  /**
   * Adding one literal to those an int can hold keeps every verdict of ifeval right if and only if it fits too,
   * or no line is decided at all.
   */
  lemma SoundIffLiteralFits(o: Options, n: nat)
    ensures (forall e :: Gram(o, 0, e) && LiteralsAmong(o, e, n) ==> SoundLine(o, e)) <==> FitsInt(n) || Undecided(o)
  {
    hide EvalLevel, IfEval, Spell;
    if FitsInt(n) || Undecided(o) {
      forall e | Gram(o, 0, e) && LiteralsAmong(o, e, n) ensures SoundLine(o, e) {
        IfEvalTree(o, e);
        if FitsInt(n) {
          LiteralsFit(o, e, n);
          forall env | Consistent(env, o) { TreeSound(o, e, env); }
        } else {
          StrictUnknown(o, e);
        }
      }
    } else {
      var env := Given(o);
      var s := Witness(o);
      MisjudgedIsWrong(o, n, s, env);
      assert !SoundLine(o, if o.killconsts then Compared(n) else Misjudged(n, s));
    }
  }

  /** A valuation that knows what the command line says and nothing else. */
  function Given(o: Options): (env: Env)
    ensures Consistent(env, o)
  {
    var value := s => if s in o.syms && o.syms[s].Value? then o.syms[s].n else 0;
    Env(value, s => s in o.syms && !o.syms[s].Undefined?, (s, args) => value(s), w => 0)
  }

  lemma Witness(o: Options) returns (s: string)
    requires !Undecided(o)
    ensures Decides(o, s)
  {
    s := "X";
    if !Decides(o, s) {
      assert o.syms.Keys != {} by { assert o.syms.Keys == {} ==> o.syms == map[]; }
      s :| s in o.syms.Keys;
    }
  }
}
