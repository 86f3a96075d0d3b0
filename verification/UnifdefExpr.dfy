/** The `#if` expression evaluator of unifdef, as functions on tokens and as the cursor-driven methods
    that compute them. */
module UnifdefExpr {

  datatype BinOp = Or | And | Eq | Ne | Le | Ge | Lt | Gt

  datatype Token =
    | Op(op: BinOp)
    | Bang
    | Open
    | Close
    | Number(n: nat)
    | DefinedKw
    | Ident(name: string)
    | Junk

  /** What `-Dsym=value` and `-Usym` say about a symbol. */
  datatype SymValue = Undefined | Value(n: int) | NotNumeric

  datatype Options = Options(syms: map<string, SymValue>, strictlogic: bool, killconsts: bool)

  /** LT_IF with no value, or LT_TRUE/LT_FALSE with the integer behind it;
      the line type is LT_TRUE exactly when that integer is not zero. */
  datatype Verdict = Unknown | Known(v: int)

  datatype Result = Error | Ok(verdict: Verdict, rest: seq<Token>, symbolic: bool)

  const INT_MIN: int := -0x8000_0000
  const INT_MAX: int := 0x7fff_ffff
  const LONG_MIN: int := -0x8000_0000_0000_0000
  const LONG_MAX: int := 0x7fff_ffff_ffff_ffff

  predicate FitsInt(n: int) { INT_MIN <= n <= INT_MAX }

  /** strtol saturates to long; storing the result through an int pointer keeps the low 32 bits. */
  function Saturated(n: int): int { if n > LONG_MAX then LONG_MAX else if n < LONG_MIN then LONG_MIN else n }

  function StrtolToInt(n: int): (r: int)
    ensures FitsInt(r) && (Saturated(n) - r) % 0x1_0000_0000 == 0
    ensures FitsInt(n) ==> r == n
  {
    var low := Saturated(n) % 0x1_0000_0000;
    if low > INT_MAX then low - 0x1_0000_0000 else low
  }

  /** Row of the precedence table that holds an operator. */
  function Level(op: BinOp): nat {
    match op
    case Or => 0
    case And => 1
    case Eq | Ne => 2
    case Le | Ge | Lt | Gt => 3
  }

  const UNARY := 4

  function Truth(b: bool): int { if b then 1 else 0 }

  /** The C meaning of a binary operator on values. */
  function Apply(op: BinOp, a: int, b: int): int {
    match op
    case Or => Truth(a != 0 || b != 0)
    case And => Truth(a != 0 && b != 0)
    case Eq => Truth(a == b)
    case Ne => Truth(a != b)
    case Le => Truth(a <= b)
    case Ge => Truth(a >= b)
    case Lt => Truth(a < b)
    case Gt => Truth(a > b)
  }

  /** The op_* functions on verdicts. */
  function OpFn(o: Options, op: BinOp, a: Verdict, b: Verdict): Verdict {
    if op == Or && !o.strictlogic && (IsTrue(a) || IsTrue(b)) then Known(1)
    else if op == And && !o.strictlogic && (IsFalse(a) || IsFalse(b)) then Known(0)
    else if a.Unknown? || b.Unknown? then Unknown
    else Known(Apply(op, a.v, b.v))
  }

  predicate IsTrue(a: Verdict) { a.Known? && a.v != 0 }
  predicate IsFalse(a: Verdict) { a.Known? && a.v == 0 }

  function Negate(a: Verdict): Verdict {
    if a.Unknown? then a else Known(Truth(a.v == 0))
  }

  /** Length of the prefix that skipargs walks over before `level` reaches zero; |toks| + 1 if it never does. */
  function ArgsLength(toks: seq<Token>, level: nat): (n: nat)
    requires level > 0
    ensures 1 <= n <= |toks| + 1
  {
    if toks == [] then 1
    else
      var l := if toks[0] == Open then level + 1 else if toks[0] == Close then level - 1 else level;
      if l == 0 then 1 else 1 + ArgsLength(toks[1..], l)
  }

  /** skipargs: step over a parenthesised argument list, or stay put if there is none that closes. */
  function SkipArgs(toks: seq<Token>): (rest: seq<Token>)
    ensures |rest| <= |toks| && rest == toks[|toks| - |rest|..]
  {
    if toks == [] || toks[0] != Open then toks
    else
      var n := ArgsLength(toks[1..], 1);
      if n > |toks| - 1 then toks else toks[1 + n..]
  }

  predicate IsWord(t: Token) { t.Ident? || t.Number? || t.DefinedKw? }

  /** What follows `defined`: an optional parenthesis, at most one word, the closing parenthesis. */
  function DefinedOperand(toks: seq<Token>): (r: (bool, seq<Token>, seq<Token>, bool))
    ensures |r.2| <= |toks|
  {
    var paren := toks != [] && toks[0] == Open;
    var t := if paren then toks[1..] else toks;
    var word := if t != [] && IsWord(t[0]) then t[..1] else [];
    var t' := t[|word|..];
    if !paren then (false, word, t', true)
    else if t' != [] && t'[0] == Close then (true, word, t'[1..], true)
    else (true, word, t', false)
  }

  function LookupDefined(o: Options, word: seq<Token>): Verdict {
    if |word| == 1 && word[0].Ident? && word[0].name in o.syms
    then Known(Truth(!o.syms[word[0].name].Undefined?))
    else Unknown
  }

  /** The symbol branch of eval_unary, given what follows the name. */
  function SymbolResult(o: Options, s: string, toks: seq<Token>): (r: Result)
    ensures r.Ok? ==> |r.rest| <= |toks| && r.symbolic
  {
    if s !in o.syms then Ok(Unknown, SkipArgs(toks), true)
    else match o.syms[s]
      case Undefined => Ok(Known(0), toks, true)
      case Value(n) => Ok(Known(StrtolToInt(n)), SkipArgs(toks), true)
      case NotNumeric => Error
  }

  /** The parenthesis branch of eval_unary, given what follows the opening one. */
  function ParenResult(o: Options, toks: seq<Token>): (r: Result)
    ensures r.Ok? ==> |r.rest| < |toks|
    decreases |toks|, 2 + UNARY
  {
    var r := EvalLevel(o, 0, toks);
    if r.Error? || r.rest == [] || r.rest[0] != Close then Error
    else r.(rest := r.rest[1..])
  }

  /** eval_unary, given the first token and the tokens after it. */
  function UnaryHead(o: Options, t: Token, tail: seq<Token>): (r: Result)
    ensures r.Ok? ==> |r.rest| <= |tail|
    decreases |tail|, 3 + UNARY
  {
    match t
    case Bang =>
      var r := EvalUnary(o, tail);
      if r.Error? then Error else r.(verdict := Negate(r.verdict))
    case Open => ParenResult(o, tail)
    case Number(n) => Ok(Known(StrtolToInt(n)), tail, false)
    case DefinedKw =>
      var (paren, word, rest, closed) := DefinedOperand(tail);
      if closed then Ok(LookupDefined(o, word), rest, true) else Error
    case Ident(s) => SymbolResult(o, s, tail)
    case _ => Error
  }

  /** eval_unary, on the tokens still to be read. */
  function EvalUnary(o: Options, toks: seq<Token>): (r: Result)
    ensures r.Ok? ==> |r.rest| < |toks|
    decreases |toks|, 0
  {
    if toks == [] then Error else UnaryHead(o, toks[0], toks[1..])
  }

  /** eval_table for row `lvl`; the row after the last one is eval_unary. */
  function EvalLevel(o: Options, lvl: nat, toks: seq<Token>): (r: Result)
    requires lvl <= UNARY
    ensures r.Ok? ==> |r.rest| < |toks|
    decreases |toks|, 1 + UNARY - lvl
  {
    if lvl == UNARY then EvalUnary(o, toks)
    else
      var r := EvalLevel(o, lvl + 1, toks);
      if r.Error? then Error else Loop(o, lvl, r.verdict, r.symbolic, r.rest)
  }

  /** The loop of eval_table, entered with the value of the operands read so far. */
  function Loop(o: Options, lvl: nat, a: Verdict, symbolic: bool, toks: seq<Token>): (r: Result)
    requires lvl < UNARY
    ensures r.Ok? ==> |r.rest| <= |toks|
    decreases |toks|, 0
  {
    if !StartsWithOp(toks, lvl) then Ok(a, toks, symbolic)
    else
      var r := EvalLevel(o, lvl + 1, toks[1..]);
      if r.Error? then Error
      else Loop(o, lvl, OpFn(o, toks[0].op, a, r.verdict), symbolic || r.symbolic, r.rest)
  }

  predicate StartsWithOp(toks: seq<Token>, lvl: nat) {
    toks != [] && toks[0].Op? && Level(toks[0].op) == lvl
  }

  /** ifeval followed by the end-of-line test of parseline: anything left over makes the line an unknown #if. */
  function IfEval(o: Options, toks: seq<Token>): Verdict {
    var r := EvalLevel(o, 0, toks);
    if r.Error? || (!o.killconsts && !r.symbolic) || r.rest != [] then Unknown else r.verdict
  }

  // ---------------------------------------------------------------------------------------------
  // The evaluator as unifdef runs it: a cursor into the line and the global constexpression flag.

  class Evaluator {
    const o: Options
    const toks: seq<Token>
    var constexpression: bool

    constructor (o: Options, toks: seq<Token>)
      ensures this.o == o && this.toks == toks && constexpression == !o.killconsts
    {
      this.o, this.toks, constexpression := o, toks, !o.killconsts;
    }

    /** The cursor form agrees with a result computed on the remaining tokens. */
    ghost predicate Agrees(r: Result, was: bool, ok: bool, verdict: Verdict, cp: nat)
      reads this
    {
      && cp <= |toks|
      && ok == r.Ok?
      && (ok ==> r.verdict == verdict && toks[cp..] == r.rest && constexpression == (was && !r.symbolic))
    }

    method EvalUnaryAt(start: nat) returns (ok: bool, verdict: Verdict, cp: nat)
      requires start <= |toks|
      modifies this
      ensures Agrees(EvalUnary(o, toks[start..]), old(constexpression), ok, verdict, cp)
      decreases |toks| - start, 0
    {
      ok, verdict, cp := false, Unknown, start;
      if start < |toks| {
        assert toks[start..][1..] == toks[start + 1..];
        ok, verdict, cp := UnaryHeadAt(toks[start], start + 1);
      }
    }

    method UnaryHeadAt(t: Token, start: nat) returns (ok: bool, verdict: Verdict, cp: nat)
      requires start <= |toks|
      modifies this
      ensures Agrees(UnaryHead(o, t, toks[start..]), old(constexpression), ok, verdict, cp)
      decreases |toks| - start, 3 + UNARY
    {
      ok, verdict, cp := false, Unknown, start;
      match t {
        case Bang =>
          ok, verdict, cp := EvalUnaryAt(start);
          verdict := Negate(verdict);
        case Open =>
          ok, verdict, cp := ParenAt(start);
        case Number(n) =>
          ok, verdict := true, Known(StrtolToInt(n));
        case DefinedKw =>
          ok, verdict, cp := DefinedAt(start);
          constexpression := false;
        case Ident(s) =>
          ok, verdict, cp := SymbolAt(s, start);
          if ok { constexpression := false; }
        case _ =>
      }
    }

    /** A parenthesised expression, from just after the opening parenthesis. */
    method ParenAt(start: nat) returns (ok: bool, verdict: Verdict, cp: nat)
      requires start <= |toks|
      modifies this
      ensures Agrees(ParenResult(o, toks[start..]), old(constexpression), ok, verdict, cp)
      decreases |toks| - start, 2 + UNARY
    {
      ok, verdict, cp := EvalTableAt(0, start);
      if ok {
        ok := cp < |toks| && toks[cp] == Close;
        if ok {
          assert toks[cp..][1..] == toks[cp + 1..];
          cp := cp + 1;
        }
      }
    }

    /** The operand of `defined`, from just after the keyword. */
    method DefinedAt(start: nat) returns (closed: bool, verdict: Verdict, cp: nat)
      requires start <= |toks|
      ensures cp <= |toks|
      ensures var (_, word, rest, c) := DefinedOperand(toks[start..]);
              closed == c && verdict == LookupDefined(o, word) && (closed ==> toks[cp..] == rest)
    {
      var paren := start < |toks| && toks[start] == Open;
      cp := if paren then start + 1 else start;
      ghost var t := toks[cp..];
      assert paren ==> toks[start..][1..] == t;
      var from := cp;
      if cp < |toks| && IsWord(toks[cp]) { cp := cp + 1; }
      assert toks[from..cp] == if t != [] && IsWord(t[0]) then t[..1] else [];
      assert toks[cp..] == t[cp - from..];
      verdict := LookupDefined(o, toks[from..cp]);
      closed := true;
      if paren {
        closed := cp < |toks| && toks[cp] == Close;
        if closed {
          assert toks[cp..][1..] == toks[cp + 1..];
          cp := cp + 1;
        }
      }
    }

    /** A symbol, from just after its name. */
    method SymbolAt(s: string, start: nat) returns (ok: bool, verdict: Verdict, cp: nat)
      requires start <= |toks|
      ensures cp <= |toks|
      ensures var r := SymbolResult(o, s, toks[start..]);
              ok == r.Ok? && (ok ==> verdict == r.verdict && toks[cp..] == r.rest)
    {
      ok, verdict, cp := true, Unknown, start;
      if s !in o.syms {
        cp := SkipArgsAt(cp);
      } else {
        match o.syms[s] {
          case Undefined =>
            verdict := Known(0);
          case Value(n) =>
            verdict := Known(StrtolToInt(n));
            cp := SkipArgsAt(cp);
          case NotNumeric =>
            ok := false;
        }
      }
    }

    method EvalTableAt(lvl: nat, start: nat) returns (ok: bool, verdict: Verdict, cp: nat)
      requires start <= |toks| && lvl <= UNARY
      modifies this
      ensures Agrees(EvalLevel(o, lvl, toks[start..]), old(constexpression), ok, verdict, cp)
      decreases |toks| - start, 1 + UNARY - lvl
    {
      if lvl == UNARY {
        ok, verdict, cp := EvalUnaryAt(start);
        return;
      }
      ghost var was := constexpression;
      ok, verdict, cp := EvalTableAt(lvl + 1, start);
      if !ok { return; }
      ghost var spec := EvalLevel(o, lvl, toks[start..]);
      ghost var symbolic := EvalLevel(o, lvl + 1, toks[start..]).symbolic;
      while cp < |toks| && toks[cp].Op? && Level(toks[cp].op) == lvl
        invariant start < cp <= |toks|
        invariant Loop(o, lvl, verdict, symbolic, toks[cp..]) == spec
        invariant constexpression == (was && !symbolic)
        decreases |toks| - cp
      {
        assert toks[cp..][1..] == toks[cp + 1..];
        var op := toks[cp].op;
        var okRight, right, next := EvalTableAt(lvl + 1, cp + 1);
        if !okRight {
          ok := false;
          return;
        }
        symbolic := symbolic || EvalLevel(o, lvl + 1, toks[cp + 1..]).symbolic;
        verdict, cp := OpFn(o, op, verdict, right), next;
      }
    }

    method SkipArgsAt(start: nat) returns (cp: nat)
      requires start <= |toks|
      ensures start <= cp <= |toks| && toks[cp..] == SkipArgs(toks[start..])
    {
      cp := start;
      if cp == |toks| || toks[cp] != Open { return; }
      cp := cp + 1;
      var level := 1;
      ghost var n := ArgsLength(toks[start + 1..], 1);
      assert toks[start..][1..] == toks[start + 1..];
      while level != 0 && cp < |toks|
        invariant start + 1 <= cp <= |toks|
        invariant level >= 0
        invariant if level == 0 then cp == start + 1 + n
                  else n == (cp - start - 1) + ArgsLength(toks[cp..], level)
        decreases |toks| - cp
      {
        assert toks[cp..][1..] == toks[cp + 1..];
        if toks[cp] == Open { level := level + 1; }
        if toks[cp] == Close { level := level - 1; }
        cp := cp + 1;
      }
      if level != 0 { cp := start; }
    }
  }

  /** ifeval and the left-over test, run on a fresh evaluator. */
  method ComputeIfEval(o: Options, toks: seq<Token>) returns (verdict: Verdict)
    ensures verdict == IfEval(o, toks)
  {
    var e := new Evaluator(o, toks);
    assert toks[0..] == toks;
    var ok, v, cp := e.EvalTableAt(0, 0);
    verdict := if e.constexpression || !ok || cp < |toks| then Unknown else v;
  }
}
