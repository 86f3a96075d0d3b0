/** The line-by-line state machine of unifdef: the transition table, the nesting stack and the driver. */
module UnifdefMachine {
  import opened UnifdefExpr

  /** The condition of a conditional directive. */
  datatype Cond = Ifdef(name: string, negated: bool, trailing: bool) | Expr(toks: seq<Token>)

  /** A source line as the C preprocessor reads it. */
  datatype CLine = CIf(c: Cond) | CElif(c: Cond) | CElse | CEndif | CText(text: string)

  datatype Linetype =
    | TrueI | FalseI | If | True | False | Elif | ElTrue | ElFalse | Else | Endif | Plain | Eof

  datatype Ifstate =
    | Outside | FalsePrefix | TruePrefix | PassMiddle | FalseMiddle | TrueMiddle
    | PassElse | FalseElse | TrueElse | FalseTrailer

  /** One classified input line; `dodgy` marks a directive that is not on one line. */
  datatype Line = Line(lt: Linetype, dodgy: bool, src: CLine)

  datatype MachineOptions = MachineOptions(eval: Options, ignored: set<string>, iocccok: bool)

  const MAXDEPTH := 64

  // ---------------------------------------------------------------------------------------------
  // Classification of lines (parseline).

  function ClassifyIfdef(o: MachineOptions, c: Cond): Linetype
    requires c.Ifdef?
  {
    if c.name !in o.eval.syms || c.trailing then If
    else
      var holds := c.negated == o.eval.syms[c.name].Undefined?;
      if c.name in o.ignored then (if holds then TrueI else FalseI) else if holds then True else False
  }

  function ClassifyIf(o: MachineOptions, c: Cond): Linetype {
    match c
    case Ifdef(_, _, _) => ClassifyIfdef(o, c)
    case Expr(toks) =>
      var v := IfEval(o.eval, toks);
      if v.Unknown? then If else if v.v != 0 then True else False
  }

  /** `#elif` has only the expression form. */
  function ClassifyElif(o: MachineOptions, c: Cond): Linetype {
    match c
    case Ifdef(_, _, _) => Elif
    case Expr(toks) =>
      var v := IfEval(o.eval, toks);
      if v.Unknown? then Elif else if v.v != 0 then ElTrue else ElFalse
  }

  function Classify(o: MachineOptions, src: CLine, dodgy: bool): Line {
    match src
    case CIf(c) => Line(ClassifyIf(o, c), dodgy, src)
    case CElif(c) => Line(ClassifyElif(o, c), dodgy, src)
    case CElse => Line(Else, dodgy, src)
    case CEndif => Line(Endif, dodgy, src)
    case CText(_) => Line(Plain, false, src)
  }

  // ---------------------------------------------------------------------------------------------
  // The transition table.

  datatype Action =
    | Eelif | Eelse | Eendif | Eeof | Eioccc | Print | Drop
    | Strue | Sfalse | Selse | Pelif | Pelse | Pendif | Dfalse | Delif | Delse | Dendif
    | Fdrop | Fpass | Ftrue | Ffalse | Oiffy | Oif | Oelif | Idrop | Itrue | Ifalse
    | Mpass | Mtrue | Melif | Melse | Done

  /** The cell of one row of trans_table: ten line types, the same ten dodgy, then plain and end of file. */
  function Cell(line: Line,
                trueI: Action, falseI: Action, unknown: Action, isTrue: Action, isFalse: Action,
                elif: Action, elTrue: Action, elFalse: Action, els: Action, endif: Action,
                dTrueI: Action, dFalseI: Action, dUnknown: Action, dTrue: Action, dFalse: Action,
                dElif: Action, dElTrue: Action, dElFalse: Action, dElse: Action, dEndif: Action,
                plain: Action, eof: Action): Action
  {
    match line.lt
    case TrueI => if line.dodgy then dTrueI else trueI
    case FalseI => if line.dodgy then dFalseI else falseI
    case If => if line.dodgy then dUnknown else unknown
    case True => if line.dodgy then dTrue else isTrue
    case False => if line.dodgy then dFalse else isFalse
    case Elif => if line.dodgy then dElif else elif
    case ElTrue => if line.dodgy then dElTrue else elTrue
    case ElFalse => if line.dodgy then dElFalse else elFalse
    case Else => if line.dodgy then dElse else els
    case Endif => if line.dodgy then dEndif else endif
    case Plain => plain
    case Eof => eof
  }

  function Table(s: Ifstate, line: Line): (a: Action)
    ensures s == Outside ==> Ungrouped(a)
    ensures s != Outside ==> a != Done
  {
    match s
    case Outside => Cell(line,
      Itrue, Ifalse, Fpass, Ftrue, Ffalse, Eelif, Eelif, Eelif, Eelse, Eendif,
      Oiffy, Oiffy, Fpass, Oif, Oif, Eelif, Eelif, Eelif, Eelse, Eendif,
      Print, Done)
    case FalsePrefix => Cell(line,
      Idrop, Idrop, Fdrop, Fdrop, Fdrop, Mpass, Strue, Sfalse, Selse, Dendif,
      Idrop, Idrop, Fdrop, Fdrop, Fdrop, Mpass, Eioccc, Eioccc, Eioccc, Eioccc,
      Drop, Eeof)
    case TruePrefix => Cell(line,
      Itrue, Ifalse, Fpass, Ftrue, Ffalse, Dfalse, Dfalse, Dfalse, Delse, Dendif,
      Oiffy, Oiffy, Fpass, Oif, Oif, Eioccc, Eioccc, Eioccc, Eioccc, Eioccc,
      Print, Eeof)
    case PassMiddle => Cell(line,
      Itrue, Ifalse, Fpass, Ftrue, Ffalse, Pelif, Mtrue, Delif, Pelse, Pendif,
      Oiffy, Oiffy, Fpass, Oif, Oif, Pelif, Oelif, Oelif, Pelse, Pendif,
      Print, Eeof)
    case FalseMiddle => Cell(line,
      Idrop, Idrop, Fdrop, Fdrop, Fdrop, Pelif, Mtrue, Delif, Pelse, Pendif,
      Idrop, Idrop, Fdrop, Fdrop, Fdrop, Eioccc, Eioccc, Eioccc, Eioccc, Eioccc,
      Drop, Eeof)
    case TrueMiddle => Cell(line,
      Itrue, Ifalse, Fpass, Ftrue, Ffalse, Melif, Melif, Melif, Melse, Pendif,
      Oiffy, Oiffy, Fpass, Oif, Oif, Eioccc, Eioccc, Eioccc, Eioccc, Pendif,
      Print, Eeof)
    case PassElse => Cell(line,
      Itrue, Ifalse, Fpass, Ftrue, Ffalse, Eelif, Eelif, Eelif, Eelse, Pendif,
      Oiffy, Oiffy, Fpass, Oif, Oif, Eelif, Eelif, Eelif, Eelse, Pendif,
      Print, Eeof)
    case FalseElse => Cell(line,
      Idrop, Idrop, Fdrop, Fdrop, Fdrop, Eelif, Eelif, Eelif, Eelse, Dendif,
      Idrop, Idrop, Fdrop, Fdrop, Fdrop, Eelif, Eelif, Eelif, Eelse, Eioccc,
      Drop, Eeof)
    case TrueElse => Cell(line,
      Itrue, Ifalse, Fpass, Ftrue, Ffalse, Eelif, Eelif, Eelif, Eelse, Dendif,
      Oiffy, Oiffy, Fpass, Oif, Oif, Eelif, Eelif, Eelif, Eelse, Eioccc,
      Print, Eeof)
    case FalseTrailer => Cell(line,
      Idrop, Idrop, Fdrop, Fdrop, Fdrop, Dfalse, Dfalse, Dfalse, Delse, Dendif,
      Idrop, Idrop, Fdrop, Fdrop, Fdrop, Dfalse, Dfalse, Dfalse, Delse, Eioccc,
      Drop, Eeof)
  }

  /** Actions that open a group. */
  predicate Opens(a: Action) {
    match a
    case Fdrop | Fpass | Ftrue | Ffalse | Oiffy | Oif | Idrop | Itrue | Ifalse => true
    case _ => false
  }

  /** Actions that need no enclosing group. */
  predicate Ungrouped(a: Action) {
    match a
    case Eelif | Eelse | Eendif | Eeof | Eioccc | Print | Drop => true
    case Fdrop | Fpass | Ftrue | Ffalse | Oiffy | Oif | Idrop | Itrue | Ifalse => true
    case Done => true
    case _ => false
  }

  // ---------------------------------------------------------------------------------------------
  // The state the transition functions work on, as a value.

  datatype Frame = Frame(state: Ifstate, ignoring: bool)

  datatype Proc = Proc(frames: seq<Frame>, out: seq<CLine>) {
    ghost predicate Ok() {
      && 1 <= |frames| <= MAXDEPTH
      && frames[0] == Frame(Outside, false)
      && forall i :: 1 <= i < |frames| ==> frames[i].state != Outside && (frames[i - 1].ignoring ==> frames[i].ignoring)
    }

    function Depth(): int { |frames| - 1 }
    function Top(): Frame requires frames != [] { frames[|frames| - 1] }
    function Emit(l: CLine): Proc { this.(out := out + [l]) }
    function State(s: Ifstate): Proc requires frames != [] {
      this.(frames := frames[Depth() := Top().(state := s)])
    }

    function IgnoreOff(): Proc requires |frames| >= 2 {
      this.(frames := frames[Depth() := Top().(ignoring := frames[Depth() - 1].ignoring)])
    }

    function Nest(f: Frame): Proc { this.(frames := frames + [f]) }
    function Unnest(): Proc requires |frames| >= 2 { this.(frames := frames[..Depth()]) }
  }

  datatype Outcome = Running(p: Proc) | Finished(p: Proc) | Failed

  /** #elif edited in place: the keyword becomes `if`, the condition stays. */
  function AsIf(l: CLine): CLine { if l.CElif? then CIf(l.c) else l }

  /** First line of a group: error at the depth limit, otherwise one frame more. */
  function EnterGroup(p: Proc, emit: bool, line: CLine, s: Ifstate, ignore: bool): (r: Outcome)
    requires p.frames != []
    ensures p.Ok() && s != Outside && r.Running? ==> r.p.Ok()
  {
    if p.Depth() == MAXDEPTH - 1 then Failed
    else
      var q := p.Nest(Frame(s, p.Top().ignoring || ignore));
      Running(if emit then q.Emit(line) else q)
  }

  /** A later directive of a group: write a line or not, restore the comment state or not, change state. */
  function SwitchTo(p: Proc, emit: seq<CLine>, off: bool, s: Ifstate): (r: Outcome)
    requires |p.frames| >= 2
    ensures p.Ok() && s != Outside ==> r.Running? && r.p.Ok()
  {
    var q := if off then p.IgnoreOff() else p;
    Running(q.State(s).(out := q.out + emit))
  }

  /** What each transition function does to the state. */
  function Act(o: MachineOptions, p: Proc, a: Action, l: CLine): Outcome
    requires p.frames != []
    requires |p.frames| == 1 ==> Ungrouped(a)
  {
    match a
    case Eelif | Eelse | Eendif | Eeof | Eioccc => Failed
    case Print => Running(p.Emit(l))
    case Drop => Running(p)
    case Strue => SwitchTo(p, [], true, TruePrefix)
    case Sfalse => SwitchTo(p, [], true, FalsePrefix)
    case Selse => SwitchTo(p, [], false, TrueElse)
    case Pelif => SwitchTo(p, [l], true, PassMiddle)
    case Pelse => SwitchTo(p, [l], false, PassElse)
    case Pendif => Running(p.Unnest().Emit(l))
    case Dfalse => SwitchTo(p, [], true, FalseTrailer)
    case Delif => SwitchTo(p, [], true, FalseMiddle)
    case Delse => SwitchTo(p, [], false, FalseElse)
    case Dendif => Running(p.Unnest())
    case Fdrop => EnterGroup(p, false, l, FalseTrailer, false)
    case Fpass => EnterGroup(p, true, l, PassMiddle, false)
    case Ftrue => EnterGroup(p, false, l, TruePrefix, false)
    case Ffalse => EnterGroup(p, false, l, FalsePrefix, false)
    case Oiffy => if o.iocccok then EnterGroup(p, true, l, PassMiddle, true) else Failed
    case Oif => if o.iocccok then EnterGroup(p, true, l, PassMiddle, false) else Failed
    case Oelif => if o.iocccok then SwitchTo(p, [l], true, PassMiddle) else Failed
    case Idrop => EnterGroup(p, false, l, FalseTrailer, true)
    case Itrue => EnterGroup(p, false, l, TruePrefix, true)
    case Ifalse => EnterGroup(p, false, l, FalsePrefix, true)
    case Mpass => SwitchTo(p, [AsIf(l)], true, PassMiddle)
    case Mtrue => SwitchTo(p, [CElse], false, TrueMiddle)
    case Melif => SwitchTo(p, [CEndif], false, FalseTrailer)
    case Melse => SwitchTo(p, [CEndif], false, FalseElse)
    case Done => Finished(p)
  }

  function Step(o: MachineOptions, p: Proc, line: Line): Outcome
    requires p.Ok()
  {
    Act(o, p, Table(p.Top().state, line), line.src)
  }

  const START := Proc([Frame(Outside, false)], [])
  const EOF := Line(Eof, false, CText(""))

  /** Every step keeps the stack well formed: the bottom frame alone is outside, and a group inside an
      ignored group is ignored too. No step reaches an abort, and only the bottom state ends the run. */
  lemma StepOk(o: MachineOptions, p: Proc, line: Line)
    requires p.Ok()
    ensures Step(o, p, line).Running? ==> Step(o, p, line).p.Ok()
    ensures Step(o, p, line).Finished? ==> |p.frames| == 1 && Step(o, p, line).p == p
  {
  }

  /** The whole run of process() over classified lines. */
  function Run(o: MachineOptions, p: Proc, lines: seq<Line>): Outcome
    requires p.Ok()
    decreases |lines|
  {
    if lines == [] then Step(o, p, EOF)
    else
      var r := Step(o, p, lines[0]);
      StepOk(o, p, lines[0]);
      if r.Running? then Run(o, r.p, lines[1..]) else r
  }

  // ---------------------------------------------------------------------------------------------
  // The machine as unifdef runs it, on fixed-size stacks.

  datatype Status = Going | Stopped | Exited

  class Unifdef {
    const o: MachineOptions
    const ifstate: array<Ifstate>
    const ignoring: array<bool>
    var depth: nat
    var output: seq<CLine>

    constructor (o: MachineOptions)
      ensures Valid() && fresh(ifstate) && fresh(ignoring) && this.o == o && View() == START
    {
      this.o, depth, output := o, 0, [];
      ifstate := new Ifstate[MAXDEPTH](_ => Outside);
      ignoring := new bool[MAXDEPTH](_ => false);
    }

    ghost predicate Valid() reads this {
      ifstate.Length == MAXDEPTH && ignoring.Length == MAXDEPTH && depth < MAXDEPTH
    }

    ghost function View(): (p: Proc)
      requires Valid()
      reads this, ifstate, ignoring
      ensures |p.frames| == depth + 1
    {
      Proc(seq(depth + 1, i requires 0 <= i <= depth reads this, ifstate, ignoring requires Valid() =>
                 Frame(ifstate[i], ignoring[i])), output)
    }

    /** The stacks, the output and the status are those of the outcome. */
    ghost predicate Reports(r: Outcome, status: Status)
      requires Valid()
      reads this, ifstate, ignoring
    {
      match r
      case Running(p) => status == Going && View() == p
      case Finished(p) => status == Exited && View() == p
      case Failed => status == Stopped
    }

    /** nest(), with the state and comment flag every caller sets next. */
    method Nest(s: Ifstate, ignore: bool) returns (ok: bool)
      requires Valid()
      modifies this`depth, ifstate, ignoring
      ensures Valid() && output == old(output)
      ensures ok == (old(depth) < MAXDEPTH - 1)
      ensures View() == if ok then old(View()).Nest(Frame(s, old(View()).Top().ignoring || ignore)) else old(View())
    {
      ok := depth < MAXDEPTH - 1;
      if ok {
        depth := depth + 1;
        ignoring[depth] := ignoring[depth - 1];
        ifstate[depth] := s;
        if ignore { ignoring[depth] := true; }
      }
    }

    method Unnest()
      requires Valid() && depth > 0
      modifies this`depth
      ensures Valid() && output == old(output) && View() == old(View()).Unnest()
    {
      depth := depth - 1;
    }

    method Switch(s: Ifstate, off: bool)
      requires Valid() && (off ==> depth > 0)
      modifies ifstate, ignoring
      ensures Valid() && output == old(output) && depth == old(depth)
      ensures View() == (if off then old(View()).IgnoreOff() else old(View())).State(s)
    {
      if off { ignoring[depth] := ignoring[depth - 1]; }
      ifstate[depth] := s;
    }

    method FlushLine(l: CLine)
      requires Valid()
      modifies this`output
      ensures Valid() && depth == old(depth) && View() == old(View()).Emit(l)
    {
      output := output + [l];
    }

    method Enter(emit: bool, l: CLine, s: Ifstate, ignore: bool) returns (ok: bool)
      requires Valid()
      modifies this`depth, this`output, ifstate, ignoring
      ensures Valid()
      ensures var r := EnterGroup(old(View()), emit, l, s, ignore);
              ok == r.Running? && (ok ==> View() == r.p)
    {
      ok := Nest(s, ignore);
      if ok && emit { FlushLine(l); }
    }

    method Move(emit: bool, l: CLine, s: Ifstate, off: bool)
      requires Valid() && depth > 0
      modifies this`output, ifstate, ignoring
      ensures Valid()
      ensures View() == SwitchTo(old(View()), if emit then [l] else [], off, s).p
    {
      if emit { FlushLine(l); }
      Switch(s, off);
    }

    /** The transition functions that open a group. */
    method Open(a: Action, l: CLine) returns (status: Status)
      requires Valid() && Opens(a)
      modifies this`depth, this`output, ifstate, ignoring
      ensures Valid() && Reports(Act(o, old(View()), a, l), status)
    {
      var ok := true;
      match a {
        case Fdrop => ok := Enter(false, l, FalseTrailer, false);
        case Fpass => ok := Enter(true, l, PassMiddle, false);
        case Ftrue => ok := Enter(false, l, TruePrefix, false);
        case Ffalse => ok := Enter(false, l, FalsePrefix, false);
        case Oiffy => ok := o.iocccok; if ok { ok := Enter(true, l, PassMiddle, true); }
        case Oif => ok := o.iocccok; if ok { ok := Enter(true, l, PassMiddle, false); }
        case Idrop => ok := Enter(false, l, FalseTrailer, true);
        case Itrue => ok := Enter(false, l, TruePrefix, true);
        case Ifalse => ok := Enter(false, l, FalsePrefix, true);
        case _ => assert false;
      }
      status := if ok then Going else Stopped;
    }

    /** The transition functions. */
    method Perform(a: Action, l: CLine) returns (status: Status)
      requires Valid() && (depth == 0 ==> Ungrouped(a))
      modifies this`depth, this`output, ifstate, ignoring
      ensures Valid() && Reports(Act(o, old(View()), a, l), status)
    {
      var ok := true;
      match a {
        case Eelif | Eelse | Eendif | Eeof | Eioccc => ok := false;
        case Print => FlushLine(l);
        case Drop =>
        case Strue => Move(false, l, TruePrefix, true);
        case Sfalse => Move(false, l, FalsePrefix, true);
        case Selse => Move(false, l, TrueElse, false);
        case Pelif => Move(true, l, PassMiddle, true);
        case Pelse => Move(true, l, PassElse, false);
        case Pendif => FlushLine(l); Unnest();
        case Dfalse => Move(false, l, FalseTrailer, true);
        case Delif => Move(false, l, FalseMiddle, true);
        case Delse => Move(false, l, FalseElse, false);
        case Dendif => Unnest();
        case Fdrop | Fpass | Ftrue | Ffalse | Oiffy | Oif | Idrop | Itrue | Ifalse => status := Open(a, l); return;
        case Oelif => ok := o.iocccok; if ok { Move(true, l, PassMiddle, true); }
        case Mpass => Move(true, AsIf(l), PassMiddle, true);
        case Mtrue => Move(true, CElse, TrueMiddle, false);
        case Melif => Move(true, CEndif, FalseTrailer, false);
        case Melse => Move(true, CEndif, FalseElse, false);
        case Done =>
      }
      status := if !ok then Stopped else if a == Done then Exited else Going;
    }

    /** One call through trans_table. */
    method Transition(line: Line) returns (status: Status)
      requires Valid() && View().Ok()
      modifies this`depth, this`output, ifstate, ignoring
      ensures Valid() && Reports(Step(o, old(View()), line), status)
    {
      ghost var v := View();
      var s := ifstate[depth];
      assert s == v.Top().state;
      var a := Table(s, line);
      status := Perform(a, line.src);
      assert Step(o, v, line) == Act(o, v, a, line.src);
    }

    /** process(): run the machine over the lines and then the end of file. */
    method Process(lines: seq<Line>) returns (success: bool)
      requires Valid() && View() == START
      modifies this`depth, this`output, ifstate, ignoring
      ensures success == Run(o, START, lines).Finished?
      ensures success ==> output == Run(o, START, lines).p.out
    {
      var i := 0;
      assert lines[0..] == lines;
      while i < |lines|
        invariant 0 <= i <= |lines| && Valid() && View().Ok()
        invariant Run(o, START, lines) == Run(o, View(), lines[i..])
      {
        StepOk(o, View(), lines[i]);
        assert lines[i..][1..] == lines[i + 1..];
        var status := Transition(lines[i]);
        if status != Going { return status == Exited; }
        i := i + 1;
      }
      StepOk(o, View(), EOF);
      var status := Transition(EOF);
      return status == Exited;
    }
  }
}
