/** unifdef preserves meaning: the C preprocessor selects the same text from its output as from its input. */
module UnifdefMeaning {
  import opened UnifdefExpr
  import opened UnifdefSound
  import opened UnifdefMachine

  // ---------------------------------------------------------------------------------------------
  // Conditional inclusion as section 6.10.1 of ISO/IEC 9899:1999 defines it.

  type Valuation = Cond -> bool

  /** Conditions as they stand once some text has been selected: a #define or #undef in it may change them. */
  type History = (Cond, seq<string>) -> bool

  function At(h: History, text: seq<string>): Valuation { c => h(c, text) }

  /** One open group: has a branch been taken, is the current branch active, has #else been seen. */
  datatype Group = Group(taken: bool, active: bool, inElse: bool)

  datatype Cpp = Cpp(groups: seq<Group>, text: seq<string>) | Ill

  predicate Active(groups: seq<Group>) { groups == [] || groups[|groups| - 1].active }

  function Outer(groups: seq<Group>): seq<Group> requires groups != [] { groups[..|groups| - 1] }

  function Inner(groups: seq<Group>): Group requires groups != [] { groups[|groups| - 1] }

  function CppLine(s: Cpp, l: CLine, v: Valuation): Cpp {
    if s.Ill? then Ill
    else match l
      case CIf(c) => s.(groups := s.groups + [Group(v(c), Active(s.groups) && v(c), false)])
      case CElif(c) =>
        if s.groups == [] || Inner(s.groups).inElse then Ill
        else
          var g := Inner(s.groups);
          s.(groups := Outer(s.groups) +
               [Group(g.taken || v(c), Active(Outer(s.groups)) && !g.taken && v(c), false)])
      case CElse =>
        if s.groups == [] || Inner(s.groups).inElse then Ill
        else
          var g := Inner(s.groups);
          s.(groups := Outer(s.groups) + [Group(true, Active(Outer(s.groups)) && !g.taken, true)])
      case CEndif => if s.groups == [] then Ill else s.(groups := Outer(s.groups))
      case CText(t) => if Active(s.groups) then s.(text := s.text + [t]) else s
  }

  function CppLines(s: Cpp, ls: seq<CLine>, h: History): Cpp
    decreases |ls|
  {
    if ls == [] || s.Ill? then s else CppLines(CppLine(s, ls[0], At(h, s.text)), ls[1..], h)
  }

  const FRESH := Cpp([], [])

  /** The text that preprocessing selects, or Ill if the conditionals are not well nested. */
  function Preprocess(ls: seq<CLine>, h: History): Cpp {
    var s := CppLines(FRESH, ls, h);
    if s.Ill? || s.groups != [] then Ill else s
  }

  lemma {:induction false} CppAppend(s: Cpp, a: seq<CLine>, b: seq<CLine>, h: History)
    ensures CppLines(s, a + b, h) == CppLines(CppLines(s, a, h), b, h)
    decreases |a|
  {
    if a == [] {
      assert a + b == b;
    } else if s.Cpp? {
      assert (a + b)[1..] == a[1..] + b;
      CppAppend(CppLine(s, a[0], At(h, s.text)), a[1..], b, h);
    }
  }

  lemma CppOne(s: Cpp, l: CLine, h: History)
    requires s.Cpp?
    ensures CppLines(s, [l], h) == CppLine(s, l, At(h, s.text))
  {
    assert [l][1..] == [];
  }

  // ---------------------------------------------------------------------------------------------
  // The simulation relation.

  predicate Dropping(s: Ifstate) {
    s == FalsePrefix || s == FalseMiddle || s == FalseElse || s == FalseTrailer
  }

  /** States in which the output has an open group of its own. */
  predicate Kept(s: Ifstate) {
    s == PassMiddle || s == FalseMiddle || s == TrueMiddle || s == PassElse
  }

  /** What a state says about the innermost input group `f`, the output group `g` (if kept) and
      whether the surroundings are active. */
  predicate FrameRel(s: Ifstate, f: Group, g: Group, around: bool) {
    match s
    case Outside => false
    case FalsePrefix => !f.taken && !f.active && !f.inElse
    case TruePrefix => f.taken && f.active == around && !f.inElse
    case PassMiddle => f == g && !f.inElse
    case FalseMiddle => f.taken == g.taken && !f.inElse && !g.inElse && !f.active
    case TrueMiddle => f.taken && f.active == g.active && !f.inElse && g.inElse
    case PassElse => f.active == g.active && f.inElse && g.inElse
    case FalseElse => !f.active && f.inElse
    case TrueElse => f.active == around && f.inElse
    case FalseTrailer => !f.active && !f.inElse && (f.taken || !around)
  }

  /** unifdef's stack, the groups open in the input and the groups open in the output. */
  ghost predicate Rel(us: seq<Frame>, ins: seq<Group>, outs: seq<Group>)
    decreases |us|
  {
    if |us| <= 1 then us == [Frame(Outside, false)] && ins == [] && outs == []
    else
      var s := us[|us| - 1].state;
      var us' := us[..|us| - 1];
      && ins != []
      && (Kept(s) ==> outs != [])
      && Rel(us', Outer(ins), if Kept(s) then Outer(outs) else outs)
      && FrameRel(s, Inner(ins), if Kept(s) then Inner(outs) else Group(false, false, false), Active(Outer(ins)))
      && (Dropping(us'[|us'| - 1].state) ==> s == FalseTrailer || s == FalseElse)
  }

  /** Where unifdef drops lines the input is inactive; elsewhere input and output are active together. */
  lemma {:induction false} RelActive(us: seq<Frame>, ins: seq<Group>, outs: seq<Group>)
    requires Rel(us, ins, outs)
    ensures us != []
    ensures if Dropping(us[|us| - 1].state) then !Active(ins) else Active(ins) == Active(outs)
    decreases |us|
  {
    if |us| > 1 {
      var s := us[|us| - 1].state;
      RelActive(us[..|us| - 1], Outer(ins), if Kept(s) then Outer(outs) else outs);
    }
  }

  /** Rebuild the relation after the innermost frame changed. */
  lemma RelTop(us: seq<Frame>, t: Frame, ins: seq<Group>, f: Group, outs: seq<Group>, g: Group)
    requires Rel(us, ins, outs)
    requires FrameRel(t.state, f, if Kept(t.state) then g else Group(false, false, false), Active(ins))
    requires Dropping(us[|us| - 1].state) ==> t.state == FalseTrailer || t.state == FalseElse
    ensures Rel(us + [t], ins + [f], if Kept(t.state) then outs + [g] else outs)
  {
    var us' := us + [t];
    var outs' := if Kept(t.state) then outs + [g] else outs;
    assert us'[..|us'| - 1] == us;
    assert Outer(ins + [f]) == ins;
    if Kept(t.state) { assert Outer(outs') == outs; }
  }

  /** How the classification of a line binds the valuation. */
  predicate Admits(line: Line, v: Valuation) {
    match line.lt
    case TrueI | True => line.src.CIf? && v(line.src.c)
    case FalseI | False => line.src.CIf? && !v(line.src.c)
    case If => line.src.CIf?
    case ElTrue => line.src.CElif? && v(line.src.c)
    case ElFalse => line.src.CElif? && !v(line.src.c)
    case Elif => line.src.CElif?
    case Else => line.src.CElse?
    case Endif => line.src.CEndif?
    case Plain => line.src.CText?
    case Eof => false
  }

  /** The lines a step writes. */
  function Written(p: Proc, r: Outcome): seq<CLine> {
    if r.Failed? || !(p.out <= r.p.out) then [] else r.p.out[|p.out|..]
  }

  /** After a step: both preprocessors still agree and the relation holds again. */
  ghost predicate Agree(p: Proc, r: Outcome, i: Cpp, u: Cpp) {
    r.Running? && p.out <= r.p.out && i.Cpp? && u.Cpp? && i.text == u.text && Rel(r.p.frames, i.groups, u.groups)
  }

  /** A directive that opens a group with condition value `b`. */
  lemma EnterRel(us: seq<Frame>, t: Frame, ins: seq<Group>, outs: seq<Group>, b: bool)
    requires Rel(us, ins, outs)
    requires if Dropping(us[|us| - 1].state) then t.state == FalseTrailer
             else t.state == PassMiddle || t.state == if b then TruePrefix else FalsePrefix
    ensures Rel(us + [t], ins + [Group(b, Active(ins) && b, false)],
                if Kept(t.state) then outs + [Group(b, Active(outs) && b, false)] else outs)
  {
    RelActive(us, ins, outs);
    RelTop(us, t, ins, Group(b, Active(ins) && b, false), outs, Group(b, Active(outs) && b, false));
  }

  /** A later directive of a group: `f` and `g` are the input and output groups after it. */
  lemma SwitchRel(us: seq<Frame>, t: Frame, ins: seq<Group>, outs: seq<Group>, f: Group, g: Group)
    requires |us| >= 2 && Rel(us, ins, outs)
    requires FrameRel(t.state, f, if Kept(t.state) then g else Group(false, false, false), Active(Outer(ins)))
    requires var s := us[|us| - 1].state;
      (s == FalseTrailer || s == FalseElse) ==> t.state == FalseTrailer || t.state == FalseElse
    ensures var base := if Kept(us[|us| - 1].state) then Outer(outs) else outs;
      Rel(us[|us| - 1 := t], Outer(ins) + [f], if Kept(t.state) then base + [g] else base)
  {
    var us' := us[..|us| - 1];
    var base := if Kept(us[|us| - 1].state) then Outer(outs) else outs;
    assert us[|us| - 1 := t] == us' + [t];
    RelTop(us', t, Outer(ins), f, base, g);
  }

  lemma EnterSim(p: Proc, emit: bool, l: CLine, s: Ifstate, ignore: bool, i: Cpp, u: Cpp, h: History)
    requires p.frames != [] && i.Cpp? && u.Cpp? && i.text == u.text && Rel(p.frames, i.groups, u.groups)
    requires l.CIf? && emit == Kept(s) && EnterGroup(p, emit, l, s, ignore).Running?
    requires if Dropping(p.Top().state) then s == FalseTrailer
             else s == PassMiddle || s == if At(h, i.text)(l.c) then TruePrefix else FalsePrefix
    ensures var r := EnterGroup(p, emit, l, s, ignore);
            Agree(p, r, CppLine(i, l, At(h, i.text)), CppLines(u, Written(p, r), h))
  {
    hide Rel;
    var r := EnterGroup(p, emit, l, s, ignore);
    EnterRel(p.frames, r.p.frames[|p.frames|], i.groups, u.groups, At(h, i.text)(l.c));
    assert Written(p, r) == if emit then [l] else [];
    CppOne(u, l, h);
  }

  /** The innermost group after a #elif or #else. */
  function After(f: Group, l: CLine, around: bool, v: Valuation): Group {
    if l.CElif? then Group(f.taken || v(l.c), around && !f.taken && v(l.c), false)
    else Group(true, around && !f.taken, true)
  }

  /** The output group after a step from state `s`, if the next state keeps one. */
  function OutAfter(a: Action, g: Group, l: CLine, around: bool, v: Valuation): Group {
    match a
    case Delif => g
    case Mpass => if l.CElif? then Group(v(l.c), around && v(l.c), false) else g
    case Mtrue => After(g, CElse, around, v)
    case _ => After(g, l, around, v)
  }

  /** Next state of the transition functions that stay in the group. */
  function Target(a: Action): Ifstate {
    match a
    case Strue => TruePrefix
    case Sfalse => FalsePrefix
    case Selse => TrueElse
    case Pelif | Oelif | Mpass => PassMiddle
    case Pelse => PassElse
    case Dfalse | Melif => FalseTrailer
    case Delif => FalseMiddle
    case Delse | Melse => FalseElse
    case Mtrue => TrueMiddle
    case _ => Outside
  }

  /** What those functions write. */
  function Lines(a: Action, l: CLine): seq<CLine> {
    match a
    case Pelif | Oelif | Pelse => [l]
    case Mpass => [AsIf(l)]
    case Mtrue => [CElse]
    case Melif | Melse => [CEndif]
    case _ => []
  }

  /** Action `a` in state `s` fits the directive `l`, and the next state describes the groups after it. */
  predicate Moves(s: Ifstate, a: Action, l: CLine, f: Group, g: Group, around: bool, v: Valuation) {
    && (l.CElif? || l.CElse?) && !f.inElse && Target(a) != Outside
    && OutFits(s, a, l, g)
    && FrameRel(Target(a), After(f, l, around, v),
                if Kept(Target(a)) then OutAfter(a, g, l, around, v) else Group(false, false, false), around)
    && (s == FalseTrailer || s == FalseElse ==> Target(a) == FalseTrailer || Target(a) == FalseElse)
  }

  /** What is written fits the groups open in the output. */
  predicate OutFits(s: Ifstate, a: Action, l: CLine, g: Group) {
    if a == Pelif || a == Oelif || a == Pelse || a == Mtrue then Kept(s) && !g.inElse
    else if a == Mpass then !Kept(s) && l.CElif?
    else if a == Melif || a == Melse then Kept(s) && !Kept(Target(a))
    else Kept(s) == Kept(Target(a))
  }

  lemma TableRelKept(s: Ifstate, line: Line, f: Group, g: Group, around: bool, v: Valuation)
    requires Kept(s) && Admits(line, v) && Target(Table(s, line)) != Outside && FrameRel(s, f, g, around)
    ensures Moves(s, Table(s, line), line.src, f, g, around, v)
  {
    match s { case PassMiddle => case FalseMiddle => case TrueMiddle => case PassElse => }
  }

  lemma TableRelDropped(s: Ifstate, line: Line, f: Group, g: Group, around: bool, v: Valuation)
    requires !Kept(s) && Admits(line, v) && Target(Table(s, line)) != Outside
    requires FrameRel(s, f, Group(false, false, false), around)
    ensures Moves(s, Table(s, line), line.src, f, g, around, v)
  {
    match s { case FalsePrefix => case TruePrefix => case FalseElse => case TrueElse => case FalseTrailer => }
  }

  /** The table is right about groups: the state after a directive describes the groups after it. */
  lemma TableRel(s: Ifstate, line: Line, f: Group, g: Group, around: bool, v: Valuation)
    requires Admits(line, v) && Target(Table(s, line)) != Outside
    requires FrameRel(s, f, if Kept(s) then g else Group(false, false, false), around)
    ensures Moves(s, Table(s, line), line.src, f, g, around, v)
  {
    if Kept(s) {
      TableRelKept(s, line, f, g, around, v);
    } else {
      TableRelDropped(s, line, f, g, around, v);
    }
  }

  /** The groups the output preprocessor has open after the one line written by a function that stays in the group. */
  lemma OutLine(a: Action, s: Ifstate, l: CLine, u: Cpp, base: seq<Group>, g: Group, around: bool, v: Valuation)
    requires Kept(Target(a)) ==> around == Active(base)
    requires u.Cpp? && u.groups == if Kept(s) then base + [g] else base
    requires Target(a) != Outside && (l.CElif? || l.CElse?) && Lines(a, l) != []
    requires OutFits(s, a, l, g)
    ensures CppLine(u, Lines(a, l)[0], v)
      == u.(groups := if Kept(Target(a)) then base + [OutAfter(a, g, l, around, v)] else base)
  {
    if Kept(s) { assert Outer(base + [g]) == base && Inner(base + [g]) == g; }
  }

  /** What the output preprocessor makes of the lines written by a function that stays in the group. */
  lemma OutLines(a: Action, s: Ifstate, l: CLine, u: Cpp, base: seq<Group>, g: Group, around: bool, h: History)
    requires Kept(Target(a)) ==> around == Active(base)
    requires u.Cpp? && u.groups == if Kept(s) then base + [g] else base
    requires Target(a) != Outside && (l.CElif? || l.CElse?)
    requires OutFits(s, a, l, g)
    ensures var u' := CppLines(u, Lines(a, l), h);
      u' == u.(groups := if Kept(Target(a)) then base + [OutAfter(a, g, l, around, At(h, u.text))] else base)
  {
    hide CppLine, At;
    if Lines(a, l) != [] {
      hide CppLines, OutAfter, OutFits;
      CppOne(u, Lines(a, l)[0], h);
      OutLine(a, s, l, u, base, g, around, At(h, u.text));
    }
  }

  /** A directive inside a group, with the action that fits it. */
  lemma GroupSim(us: seq<Frame>, t: Frame, a: Action, l: CLine, i: Cpp, u: Cpp, h: History, g: Group, base: seq<Group>)
    requires i.Cpp? && u.Cpp? && i.text == u.text && |us| >= 2 && Rel(us, i.groups, u.groups) && t.state == Target(a)
    requires i.groups != [] && (Kept(us[|us| - 1].state) ==> u.groups != [] && g == Inner(u.groups))
    requires base == if Kept(us[|us| - 1].state) then Outer(u.groups) else u.groups
    requires Moves(us[|us| - 1].state, a, l, Inner(i.groups), g, Active(Outer(i.groups)), At(h, i.text))
    ensures CppLine(i, l, At(h, i.text)).Cpp? && CppLine(i, l, At(h, i.text)).text == i.text
    ensures var u' := CppLines(u, Lines(a, l), h);
      u'.Cpp? && u'.text == u.text && Rel(us[|us| - 1 := t], CppLine(i, l, At(h, i.text)).groups, u'.groups)
  {
    hide FrameRel, OutFits, CppLine, CppLines, Lines, At, Rel, After, OutAfter;
    var s := us[|us| - 1].state;
    var around, v := Active(Outer(i.groups)), At(h, i.text);
    OuterActive(us, i.groups, u.groups);
    if Kept(s) { assert u.groups == base + [g]; }
    OutLines(a, s, l, u, base, g, around, h);
    InLine(i, l, v);
    SwitchRel(us, t, i.groups, u.groups, After(Inner(i.groups), l, around, v), OutAfter(a, g, l, around, v));
  }

  lemma InLine(i: Cpp, l: CLine, v: Valuation)
    requires i.Cpp? && i.groups != [] && !Inner(i.groups).inElse && (l.CElif? || l.CElse?)
    ensures CppLine(i, l, v) ==
      i.(groups := Outer(i.groups) + [After(Inner(i.groups), l, Active(Outer(i.groups)), v)])
  {
  }

  /** What the relation says of the innermost group. */
  lemma RelInner(us: seq<Frame>, ins: seq<Group>, outs: seq<Group>)
    requires |us| >= 2 && Rel(us, ins, outs)
    ensures var s := us[|us| - 1].state;
      && ins != [] && (Kept(s) ==> outs != [])
      && FrameRel(s, Inner(ins), if Kept(s) then Inner(outs) else Group(false, false, false), Active(Outer(ins)))
  {
  }

  /** Around a group that is not wholly dropped, input and output are active together. */
  lemma OuterActive(us: seq<Frame>, ins: seq<Group>, outs: seq<Group>)
    requires |us| >= 2 && Rel(us, ins, outs)
    ensures var s := us[|us| - 1].state;
      s == FalseTrailer || s == FalseElse || Active(Outer(ins)) == Active(if Kept(s) then Outer(outs) else outs)
  {
    var s := us[|us| - 1].state;
    RelActive(us[..|us| - 1], Outer(ins), if Kept(s) then Outer(outs) else outs);
  }

  /** A step that stays in the group. */
  lemma SwitchSim(o: MachineOptions, p: Proc, line: Line, i: Cpp, u: Cpp, h: History)
    requires p.Ok() && i.Cpp? && u.Cpp? && i.text == u.text && Rel(p.frames, i.groups, u.groups)
    requires Admits(line, At(h, i.text)) && Target(Table(p.Top().state, line)) != Outside
    requires Step(o, p, line).Running?
    ensures var r := Step(o, p, line);
            Agree(p, r, CppLine(i, line.src, At(h, i.text)), CppLines(u, Written(p, r), h))
  {
    hide Act, FrameRel, Moves, CppLine, CppLines, Rel, Table, Target, Lines, At, Admits, Kept, Written;
    var s := p.Top().state;
    var a := Table(s, line);
    InGroup(p, line, At(h, i.text));
    RelInner(p.frames, i.groups, u.groups);
    var base := if Kept(s) then Outer(u.groups) else u.groups;
    var g := if Kept(s) then Inner(u.groups) else Group(false, false, false);
    TableRel(s, line, Inner(i.groups), g, Active(Outer(i.groups)), At(h, i.text));
    SwitchShape(o, p, a, line.src);
    var r := Step(o, p, line);
    assert r == Act(o, p, a, line.src);
    GroupSim(p.frames, r.p.Top(), a, line.src, i, u, h, g, base);
  }

  lemma InGroup(p: Proc, line: Line, v: Valuation)
    requires p.Ok() && Admits(line, v) && Target(Table(p.Top().state, line)) != Outside
    ensures |p.frames| >= 2
  {
  }

  lemma SwitchShape(o: MachineOptions, p: Proc, a: Action, l: CLine)
    requires p.Ok() && |p.frames| >= 2 && Target(a) != Outside && Act(o, p, a, l).Running?
    ensures var q := Act(o, p, a, l).p;
      && |q.frames| == |p.frames| && q.frames == p.frames[|p.frames| - 1 := q.Top()] && q.Top().state == Target(a)
      && q.out == p.out + Lines(a, l)
      && Written(p, Act(o, p, a, l)) == Lines(a, l)
  {
  }

  /** A line that closes a group: #endif, written or not. */
  lemma EndifSim(p: Proc, emit: bool, i: Cpp, u: Cpp, h: History)
    requires p.Ok() && |p.frames| >= 2 && i.Cpp? && u.Cpp? && i.text == u.text && Rel(p.frames, i.groups, u.groups)
    requires emit == Kept(p.Top().state)
    ensures var r := Running(if emit then p.Unnest().Emit(CEndif) else p.Unnest());
            Agree(p, r, CppLine(i, CEndif, At(h, i.text)), CppLines(u, Written(p, r), h))
  {
    var r := Running(if emit then p.Unnest().Emit(CEndif) else p.Unnest());
    assert Written(p, r) == if emit then [CEndif] else [];
    CppOne(u, CEndif, h);
  }

  /** A plain line, kept or dropped. */
  lemma PlainSim(p: Proc, emit: bool, l: CLine, i: Cpp, u: Cpp, h: History)
    requires p.Ok() && i.Cpp? && u.Cpp? && i.text == u.text && Rel(p.frames, i.groups, u.groups)
    requires l.CText? && emit == !Dropping(p.Top().state)
    ensures var r := Running(if emit then p.Emit(l) else p);
            Agree(p, r, CppLine(i, l, At(h, i.text)), CppLines(u, Written(p, r), h))
  {
    var r := Running(if emit then p.Emit(l) else p);
    RelActive(p.frames, i.groups, u.groups);
    assert Written(p, r) == if emit then [l] else [];
    CppOne(u, l, h);
  }

  predicate Suits(s: Ifstate, a: Action, l: CLine, v: Valuation) {
    match a
    case Print => l.CText? && !Dropping(s)
    case Drop => l.CText? && Dropping(s)
    case Pendif => l.CEndif? && Kept(s) && s != Outside
    case Dendif => l.CEndif? && !Kept(s) && s != Outside
    case Fdrop | Idrop => l.CIf? && Dropping(s)
    case Fpass | Oif | Oiffy => l.CIf? && !Dropping(s)
    case Ftrue | Itrue => l.CIf? && !Dropping(s) && v(l.c)
    case Ffalse | Ifalse => l.CIf? && !Dropping(s) && !v(l.c)
    case Done => false
    case _ => true
  }

  /** The other cells of the table: which actions open a group, close one or pass text, and where. */
  lemma TableRest(s: Ifstate, line: Line, v: Valuation)
    requires Admits(line, v) && Target(Table(s, line)) == Outside
    ensures Suits(s, Table(s, line), line.src, v)
  {
    match s {
      case Outside => case FalsePrefix => case TruePrefix => case PassMiddle => case FalseMiddle =>
      case TrueMiddle => case PassElse => case FalseElse => case TrueElse => case FalseTrailer =>
    }
  }

  /** One step of unifdef against the input line it reads and the lines it writes. */
  lemma StepSim(o: MachineOptions, p: Proc, line: Line, i: Cpp, u: Cpp, h: History)
    requires p.Ok() && i.Cpp? && u.Cpp? && i.text == u.text && Rel(p.frames, i.groups, u.groups)
    requires Admits(line, At(h, i.text)) && Step(o, p, line).Running?
    ensures var r := Step(o, p, line);
            Agree(p, r, CppLine(i, line.src, At(h, i.text)), CppLines(u, Written(p, r), h))
  {
    var s := p.Top().state;
    var a := Table(s, line);
    var l := line.src;
    if Target(a) != Outside {
      SwitchSim(o, p, line, i, u, h);
    } else {
      TableRest(s, line, At(h, i.text));
      ActSim(o, p, a, l, i, u, h);
    }
  }

  lemma ActSim(o: MachineOptions, p: Proc, a: Action, l: CLine, i: Cpp, u: Cpp, h: History)
    requires p.Ok() && i.Cpp? && u.Cpp? && i.text == u.text && Rel(p.frames, i.groups, u.groups)
    requires Target(a) == Outside && (|p.frames| == 1 ==> Ungrouped(a)) && Act(o, p, a, l).Running?
    requires Suits(p.Top().state, a, l, At(h, i.text))
    ensures var r := Act(o, p, a, l);
            Agree(p, r, CppLine(i, l, At(h, i.text)), CppLines(u, Written(p, r), h))
  {
    hide Agree, Rel, CppLine, CppLines, Written, EnterGroup;
    match a {
      case Print => PlainSim(p, true, l, i, u, h);
      case Drop => PlainSim(p, false, l, i, u, h);
      case Pendif => EndifSim(p, true, i, u, h);
      case Dendif => EndifSim(p, false, i, u, h);
      case Fdrop => EnterSim(p, false, l, FalseTrailer, false, i, u, h);
      case Idrop => EnterSim(p, false, l, FalseTrailer, true, i, u, h);
      case Fpass => EnterSim(p, true, l, PassMiddle, false, i, u, h);
      case Oif => EnterSim(p, true, l, PassMiddle, false, i, u, h);
      case Oiffy => EnterSim(p, true, l, PassMiddle, true, i, u, h);
      case Ftrue => EnterSim(p, false, l, TruePrefix, false, i, u, h);
      case Itrue => EnterSim(p, false, l, TruePrefix, true, i, u, h);
      case Ffalse => EnterSim(p, false, l, FalsePrefix, false, i, u, h);
      case Ifalse => EnterSim(p, false, l, FalsePrefix, true, i, u, h);
      case _ =>
    }
  }

  // ---------------------------------------------------------------------------------------------
  // Whole runs.

  function Sources(lines: seq<Line>): (srcs: seq<CLine>)
    ensures |srcs| == |lines|
  {
    seq(|lines|, k requires 0 <= k < |lines| => lines[k].src)
  }

  /** The classification binds the valuation at every time. */
  ghost predicate AdmitsAll(lines: seq<Line>, h: History) {
    forall k, text :: 0 <= k < |lines| ==> Admits(lines[k], At(h, text))
  }

  lemma {:induction false} RunSim(o: MachineOptions, p: Proc, lines: seq<Line>, i: Cpp, u: Cpp, h: History)
    requires p.Ok() && i.Cpp? && u.Cpp? && i.text == u.text && Rel(p.frames, i.groups, u.groups)
    requires AdmitsAll(lines, h)
    requires Run(o, p, lines).Finished?
    ensures p.out <= Run(o, p, lines).p.out
    ensures var i' := CppLines(i, Sources(lines), h);
            var u' := CppLines(u, Run(o, p, lines).p.out[|p.out|..], h);
            i'.Cpp? && i'.groups == [] && u' == i'
    decreases |lines|
  {
    hide Step, CppLine, At, Admits;
    if lines == [] {
      StepOk(o, p, EOF);
      RunEnd(p.frames, i.groups, u.groups);
      assert p.out[|p.out|..] == [];
    } else {
      var v := At(h, i.text);
      StepOk(o, p, lines[0]);
      NotFinished(o, p, lines[0], v);
      var r := Step(o, p, lines[0]);
      StepSim(o, p, lines[0], i, u, h);
      RunSim(o, r.p, lines[1..], CppLine(i, lines[0].src, v), CppLines(u, Written(p, r), h), h);
      WrittenFirst(u, p.out, r.p.out, Run(o, r.p, lines[1..]).p.out, h);
      assert Sources(lines)[1..] == Sources(lines[1..]);
    }
  }

  lemma RunEnd(us: seq<Frame>, ins: seq<Group>, outs: seq<Group>)
    requires Rel(us, ins, outs) && |us| == 1
    ensures ins == [] && outs == []
  {
  }

  lemma WrittenFirst(u: Cpp, a: seq<CLine>, b: seq<CLine>, c: seq<CLine>, h: History)
    requires a <= b <= c
    ensures CppLines(u, c[|a|..], h) == CppLines(CppLines(u, b[|a|..], h), c[|b|..], h)
  {
    assert c[|a|..] == b[|a|..] + c[|b|..];
    CppAppend(u, b[|a|..], c[|b|..], h);
  }

  lemma NotFinished(o: MachineOptions, p: Proc, line: Line, v: Valuation)
    requires p.Ok() && Admits(line, v)
    ensures !Step(o, p, line).Finished?
  {
    EofOnly(p.Top().state, line, v);
  }

  lemma EofOnly(s: Ifstate, line: Line, v: Valuation)
    requires Admits(line, v)
    ensures Table(s, line) != Done
  {
    if Target(Table(s, line)) == Outside { TableRest(s, line, v); }
  }

  /** unifdef preserves meaning: whenever a run ends without error, then for every valuation the
      classification allows, the input is well nested, the output is well nested, and preprocessing
      either one selects exactly the same text. */
  lemma MeaningPreserved(o: MachineOptions, lines: seq<Line>, h: History)
    requires AdmitsAll(lines, h) && Run(o, START, lines).Finished?
    ensures Preprocess(Sources(lines), h).Cpp?
    ensures Preprocess(Run(o, START, lines).p.out, h) == Preprocess(Sources(lines), h)
  {
    RunSim(o, START, lines, FRESH, FRESH, h);
    var out := Run(o, START, lines).p.out;
    assert out[0..] == out;
  }

  // ---------------------------------------------------------------------------------------------
  // From symbols and tokens: classification and transformation together.

  /** The truth of a condition under a valuation of the symbols. Lines unifdef cannot read have any value. */
  ghost predicate Holds(o: MachineOptions, c: Cond, env: Env) {
    match c
    case Ifdef(name, negated, _) => env.isDefined(name) != negated
    case Expr(toks) =>
      if exists e :: Reads(o.eval, toks, e)
      then var e :| Reads(o.eval, toks, e); ValueOf(e, env) != 0
      else env.odd(toks) != 0
  }

  /** Every number on the line, and every numeric symbol value, fits an int. */
  ghost predicate SourceFits(o: MachineOptions, l: CLine) {
    && (forall s :: s in o.eval.syms && o.eval.syms[s].Value? ==> FitsInt(o.eval.syms[s].n))
    && ((l.CIf? || l.CElif?) && l.c.Expr? ==> NumbersFit(l.c.toks))
  }

  predicate NumbersFit(toks: seq<Token>) {
    forall k :: 0 <= k < |toks| && toks[k].Number? ==> FitsInt(toks[k].n)
  }

  lemma {:induction false} SpelledFits(o: Options, e: Expr)
    requires NumbersFit(Spell(e))
    requires forall s :: s in o.syms && o.syms[s].Value? ==> FitsInt(o.syms[s].n)
    ensures Fits(o, e)
  {
    match e {
      case Bin(op, l, r) =>
        NumbersFitPart(Spell(l) + [Op(op)], Spell(r));
        NumbersFitPart(Spell(l), [Op(op)]);
        SpelledFits(o, l);
        SpelledFits(o, r);
      case Not(f) =>
        NumbersFitPart([Bang], Spell(f));
        SpelledFits(o, f);
      case Paren(f) =>
        NumbersFitPart([Open] + Spell(f), [Close]);
        NumbersFitPart([Open], Spell(f));
        SpelledFits(o, f);
      case Num(n) => assert Spell(e)[0] == Number(n);
      case _ =>
    }
  }

  lemma NumbersFitPart(a: seq<Token>, b: seq<Token>)
    requires NumbersFit(a + b)
    ensures NumbersFit(a) && NumbersFit(b)
  {
    forall k | 0 <= k < |a| && a[k].Number? ensures FitsInt(a[k].n) {
      assert (a + b)[k] == a[k];
    }
    forall k | 0 <= k < |b| && b[k].Number? ensures FitsInt(b[k].n) {
      assert (a + b)[|a| + k] == b[k];
    }
  }

  /** Classification never binds a condition to a value it does not have. */
  lemma ClassifyAdmits(o: MachineOptions, src: CLine, dodgy: bool, env: Env)
    requires Consistent(env, o.eval) && SourceFits(o, src)
    ensures Admits(Classify(o, src, dodgy), c => Holds(o, c, env))
  {
    if (src.CIf? || src.CElif?) && src.c.Expr? {
      var toks := src.c.toks;
      IfEvalSound(o.eval, toks, env);
      if IfEval(o.eval, toks).Known? {
        var e :| Reads(o.eval, toks, e) && (Holds(o, src.c, env) <==> ValueOf(e, env) != 0);
        SpelledFits(o.eval, e);
      }
    }
  }

  function ClassifyAll(o: MachineOptions, srcs: seq<(CLine, bool)>): seq<Line> {
    seq(|srcs|, k requires 0 <= k < |srcs| => Classify(o, srcs[k].0, srcs[k].1))
  }

  /** The whole program on source lines: for every valuation of the symbols that agrees with the command line
      at every time, the output preprocesses to the same text as the input. The valuation may depend on the text
      selected so far, as it does where that text defines or undefines other symbols. */
  lemma UnifdefPreservesMeaning(o: MachineOptions, srcs: seq<(CLine, bool)>, env: seq<string> -> Env)
    requires forall text :: Consistent(env(text), o.eval)
    requires forall k :: 0 <= k < |srcs| ==> SourceFits(o, srcs[k].0)
    requires Run(o, START, ClassifyAll(o, srcs)).Finished?
    ensures var h := (c: Cond, text: seq<string>) => Holds(o, c, env(text));
      var input := seq(|srcs|, k requires 0 <= k < |srcs| => srcs[k].0);
      && Preprocess(input, h).Cpp?
      && Preprocess(Run(o, START, ClassifyAll(o, srcs)).p.out, h) == Preprocess(input, h)
  {
    hide Run, Preprocess, Holds, Admits, SourceFits;
    var h := (c: Cond, text: seq<string>) => Holds(o, c, env(text));
    var lines := ClassifyAll(o, srcs);
    forall k, text | 0 <= k < |lines| ensures Admits(lines[k], At(h, text)) {
      ClassifyAdmits(o, srcs[k].0, srcs[k].1, env(text));
      AdmitsExtensional(lines[k], c => Holds(o, c, env(text)), At(h, text));
    }
    MeaningPreserved(o, lines, h);
    assert Sources(lines) == seq(|srcs|, k requires 0 <= k < |srcs| => srcs[k].0);
  }

  lemma AdmitsExtensional(line: Line, v: Valuation, w: Valuation)
    requires Admits(line, v) && forall c :: v(c) == w(c)
    ensures Admits(line, w)
  {
  }

  // ---------------------------------------------------------------------------------------------
  // What classification must get right.

  /** One line of text under one condition. */
  function OneIf(c: Cond, t: string): seq<(CLine, bool)> { [(CIf(c), false), (CText(t), false), (CEndif, false)] }

  lemma OneIfSelects(c: Cond, t: string, h: History)
    ensures Preprocess([CIf(c), CText(t), CEndif], h) == Cpp([], if h(c, []) then [t] else [])
  {
    var s1 := CppLine(FRESH, CIf(c), At(h, []));
    var s2 := CppLine(s1, CText(t), At(h, []));
    var s3 := CppLine(s2, CEndif, At(h, s2.text));
    assert s1.Cpp? && s1.text == [] && s2.Cpp? && s3 == Cpp([], if h(c, []) then [t] else []);
    hide CppLine;
    CppMore(FRESH, CIf(c), [CText(t), CEndif], h);
    CppMore(s1, CText(t), [CEndif], h);
    CppOne(s2, CEndif, h);
  }

  lemma CppMore(s: Cpp, l: CLine, ls: seq<CLine>, h: History)
    requires s.Cpp?
    ensures CppLines(s, [l] + ls, h) == CppLines(CppLine(s, l, At(h, s.text)), ls, h)
  {
    assert ([l] + ls)[1..] == ls;
  }

  lemma TextSelects(ls: seq<CLine>, t: string, h: History)
    requires ls == [] || ls == [CText(t)]
    ensures Preprocess(ls, h) == Cpp([], if ls == [] then [] else [t])
  {
    if ls != [] { CppOne(FRESH, CText(t), h); }
  }

  /** The whole text is kept, dropped, or left under its condition. */
  function OneIfLeft(lt: Linetype, c: Cond, t: string): seq<CLine> {
    match lt
    case True | TrueI => [CText(t)]
    case False | FalseI => []
    case _ => [CIf(c), CText(t), CEndif]
  }

  /** The state after the first line of a group that is not inside another. */
  function Opened(lt: Linetype): Ifstate {
    match lt
    case True | TrueI => TruePrefix
    case False | FalseI => FalsePrefix
    case _ => PassMiddle
  }

  lemma FirstStep(o: MachineOptions, c: Cond)
    ensures var lt := ClassifyIf(o, c);
      Step(o, START, Classify(o, CIf(c), false)) ==
        Running(Proc(START.frames + [Frame(Opened(lt), lt in {TrueI, FalseI})], if lt == If then [CIf(c)] else []))
  {
    hide IfEval;
  }

  lemma LastRows(lt: Linetype, t: string)
    ensures var s := Opened(lt);
      && Table(s, Line(Plain, false, CText(t))) == (if s == FalsePrefix then Drop else Print)
      && Table(s, Line(Endif, false, CEndif)) == (if s == PassMiddle then Pendif else Dendif)
      && Table(Outside, EOF) == Done
  {
  }

  function LastLines(s: Ifstate, t: string): seq<CLine> {
    if s == FalsePrefix then [] else if s == TruePrefix then [CText(t)] else [CText(t), CEndif]
  }

  lemma LastSteps(o: MachineOptions, lt: Linetype, f: Frame, out: seq<CLine>, t: string)
    requires f.state == Opened(lt)
    ensures var p := Proc(START.frames + [f], out);
      && p.Ok()
      && Run(o, p, [Line(Plain, false, CText(t)), Line(Endif, false, CEndif)]) ==
           Finished(Proc(START.frames, out + LastLines(f.state, t)))
  {
    hide Table;
    LastRows(lt, t);
    var p := Proc(START.frames + [f], out);
    var text, endif := Line(Plain, false, CText(t)), Line(Endif, false, CEndif);
    var q := if f.state == FalsePrefix then p else p.Emit(CText(t));
    assert Step(o, p, text) == Running(q);
    var q' := Proc(START.frames, out + LastLines(f.state, t));
    assert Step(o, q, endif) == Running(q') by { assert q.Unnest().frames == START.frames; }
    assert Step(o, q', EOF) == Finished(q');
    hide Step;
    assert [text, endif][1..] == [endif];
    assert Run(o, q, [endif]) == Run(o, q', []);
  }

  lemma OneIfRun(o: MachineOptions, c: Cond, t: string)
    ensures var r := Run(o, START, ClassifyAll(o, OneIf(c, t)));
      r.Finished? && r.p.out == OneIfLeft(ClassifyIf(o, c), c, t)
  {
    hide Step, ClassifyIf, Table;
    var lines, lt := ClassifyAll(o, OneIf(c, t)), ClassifyIf(o, c);
    FirstStep(o, c);
    assert lines[1..] == [Line(Plain, false, CText(t)), Line(Endif, false, CEndif)];
    assert lt in {TrueI, FalseI, If, True, False} by { Kinds(o, c); }
    LastSteps(o, lt, Frame(Opened(lt), lt in {TrueI, FalseI}), if lt == If then [CIf(c)] else [], t);
  }

  lemma Kinds(o: MachineOptions, c: Cond)
    ensures ClassifyIf(o, c) in {TrueI, FalseI, If, True, False}
  {
  }

  /** Some program is changed as soon as one condition is called true or false against its value. */
  lemma OneIfIff(o: MachineOptions, c: Cond, t: string, h: History)
    ensures var r := Run(o, START, ClassifyAll(o, OneIf(c, t)));
      && r.Finished?
      && (Preprocess(r.p.out, h) == Preprocess([CIf(c), CText(t), CEndif], h) <==>
            Admits(Classify(o, CIf(c), false), At(h, [])))
  {
    OneIfRun(o, c, t);
    OneIfSelects(c, t, h);
    var out := OneIfLeft(ClassifyIf(o, c), c, t);
    if out == [] || out == [CText(t)] { TextSelects(out, t, h); }
    hide Preprocess, Run;
  }

  /** By default, text under `#if 4294967296 == 0 || defined(X)` is kept for good, and where X is not defined the input
      selects nothing. */
  lemma DefaultProgram(o: MachineOptions, env: Env, t: string, h: History)
    requires !o.eval.strictlogic && !o.eval.killconsts && !env.isDefined("X")
    requires h(Expr(Spell(TOO_WIDE)), []) <==> ValueOf(TOO_WIDE, env) != 0
    ensures var c := Expr(Spell(TOO_WIDE));
      var r := Run(o, START, ClassifyAll(o, OneIf(c, t)));
      && r.Finished? && Preprocess(r.p.out, h) == Cpp([], [t])
      && Preprocess([CIf(c), CText(t), CEndif], h) == Cpp([], [])
  {
    hide Preprocess, Run, Gram, Spell, ValueOf, IfEval;
    DefaultExample(o.eval, env);
    OneIfRun(o, Expr(Spell(TOO_WIDE)), t);
    OneIfSelects(Expr(Spell(TOO_WIDE)), t, h);
    TextSelects([CText(t)], t, h);
  }
}
