/** Properties of the interpreter: where each jump lands, the single GOSUB
    slot, suspension at WAIT and INPUT and the resumption by the key
    handlers, and the invariants every run keeps. */
module MachineProps {
  import opened Wrappers
  import opened JsText
  import opened Values
  import opened Program
  import opened Machine

  // ---------------------------------------------------------------------
  // One instruction at a time
  // ---------------------------------------------------------------------

  /** A negative index reads game[i], which is undefined: the loop throws. */
  lemma NegativeIndexCrashes(prog: seq<Instr>, ev: string -> Option<Value>, i: int, s: State, fuel: nat)
    requires i < 0
    ensures Loop(prog, ev, i, s, fuel) == (Crashed, s.(curLn := i))
  {
  }

  /** SET stores its value under the variable's name as written, "$" included. */
  lemma SetStep(prog: seq<Instr>, ev: string -> Option<Value>, i: int, s: State, fuel: nat)
    requires 0 <= i < |prog| && prog[i].Set?
    ensures Loop(prog, ev, i, s, fuel + 1)
      == Loop(prog, ev, i + 1, s.(vm := s.vm[prog[i].varName := prog[i].initVal], curLn := i + 1), fuel)
  {
  }

  /** PRINT shows its interpolated text, as a break line when that is empty,
      with its alignment and colour, and goes on with the next position; an
      interpolation that does not finish leaves the run out of fuel. */
  lemma PrintStep(prog: seq<Instr>, ev: string -> Option<Value>, i: int, s: State, fuel: nat)
    requires 0 <= i < |prog| && prog[i].Print?
    ensures var ins := prog[i]; var r := RenderVarsSpec(s.vm, ins.text, fuel + 1);
      && (r.None? ==> Loop(prog, ev, i, s, fuel + 1) == (OutOfFuel, s.(curLn := i)))
      && (r.Some? ==>
            var shown := Shown(r.value, false, Some(ins.alignment), ins.color);
            && shown == Render(s.vm, ins.text, false, Some(ins.alignment), ins.color, fuel + 1).value
            && Loop(prog, ev, i, s, fuel + 1) == Loop(prog, ev, i + 1, s.(output := s.output + [shown], curLn := i + 1), fuel))
  {
    LoopUnfold(prog, ev, i, s, fuel + 1);
  }

  /** EXPR evaluates its interpolated expression and stores the result under
      its output variable; an expression that throws crashes the run with the
      line at the EXPR. */
  lemma ExprStep(prog: seq<Instr>, ev: string -> Option<Value>, i: int, s: State, fuel: nat)
    requires 0 <= i < |prog| && prog[i].Expr?
    ensures var ins := prog[i]; var r := RenderVarsSpec(s.vm, ins.expr, fuel + 1);
      && (r.None? ==> Loop(prog, ev, i, s, fuel + 1) == (OutOfFuel, s.(curLn := i)))
      && (r.Some? && ev(r.value).None? ==> Loop(prog, ev, i, s, fuel + 1) == (Crashed, s.(curLn := i)))
      && (r.Some? && ev(r.value).Some? ==>
            Loop(prog, ev, i, s, fuel + 1)
              == Loop(prog, ev, i + 1, s.(vm := s.vm[ins.vOutput := ev(r.value).value], curLn := i + 1), fuel))
  {
    LoopUnfold(prog, ev, i, s, fuel + 1);
  }

  /** A program of one SET and one EXPR: the EXPR sees the store the SET
      left, and the run stops after it with the result stored. */
  lemma SetThenExpr(prog: seq<Instr>, ev: string -> Option<Value>, s: State, fuel: nat, e: string, v: Value)
    requires |prog| == 2 && prog[0].Set? && prog[1].Expr?
    requires RenderVarsSpec(s.vm[prog[0].varName := prog[0].initVal], prog[1].expr, fuel + 1) == Some(e)
    requires ev(e) == Some(v)
    ensures Loop(prog, ev, 0, s, fuel + 2)
      == (Stopped, s.(vm := s.vm[prog[0].varName := prog[0].initVal][prog[1].vOutput := v], curLn := 2))
  {
    var s1 := s.(vm := s.vm[prog[0].varName := prog[0].initVal], curLn := 1);
    SetStep(prog, ev, 0, s, fuel + 1);
    ExprStep(prog, ev, 1, s1, fuel);
  }

  /** `10 SET X = 5` then `20 EXPR "[X]+2" Y` hands `5+2` to calculate and
      stores its result under Y. */
  lemma ExprExample(prog: seq<Instr>, ev: string -> Option<Value>, s: State, fuel: nat)
    requires prog == [Set(10, "X", Num(5), "X = 5"), Expr(20, "[X]+2", "Y")]
    requires ev("5+2") == Some(Num(7))
    ensures Loop(prog, ev, 0, s, fuel + 2) == (Stopped, s.(vm := s.vm["X" := Num(5)]["Y" := Num(7)], curLn := 2))
  {
    assert RenderVarsSpec(s.vm["X" := Num(5)], "[X]+2", fuel + 1) == Some("5+2") by {
      RenderVarsSumExample(s.vm["X" := Num(5)], fuel + 1);
    }
    assert prog[0].varName == "X" && prog[0].initVal == Num(5);
    assert prog[1].expr == "[X]+2" && prog[1].vOutput == "Y";
    SetThenExpr(prog, ev, s, fuel, "5+2", Num(7));
  }

  /** GOTO runs next the first instruction carrying its label, except that a
      label at index 0 makes it run index 1; a missing label throws with the
      line still at the GOTO. */
  lemma GotoStep(prog: seq<Instr>, ev: string -> Option<Value>, i: int, s: State, fuel: nat)
    requires 0 <= i < |prog| && prog[i].Goto?
    ensures var k := FindLabel(prog, prog[i].target);
      Loop(prog, ev, i, s, fuel + 1) ==
        if k < 0 then (Crashed, s.(curLn := i))
        else if k == 0 then Loop(prog, ev, 1, s.(curLn := 0), fuel)
        else Loop(prog, ev, k, s.(curLn := k - 1), fuel)
  {
  }

  /** IF records its own index in `waitOn`, then runs the instruction
      handleCond chose; FIRST on an unset variable throws. */
  lemma IfStep(prog: seq<Instr>, ev: string -> Option<Value>, i: int, s: State, fuel: nat)
    requires 0 <= i < |prog| && prog[i].If?
    ensures var ins := prog[i];
      var c := Compare(Lookup(s.vm, ins.vName), ins.operator, ins.opTo, ins.firstOnly);
      && (c.None? ==> Loop(prog, ev, i, s, fuel + 1) == (Crashed, s.(curLn := i, waitOn := Some(i))))
      && (c.Some? ==>
            var t := CondTarget(prog, i, c.value, ins.onTrue, ins.onFalse);
            Loop(prog, ev, i, s, fuel + 1) == Loop(prog, ev, t, s.(curLn := t - 1, waitOn := Some(i)), fuel))
  {
  }

  /** A false IF without ELSE, or with ELSE 0, runs the next instruction. */
  lemma IfFalseFallsThrough(prog: seq<Instr>, ev: string -> Option<Value>, i: int, s: State, fuel: nat)
    requires 0 <= i < |prog| && prog[i].If?
    requires Compare(Lookup(s.vm, prog[i].vName), prog[i].operator, prog[i].opTo, prog[i].firstOnly) == Some(false)
    requires prog[i].onFalse.None? || prog[i].onFalse == Some(0)
    ensures Loop(prog, ev, i, s, fuel + 1) == Loop(prog, ev, i + 1, s.(curLn := i, waitOn := Some(i)), fuel)
  {
    IfStep(prog, ev, i, s, fuel);
  }

  /** A true IF, or a false one with a non-zero ELSE, runs exactly the first
      instruction carrying the chosen label. */
  lemma IfJumps(prog: seq<Instr>, ev: string -> Option<Value>, i: int, s: State, fuel: nat, k: nat)
    requires 0 <= i < |prog| && prog[i].If?
    requires var c := Compare(Lookup(s.vm, prog[i].vName), prog[i].operator, prog[i].opTo, prog[i].firstOnly);
      c.Some? && (c.value || (prog[i].onFalse.Some? && prog[i].onFalse.value != 0))
    requires var c := Compare(Lookup(s.vm, prog[i].vName), prog[i].operator, prog[i].opTo, prog[i].firstOnly);
      var target := if c.value then prog[i].onTrue else prog[i].onFalse.value;
      k < |prog| && prog[k].ln == target && forall j :: 0 <= j < k ==> prog[j].ln != target
    ensures Loop(prog, ev, i, s, fuel + 1) == Loop(prog, ev, k, s.(curLn := k - 1, waitOn := Some(i)), fuel)
  {
    var ins := prog[i];
    var c := Compare(Lookup(s.vm, ins.vName), ins.operator, ins.opTo, ins.firstOnly);
    assert CondTarget(prog, i, c.value, ins.onTrue, ins.onFalse) == k;
    IfStep(prog, ev, i, s, fuel);
  }

  /** An IF whose chosen label is carried by no instruction ends up reading
      game[-1] and throws. */
  lemma IfMissingTargetCrashes(prog: seq<Instr>, ev: string -> Option<Value>, i: int, s: State, fuel: nat)
    requires 0 <= i < |prog| && prog[i].If?
    requires var c := Compare(Lookup(s.vm, prog[i].vName), prog[i].operator, prog[i].opTo, prog[i].firstOnly);
      c.Some? && (c.value || (prog[i].onFalse.Some? && prog[i].onFalse.value != 0))
    requires var c := Compare(Lookup(s.vm, prog[i].vName), prog[i].operator, prog[i].opTo, prog[i].firstOnly);
      var target := if c.value then prog[i].onTrue else prog[i].onFalse.value;
      forall j :: 0 <= j < |prog| ==> prog[j].ln != target
    ensures Loop(prog, ev, i, s, fuel + 1) == (Crashed, s.(curLn := -1, waitOn := Some(i)))
  {
    IfStep(prog, ev, i, s, fuel);
  }

  /** GOSUB stores its own index in the single return slot, overwriting any
      earlier one, and continues at position `to - 1` without any label
      lookup; a NaN target leaves the loop. */
  lemma GosubStep(prog: seq<Instr>, ev: string -> Option<Value>, i: int, s: State, fuel: nat)
    requires 0 <= i < |prog| && prog[i].Gosub?
    ensures prog[i].to.None? ==> Loop(prog, ev, i, s, fuel + 1) == (Stopped, s.(curLn := i, gosub := Some(i)))
    ensures prog[i].to.Some? ==>
      Loop(prog, ev, i, s, fuel + 1) == Loop(prog, ev, prog[i].to.value - 1, s.(curLn := prog[i].to.value, gosub := Some(i)), fuel)
  {
  }

  /** RETURN continues after the stored GOSUB and empties the slot; with the
      slot empty it continues at index 1. */
  lemma ReturnStep(prog: seq<Instr>, ev: string -> Option<Value>, i: int, s: State, fuel: nat)
    requires 0 <= i < |prog| && prog[i].Return?
    ensures s.gosub.Some? ==>
      Loop(prog, ev, i, s, fuel + 1) == Loop(prog, ev, s.gosub.value + 1, s.(curLn := s.gosub.value, gosub := None), fuel)
    ensures s.gosub.None? ==>
      Loop(prog, ev, i, s, fuel + 1) == Loop(prog, ev, 1, s.(curLn := 0, gosub := None), fuel)
  {
  }

  /** GOSUB to a RETURN comes straight back: the run continues after the
      GOSUB with the slot empty. */
  lemma GosubThenReturn(prog: seq<Instr>, ev: string -> Option<Value>, i: int, s: State, fuel: nat)
    requires 0 <= i < |prog| && prog[i].Gosub? && prog[i].to.Some?
    requires 1 <= prog[i].to.value <= |prog| && prog[prog[i].to.value - 1].Return?
    ensures Loop(prog, ev, i, s, fuel + 2) == Loop(prog, ev, i + 1, s.(curLn := i, gosub := None), fuel)
  {
    var t := prog[i].to.value;
    GosubStep(prog, ev, i, s, fuel + 1);
    ReturnStep(prog, ev, t - 1, s.(curLn := t, gosub := Some(i)), fuel);
  }

  /** END shows a break line and FIM with its alignment and leaves the loop. */
  lemma EndStep(prog: seq<Instr>, ev: string -> Option<Value>, i: int, s: State, fuel: nat)
    requires 0 <= i < |prog| && prog[i].End?
    ensures Loop(prog, ev, i, s, fuel + 1) ==
      (Stopped, s.(curLn := |prog|, output := s.output + [BreakLine, Text("FIM", false, prog[i].endAlignment, None)]))
  {
    LoopUnfold(prog, ev, i, s, fuel + 1);
  }

  // ---------------------------------------------------------------------
  // Frames and invariants
  // ---------------------------------------------------------------------

  /** What one step may change: the log only grows; only GOSUB and RETURN
      touch the return slot; only SET and EXPR the store; only WAIT sets
      `paused`; only INPUT opens the box. */
  lemma ExecFrame(prog: seq<Instr>, ev: string -> Option<Value>, i: int, s: State, fuel: nat)
    requires 0 <= i < |prog|
    ensures var st := Exec(prog, ev, i, s, fuel);
      && s.output <= st.s.output
      && (!prog[i].Gosub? && !prog[i].Return? ==> st.s.gosub == s.gosub)
      && (!prog[i].Set? && !prog[i].Expr? ==> st.s.vm == s.vm)
      && (!prog[i].Wait? ==> st.s.paused == s.paused)
      && (!prog[i].Input? && st.s.inputOpen ==> s.inputOpen)
  {
    var rendered := RenderVarsSpec(s.vm, Interpolated(prog[i]), fuel);
    StepFrameScreen(prog, ev, i, s, rendered);
    StepFrameGlobals(prog, ev, i, s, rendered);
  }

  /** The screen side of one step, whatever the interpolation gave. */
  lemma StepFrameScreen(prog: seq<Instr>, ev: string -> Option<Value>, i: int, s: State, rendered: Option<string>)
    requires 0 <= i < |prog|
    ensures var st := StepWith(prog, ev, i, s, rendered);
      && s.output <= st.s.output
      && (!prog[i].Wait? ==> st.s.paused == s.paused)
      && (!prog[i].Input? && st.s.inputOpen ==> s.inputOpen)
  {
    match prog[i]
    case Set(_, _, _, _) =>
    case Print(_, _, _, _) =>
    case Input(_, _) =>
    case Wait(_) =>
    case Rem(_, _) =>
    case If(_, _, _, _, _, _, _) =>
    case Cls(_) =>
    case End(_, _) =>
    case Goto(_, _) =>
    case Expr(_, _, _) =>
    case Gosub(_, _) =>
    case Return(_) =>
  }

  /** The store and the return slot across one step. */
  lemma StepFrameGlobals(prog: seq<Instr>, ev: string -> Option<Value>, i: int, s: State, rendered: Option<string>)
    requires 0 <= i < |prog|
    ensures var st := StepWith(prog, ev, i, s, rendered);
      && (!prog[i].Gosub? && !prog[i].Return? ==> st.s.gosub == s.gosub)
      && (!prog[i].Set? && !prog[i].Expr? ==> st.s.vm == s.vm)
  {
    match prog[i]
    case Set(_, _, _, _) =>
    case Print(_, _, _, _) =>
    case Input(_, _) =>
    case Wait(_) =>
    case Rem(_, _) =>
    case If(_, _, _, _, _, _, _) =>
    case Cls(_) =>
    case End(_, _) =>
    case Goto(_, _) =>
    case Expr(_, _, _) =>
    case Gosub(_, _) =>
    case Return(_) =>
  }

  /** The screen log of a run extends the log it started with. */
  lemma {:induction false} LoopAppends(prog: seq<Instr>, ev: string -> Option<Value>, i: int, s: State, fuel: nat)
    ensures s.output <= Loop(prog, ev, i, s, fuel).1.output
    decreases fuel
  {
    if 0 <= i < |prog| && fuel > 0 {
      var st := Exec(prog, ev, i, s.(curLn := i), fuel);
      ExecFrame(prog, ev, i, s.(curLn := i), fuel);
      if st.flow == Proceed {
        LoopAppends(prog, ev, st.next, st.s, fuel - 1);
      }
    }
  }

  /** A run started with no INPUT box open ends in a valid state: if a box
      is open, it belongs to the instruction the loop resumes at. */
  lemma {:induction false} LoopKeepsValid(prog: seq<Instr>, ev: string -> Option<Value>, i: int, s: State, fuel: nat)
    requires !s.inputOpen
    ensures Valid(Loop(prog, ev, i, s, fuel).1)
    decreases fuel
  {
    if 0 <= i < |prog| && fuel > 0 {
      var st := Exec(prog, ev, i, s.(curLn := i), fuel);
      LoopUnfold(prog, ev, i, s, fuel);
      ExecFrame(prog, ev, i, s.(curLn := i), fuel);
      if st.flow == Proceed && !st.s.inputOpen {
        LoopKeepsValid(prog, ev, st.next, st.s, fuel - 1);
      }
    }
  }

  /** Only an interpolation that runs out of passes makes a step spin, and
      only PRINT and EXPR interpolate. */
  lemma SpinMeans(prog: seq<Instr>, ev: string -> Option<Value>, i: int, s: State, fuel: nat)
    requires 0 <= i < |prog|
    ensures Exec(prog, ev, i, s, fuel).flow == Spin <==>
      (prog[i].Print? || prog[i].Expr?) && RenderVarsSpec(s.vm, Interpolated(prog[i]), fuel).None?
    ensures !prog[i].Print? && !prog[i].Expr? ==> RenderVarsSpec(s.vm, Interpolated(prog[i]), fuel) == Some("")
  {
  }

  /** A step that does not spin gives the same result with more fuel. */
  lemma ExecMoreFuel(prog: seq<Instr>, ev: string -> Option<Value>, i: int, s: State, fuel: nat, more: nat)
    requires 0 <= i < |prog| && fuel <= more
    requires Exec(prog, ev, i, s, fuel).flow != Spin
    ensures Exec(prog, ev, i, s, more) == Exec(prog, ev, i, s, fuel)
  {
    SpinMeans(prog, ev, i, s, fuel);
    RenderVarsMoreFuel(s.vm, Interpolated(prog[i]), fuel, more);
  }

  /** A run that finishes within its fuel gives the same result with any more. */
  lemma {:induction false} LoopMoreFuel(prog: seq<Instr>, ev: string -> Option<Value>, i: int, s: State, fuel: nat, more: nat)
    requires fuel <= more
    requires Loop(prog, ev, i, s, fuel).0 != OutOfFuel
    ensures Loop(prog, ev, i, s, more) == Loop(prog, ev, i, s, fuel)
    decreases fuel, 0
  {
    if 0 <= i < |prog| {
      var s0 := s.(curLn := i);
      var st := Exec(prog, ev, i, s0, fuel);
      LoopUnfold(prog, ev, i, s, fuel);
      LoopUnfold(prog, ev, i, s, more);
      AfterSpinRunsOut(prog, ev, st, fuel - 1);
      ExecMoreFuel(prog, ev, i, s0, fuel, more);
      AfterMoreFuel(prog, ev, st, fuel - 1, more - 1);
    }
  }

  /** A step that spins ends the run out of fuel. */
  lemma AfterSpinRunsOut(prog: seq<Instr>, ev: string -> Option<Value>, st: Step, fuel: nat)
    requires After(prog, ev, st, fuel).0 != OutOfFuel
    ensures st.flow != Spin
  {
  }

  /** How the loop goes on after a step does not depend on the fuel once it
      finishes. */
  lemma {:induction false} AfterMoreFuel(prog: seq<Instr>, ev: string -> Option<Value>, st: Step, fuel: nat, more: nat)
    requires fuel <= more
    requires After(prog, ev, st, fuel).0 != OutOfFuel
    ensures After(prog, ev, st, more) == After(prog, ev, st, fuel)
    decreases fuel, 1
  {
    if st.flow == Proceed {
      LoopMoreFuel(prog, ev, st.next, st.s, fuel, more);
    }
  }

  // ---------------------------------------------------------------------
  // Suspension at WAIT and INPUT, and the key handlers
  // ---------------------------------------------------------------------

  /** No run of the loop reports `Ignored`: only a key handler that does
      nothing does. */
  lemma {:induction false} LoopNeverIgnored(prog: seq<Instr>, ev: string -> Option<Value>, i: int, s: State, fuel: nat)
    ensures Loop(prog, ev, i, s, fuel).0 != Ignored
    decreases fuel
  {
    if 0 <= i < |prog| && fuel > 0 {
      var st := Exec(prog, ev, i, s.(curLn := i), fuel);
      LoopUnfold(prog, ev, i, s, fuel);
      if st.flow == Proceed {
        LoopNeverIgnored(prog, ev, st.next, st.s, fuel - 1);
      }
    }
  }

  /** WAIT shows a break line and the centred pause message, records its own
      index in `waitOn`, sets `paused`, and leaves the loop. */
  lemma WaitStep(prog: seq<Instr>, ev: string -> Option<Value>, i: int, s: State, fuel: nat)
    requires 0 <= i < |prog| && prog[i].Wait?
    ensures Loop(prog, ev, i, s, fuel + 1) ==
      (Stopped, s.(curLn := i + 1, waitOn := Some(i), paused := true,
                   output := s.output + [BreakLine, Text(PauseMessage, true, Some("CENTER"), None)]))
  {
    LoopUnfold(prog, ev, i, s, fuel + 1);
  }

  /** The space key does something exactly when a WAIT is pending: otherwise
      it leaves the state as it is. */
  lemma SpaceIgnored(game: Option<seq<Instr>>, ev: string -> Option<Value>, key: string, s: State, fuel: nat)
    ensures Space(game, ev, key, s, fuel).0 == Ignored <==> !(s.waitOn.Some? && s.paused && key == " ")
    ensures Space(game, ev, key, s, fuel).0 == Ignored ==> Space(game, ev, key, s, fuel).1 == s
  {
    if s.waitOn.Some? && s.paused && key == " " && game.Some? {
      var w := s.waitOn.value;
      LoopNeverIgnored(game.value, ev, w + 1,
        s.(curLn := w + 1, waitOn := None, paused := false, output := s.output + [Clear], inputOpen := false), fuel);
    }
  }

  /** WAIT followed by the space key: the screen is wiped, the pause is
      cleared, and the run resumes at the instruction after the WAIT. */
  lemma WaitThenSpace(prog: seq<Instr>, ev: string -> Option<Value>, i: int, s: State, fuel: nat, fuel2: nat)
    requires 0 <= i < |prog| && prog[i].Wait?
    ensures var paused := Loop(prog, ev, i, s, fuel + 1).1;
      && paused.waitOn == Some(i) && paused.paused
      && Space(Some(prog), ev, " ", paused, fuel2) ==
           Loop(prog, ev, i + 1, paused.(waitOn := None, paused := false, output := paused.output + [Clear], inputOpen := false), fuel2)
  {
    WaitStep(prog, ev, i, s, fuel);
  }

  /** INPUT opens the box and leaves the loop with the line and `waitOn` just
      after it; the state is then one the Enter handler accepts. */
  lemma InputStep(prog: seq<Instr>, ev: string -> Option<Value>, i: int, s: State, fuel: nat)
    requires 0 <= i < |prog| && prog[i].Input?
    ensures Loop(prog, ev, i, s, fuel + 1) == (Stopped, s.(curLn := i + 1, waitOn := Some(i + 1), inputOpen := true))
    ensures Valid(Loop(prog, ev, i, s, fuel + 1).1)
  {
    LoopUnfold(prog, ev, i, s, fuel + 1);
  }

  /** The state the Enter handler resumes from: the value stored, the box
      closed, the screen wiped, `waitOn` cleared. */
  function Resumed(s: State, name: string, v: Value): State {
    s.(vm := s.vm[name := v], inputOpen := false, output := s.output + [Clear], waitOn := None)
  }

  /** Enter while the box of the INPUT at i is open: the typed text is read
      into the INPUT's variable and the run resumes after it, or the key is
      ignored when the text does not read as a value. */
  lemma EnterAtInput(prog: seq<Instr>, ev: string -> Option<Value>, i: int, open: State, text: string, fuel: nat)
    requires 0 <= i < |prog| && prog[i].Input? && text != ""
    requires open.inputOpen && open.curLn == i + 1 && open.waitOn == Some(i + 1)
    ensures Valid(open)
    ensures var v := Typed(prog[i].varName, text);
      && (v.None? ==> Enter(Some(prog), ev, text, open, fuel) == (Ignored, open))
      && (v.Some? ==> Enter(Some(prog), ev, text, open, fuel) == Loop(prog, ev, i + 1, Resumed(open, prog[i].varName, v.value), fuel))
  {
    assert Reacting(Some(prog), text, open) == ReadInto(prog[i].varName);
  }

  /** INPUT into a "$" variable followed by Enter: the typed text, upper-cased
      and trimmed, is stored as a string and the run resumes after the INPUT. */
  lemma InputThenEnterString(prog: seq<Instr>, ev: string -> Option<Value>, i: int, s: State, fuel: nat, text: string, fuel2: nat)
    requires 0 <= i < |prog| && prog[i].Input? && '$' in prog[i].varName
    requires text != ""
    ensures var open := Loop(prog, ev, i, s, fuel + 1).1;
      Valid(open) &&
      Enter(Some(prog), ev, text, open, fuel2) ==
        Loop(prog, ev, i + 1, Resumed(open, prog[i].varName, Str(Trim(Upper(text)))), fuel2)
  {
    InputStep(prog, ev, i, s, fuel);
    EnterAtInput(prog, ev, i, Loop(prog, ev, i, s, fuel + 1).1, text, fuel2);
  }

  /** INPUT into a numeric variable followed by Enter: a text that reads as a
      number is stored as that number and the run resumes after the INPUT;
      any other text is ignored and the box stays open. */
  lemma InputThenEnterNumber(prog: seq<Instr>, ev: string -> Option<Value>, i: int, s: State, fuel: nat, text: string, fuel2: nat)
    requires 0 <= i < |prog| && prog[i].Input? && '$' !in prog[i].varName
    requires text != ""
    ensures var open := Loop(prog, ev, i, s, fuel + 1).1;
      && Valid(open)
      && (ToNumber(Trim(Upper(text))).None? ==> Enter(Some(prog), ev, text, open, fuel2) == (Ignored, open))
      && (ToNumber(Trim(Upper(text))).Some? ==>
            Enter(Some(prog), ev, text, open, fuel2) ==
              Loop(prog, ev, i + 1, Resumed(open, prog[i].varName, Num(ToNumber(Trim(Upper(text))).value)), fuel2))
  {
    InputStep(prog, ev, i, s, fuel);
    EnterAtInput(prog, ev, i, Loop(prog, ev, i, s, fuel + 1).1, text, fuel2);
  }

  /** Enter does nothing while no INPUT box is open, or on an empty box. */
  lemma EnterIgnored(game: Option<seq<Instr>>, ev: string -> Option<Value>, text: string, s: State, fuel: nat)
    requires Valid(s)
    requires !s.inputOpen || text == ""
    ensures Enter(game, ev, text, s, fuel) == (Ignored, s)
  {
  }

  /** Typing the decimal text of an integer stores that integer. */
  lemma EnterReadsNumerals(n: int)
    ensures ToNumber(Trim(Upper(IntToString(n)))) == Some(n)
  {
    var t := IntToString(n);
    var digits := NatToString(if n < 0 then -n else n);
    assert forall k :: 0 <= k < |digits| ==> IsDigit(digits[k]);
    assert forall k :: 0 <= k < |t| ==> t[k] == '-' || IsDigit(t[k]);
    UpperKeeps(t);
    TrimKeeps(t);
    IntToStringRoundTrip(n);
  }

  /** Typing only white space into a numeric variable stores 0, as Number("")
      does. */
  lemma EnterBlankReadsZero(text: string)
    requires forall k :: 0 <= k < |text| ==> IsSpace(text[k])
    ensures ToNumber(Trim(Upper(text))) == Some(0)
  {
    assert forall k :: 0 <= k < |text| ==> UpperChar(text[k]) == text[k];
    UpperKeeps(text);
    TrimBlank(text);
  }

  /** startGame forgets the store and wipes the screen but leaves `paused`
      as it was; a program opening with INPUT then stops there. */
  lemma StartKeepsPause(game: Option<seq<Instr>>, ev: string -> Option<Value>, s: State, fuel: nat)
    requires game.Some? && |game.value| > 0 && game.value[0].Input?
    ensures Start(game, ev, s, fuel + 1).1 ==
      s.(vm := map[], output := s.output + [Clear], curLn := 1, waitOn := Some(1), inputOpen := true)
  {
    InputStep(game.value, ev, 0, s.(output := s.output + [Clear], inputOpen := false, curLn := 0, vm := map[]), fuel);
  }

  /** A space pressed after a restart that left a WAIT pending skips the
      INPUT the new run stopped at: the box is wiped and the run resumes one
      instruction past the INPUT. */
  lemma StaleWaitSkipsInput(prog: seq<Instr>, ev: string -> Option<Value>, s: State, fuel: nat, fuel2: nat)
    requires |prog| > 0 && prog[0].Input?
    requires s.paused
    ensures var restarted := Start(Some(prog), ev, s, fuel + 1).1;
      restarted.inputOpen &&
      Space(Some(prog), ev, " ", restarted, fuel2) ==
        Loop(prog, ev, 2, restarted.(curLn := 2, waitOn := None, paused := false,
                                     output := restarted.output + [Clear], inputOpen := false), fuel2)
  {
    StartKeepsPause(Some(prog), ev, s, fuel);
  }
}
