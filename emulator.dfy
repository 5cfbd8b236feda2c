/** The engine as the browser runs it: one object holding the loaded program
    and the globals, whose methods update them in place. Each method is
    proved against the state-machine functions of `Machine`: it leaves
    exactly the state, and reports exactly the outcome, they describe. */
module Emulator {
  import opened Wrappers
  import opened JsText
  import opened Values
  import opened Program
  import opened Parser
  import opened Machine
  import MachineProps

  /** The loaded `game`, the globals `vm`, `curLn`, `waitOn`, `paused` and
      `gosub`, whether an INPUT box is live, and the screen. `evaluate` stands
      for `calculate`, whose JavaScript evaluation is not modelled. */
  class Engine {
    var game: Option<seq<Instr>>
    var vm: Store
    var curLn: int
    var waitOn: Option<int>
    var paused: bool
    var gosub: Option<int>
    var inputOpen: bool
    var output: seq<Event>
    const evaluate: string -> Option<Value>

    /** The globals as a value of the state machine. */
    function Snapshot(): State
      reads this
    {
      State(vm, curLn, waitOn, paused, gosub, inputOpen, output)
    }

    /** A live INPUT box belongs to the line the Enter handler resumes at. */
    ghost predicate Valid()
      reads this
    {
      Machine.Valid(Snapshot())
    }

    /** The page as loaded: an empty program and fresh globals. */
    constructor (evaluate: string -> Option<Value>)
      ensures game == Some([]) && this.evaluate == evaluate
      ensures Snapshot() == State(map[], 0, None, false, None, false, [])
      ensures Valid()
    {
      game := Some([]);
      vm := map[];
      curLn := 0;
      waitOn := None;
      paused := false;
      gosub := None;
      inputOpen := false;
      output := [];
      this.evaluate := evaluate;
    }

    /** loadGame once the file's text is read: `game` is undefined when the
        text does not parse. */
    method Load(text: string)
      modifies this`game
      ensures game.Some? <==> Parse(text).Success?
      ensures game.Some? ==> game.value == Parse(text).value
    {
      game := Questsl(text);
    }

    /** handleVM */
    method HandleVM(key: string, val: Value)
      modifies this`vm
      ensures vm == old(vm)[key := val]
    {
      vm := vm[key := val];
    }

    /** renderVars, with at most `fuel` passes of its loop. */
    method RenderVars(str: string, fuel: nat) returns (r: Option<string>)
      ensures r == RenderVarsSpec(vm, str, fuel)
      ensures r.Some? ==> '[' !in r.value
    {
      if '[' !in str {
        return Some(str);
      }
      ghost var goal := RenderVarsSpec(vm, str, fuel);
      var out := str;
      var f := fuel;
      while '[' in out
        invariant RenderVarsFrom(vm, out, f) == goal
        decreases f
      {
        if f == 0 {
          return None;
        }
        ghost var before := out;
        out := Pass(out);
        RenderVarsPass(vm, before, f);
        f := f - 1;
      }
      return Some(out);
    }

    /** One pass of the renderVars loop: the name between the first "[" and
        the first "]" is looked up and its reference replaced. */
    method Pass(out: string) returns (r: string)
      ensures r == Substitute(vm, out)
    {
      var start := IndexOf(out, '[');
      var end := IndexOf(out, ']');
      var name := Slice(out, start + 1, end);
      var value := Lookup(vm, name);
      r := Replace(out, "[" + name + "]", ToText(value));
    }

    /** render: a break line for a text that interpolates to nothing, a span
        otherwise; `done` is false when the interpolation does not finish. */
    method Render(val: string, wait: bool, alignment: Option<string>, color: Option<string>, fuel: nat) returns (done: bool)
      modifies this`output
      ensures done <==> RenderVarsSpec(vm, val, fuel).Some?
      ensures done ==> output == old(output) + [Shown(RenderVarsSpec(vm, val, fuel).value, wait, alignment, color)]
      ensures !done ==> output == old(output)
    {
      var text := RenderVars(val, fuel);
      if text.None? {
        return false;
      }
      if text.value == "" {
        output := output + [BreakLine];
      } else {
        output := output + [Text(text.value, wait, alignment, color)];
      }
      return true;
    }

    /** cls: wipes the screen, and with it any INPUT box. */
    method Cls()
      modifies this`output, this`inputOpen
      ensures output == old(output) + [Clear] && !inputOpen
    {
      output := output + [Clear];
      inputOpen := false;
    }

    /** endGame: a break line, then FIM. */
    method EndGame(alignment: Option<string>)
      modifies this`output
      ensures output == old(output) + [BreakLine, Text("FIM", false, alignment, None)]
    {
      var blank := Render("", false, None, None, 0);
      var fim := Render("FIM", false, alignment, None, 0);
    }

    /** wait: records the WAIT's index, pauses, and shows the pause message. */
    method WaitAt(i: int, alignment: Option<string>)
      modifies this`waitOn, this`paused, this`output
      ensures waitOn == Some(i) && paused
      ensures output == old(output) + [BreakLine, Text(PauseMessage, true, alignment, None)]
    {
      waitOn := Some(i);
      paused := true;
      var blank := Render("", false, None, None, 0);
      var message := Render(PauseMessage, true, alignment, None, 0);
    }

    /** input: the loop resumes after the INPUT once Enter is pressed. */
    method OpenInput()
      modifies this`waitOn, this`inputOpen
      ensures waitOn == Some(curLn + 1) && inputOpen
    {
      waitOn := Some(curLn + 1);
      inputOpen := true;
    }

    /** handleCond: records the current line in `waitOn` and returns the index
        the loop runs next; `None` when the comparison throws. */
    method HandleCond(prog: seq<Instr>, block: Instr) returns (t: Option<int>)
      requires block.If?
      modifies this`waitOn
      ensures waitOn == Some(curLn)
      ensures var c := Compare(Lookup(vm, block.vName), block.operator, block.opTo, block.firstOnly);
        && (c.None? <==> t.None?)
        && (c.Some? ==> t == Some(CondTarget(prog, curLn, c.value, block.onTrue, block.onFalse)))
    {
      waitOn := Some(curLn);
      var v := Lookup(vm, block.vName);
      var r := Compare(v, block.operator, block.opTo, block.firstOnly);
      if r.None? {
        return None;
      }
      if (block.onFalse.None? || block.onFalse.value == 0) && !r.value {
        t := Some(curLn + 1);
      } else {
        var out := if r.value then block.onTrue else block.onFalse.value;
        t := Some(FindLabel(prog, out));
      }
    }

    /** One pass through the switch of gameLoop for index `i`: the new state,
        how the pass ends, and the index after the loop's increment. The
        cases are grouped into the instructions that only store or show
        something, those that end the run, and those that jump. */
    method Execute(i: int, fuel: nat) returns (flow: Flow, next: int)
      requires game.Some? && 0 <= i < |game.value|
      modifies this`vm, this`curLn, this`waitOn, this`paused, this`gosub, this`inputOpen, this`output
      ensures Exec(game.value, evaluate, i, old(Snapshot()).(curLn := i), fuel) == Step(flow, next, Snapshot())
    {
      var ins := game.value[i];
      if ins.Set? || ins.Print? || ins.Cls? || ins.Expr? || ins.Rem? {
        flow, next := ExecuteEffect(i, fuel);
      } else if ins.End? || ins.Wait? || ins.Input? {
        flow, next := ExecuteHalt(i, fuel);
      } else if ins.If? {
        flow, next := ExecuteIf(i, fuel);
      } else {
        flow, next := ExecuteJump(i, fuel);
      }
    }

    /** SET, PRINT, CLS, EXPR and REM: store or show, then the next line. */
    method ExecuteEffect(i: int, fuel: nat) returns (flow: Flow, next: int)
      requires game.Some? && 0 <= i < |game.value|
      requires var ins := game.value[i]; ins.Set? || ins.Print? || ins.Cls? || ins.Expr? || ins.Rem?
      modifies this`vm, this`curLn, this`output, this`inputOpen
      ensures Exec(game.value, evaluate, i, old(Snapshot()).(curLn := i), fuel) == Step(flow, next, Snapshot())
    {
      curLn := i;
      match game.value[i]
      case Set(_, name, v, _) =>
        HandleVM(name, v);
        curLn := curLn + 1;
        flow, next := Proceed, i + 1;
      case Print(_, text, alignment, color) =>
        var done := Render(text, false, Some(alignment), color, fuel);
        if !done {
          return Spin, i;
        }
        curLn := curLn + 1;
        flow, next := Proceed, i + 1;
      case Cls(_) =>
        Cls();
        curLn := curLn + 1;
        flow, next := Proceed, i + 1;
      case Expr(_, expr, out) =>
        var x := RenderVars(expr, fuel);
        if x.None? {
          return Spin, i;
        }
        var v := evaluate(x.value);
        if v.None? {
          return Throw, i;
        }
        HandleVM(out, v.value);
        curLn := curLn + 1;
        flow, next := Proceed, i + 1;
      case Rem(_, _) =>
        flow, next := Proceed, i + 1;
    }

    /** END, WAIT and INPUT: the loop index is pushed past the program. */
    method ExecuteHalt(i: int, fuel: nat) returns (flow: Flow, next: int)
      requires game.Some? && 0 <= i < |game.value|
      requires var ins := game.value[i]; ins.End? || ins.Wait? || ins.Input?
      modifies this`curLn, this`waitOn, this`paused, this`inputOpen, this`output
      ensures Exec(game.value, evaluate, i, old(Snapshot()).(curLn := i), fuel) == Step(flow, next, Snapshot())
    {
      var prog := game.value;
      curLn := i;
      match prog[i]
      case End(_, alignment) =>
        EndGame(alignment);
        curLn := |prog|;
        flow, next := Proceed, curLn + 1;
      case Wait(_) =>
        WaitAt(i, Some("CENTER"));
        curLn := curLn + 1;
        flow, next := Proceed, |prog| + 1;
      case Input(_, _) =>
        OpenInput();
        curLn := curLn + 1;
        flow, next := Proceed, |prog| + 1;
    }

    /** The IF case of the switch: handleCond picks the position to go on
        from, or the comparison throws. */
    method ExecuteIf(i: int, fuel: nat) returns (flow: Flow, next: int)
      requires game.Some? && 0 <= i < |game.value| && game.value[i].If?
      modifies this`curLn, this`waitOn
      ensures Exec(game.value, evaluate, i, old(Snapshot()).(curLn := i), fuel) == Step(flow, next, Snapshot())
    {
      var prog := game.value;
      curLn := i;
      var t := HandleCond(prog, prog[i]);
      if t.None? {
        return Throw, i;
      }
      curLn := t.value - 1;
      flow, next := Proceed, curLn + 1;
    }

    /** GOTO, GOSUB and RETURN: `curLn` and the loop index move. */
    method ExecuteJump(i: int, fuel: nat) returns (flow: Flow, next: int)
      requires game.Some? && 0 <= i < |game.value|
      requires var ins := game.value[i]; ins.Goto? || ins.Gosub? || ins.Return?
      modifies this`curLn, this`gosub
      ensures Exec(game.value, evaluate, i, old(Snapshot()).(curLn := i), fuel) == Step(flow, next, Snapshot())
    {
      var prog := game.value;
      curLn := i;
      match prog[i]
      case Goto(_, target) =>
        var g := GotoIndex(prog, target);
        if g.None? {
          return Throw, i;
        }
        curLn := g.value;
        flow, next := Proceed, curLn + 1;
      case Gosub(_, to) =>
        gosub := Some(i);
        if to.None? {
          return Leave, i;
        }
        curLn := to.value;
        flow, next := Proceed, curLn - 1;
      case Return(_) =>
        curLn := if gosub.Some? then gosub.value else 0;
        gosub := None;
        flow, next := Proceed, curLn + 1;
    }

    /** gameLoop from `curLn`, for at most `fuel` iterations; reading the
        length of an undefined `game` throws. */
    method GameLoop(fuel: nat) returns (o: Outcome)
      modifies this`vm, this`curLn, this`waitOn, this`paused, this`gosub, this`inputOpen, this`output
      ensures (o, Snapshot()) == RunGame(game, evaluate, old(curLn), old(Snapshot()), fuel)
      ensures old(!inputOpen) ==> Valid()
    {
      if game.None? {
        return Crashed;
      }
      if !inputOpen {
        MachineProps.LoopKeepsValid(game.value, evaluate, curLn, Snapshot(), fuel);
      }
      o := ForLoop(game.value, fuel);
    }

    /** The for loop of gameLoop over the loaded program. */
    method ForLoop(prog: seq<Instr>, fuel: nat) returns (o: Outcome)
      requires game == Some(prog)
      modifies this`vm, this`curLn, this`waitOn, this`paused, this`gosub, this`inputOpen, this`output
      ensures (o, Snapshot()) == Loop(prog, evaluate, old(curLn), old(Snapshot()), fuel)
    {
      var i := curLn;
      var f := fuel;
      while i < |prog|
        invariant Loop(prog, evaluate, i, Snapshot(), f) == Loop(prog, evaluate, old(curLn), old(Snapshot()), fuel)
        decreases f
      {
        if i < 0 {
          curLn := i;
          return Crashed;
        }
        if f == 0 {
          return OutOfFuel;
        }
        ghost var before := Snapshot();
        var flow, next := Execute(i, f);
        LoopUnfold(prog, evaluate, i, before, f);
        if flow != Proceed {
          return OutcomeOf(flow);
        }
        i, f := next, f - 1;
      }
      return Stopped;
    }

    /** startGame: wipe the screen, reset the line and the store, run from
        the top. */
    method StartGame(fuel: nat) returns (o: Outcome)
      modifies this`vm, this`curLn, this`waitOn, this`paused, this`gosub, this`inputOpen, this`output
      ensures (o, Snapshot()) == Start(game, evaluate, old(Snapshot()), fuel)
      ensures Valid()
    {
      Cls();
      curLn := 0;
      vm := map[];
      o := GameLoop(fuel);
    }

    /** The keydown handler: a space while a WAIT is pending resumes the run
        after it. */
    method KeyDown(key: string, fuel: nat) returns (o: Outcome)
      requires Valid()
      modifies this`vm, this`curLn, this`waitOn, this`paused, this`gosub, this`inputOpen, this`output
      ensures (o, Snapshot()) == Space(game, evaluate, key, old(Snapshot()), fuel)
      ensures Valid()
    {
      if waitOn.Some? && paused && key == " " {
        curLn := waitOn.value + 1;
        waitOn := None;
        paused := false;
        Cls();
        o := GameLoop(fuel);
      } else {
        o := Ignored;
      }
    }

    /** The Enter handler of the INPUT box: finds the variable, reads the
        typed value, then stores it, removes the box, wipes the screen and
        resumes. */
    method EnterKey(text: string, fuel: nat) returns (o: Outcome)
      requires Valid()
      modifies this`vm, this`curLn, this`waitOn, this`paused, this`gosub, this`inputOpen, this`output
      ensures (o, Snapshot()) == Enter(game, evaluate, text, old(Snapshot()), fuel)
      ensures Valid()
    {
      var r := ReadInput(text);
      match r
      case Ignore =>
        o := Ignored;
      case Fail =>
        o := Crashed;
      case ReadInto(name) =>
        var v := ReadValue(name, text);
        if v.None? {
          return Ignored;
        }
        o := Resume(name, v.value, fuel);
    }

    /** The first steps of the Enter handler: the key counts only for a
        non-empty box, and the variable is the one of instruction
        curLn - 1. */
    method ReadInput(text: string) returns (r: Reaction)
      ensures r == Reacting(game, text, Snapshot())
    {
      if !inputOpen || text == "" {
        return Ignore;
      }
      if game.None? || !(0 <= curLn - 1 < |game.value|) {
        return Fail;
      }
      var ins := game.value[curLn - 1];
      if !(ins.Set? || ins.Input?) {
        return Fail;
      }
      return ReadInto(ins.varName);
    }

    /** The typed text, upper-cased and trimmed, and for a variable without
        "$" converted with Number(); `None` when that gives NaN. */
    method ReadValue(name: string, text: string) returns (v: Option<Value>)
      ensures v == Typed(name, text)
    {
      var val := Trim(Upper(text));
      if '$' !in name {
        var n := ToNumber(val);
        if n.None? {
          return None;
        }
        return Some(Num(n.value));
      }
      return Some(Str(val));
    }

    /** The rest of the Enter handler once the value is read: store it,
        remove the box, wipe the screen, and run from `waitOn`. */
    method Resume(name: string, v: Value, fuel: nat) returns (o: Outcome)
      requires waitOn.Some?
      modifies this`vm, this`curLn, this`waitOn, this`paused, this`gosub, this`inputOpen, this`output
      ensures var w := old(waitOn).value;
        var resumed := old(Snapshot()).(vm := old(vm)[name := v], inputOpen := false,
                                        output := old(output) + [Clear], curLn := w, waitOn := None);
        (o, Snapshot()) == RunGame(game, evaluate, w, resumed, fuel)
      ensures Valid()
    {
      HandleVM(name, v);
      inputOpen := false;
      Cls();
      curLn := waitOn.value;
      waitOn := None;
      o := GameLoop(fuel);
    }
  }
}
