/** The interpreter as a state machine: the globals of the engine, one step
    of the gameLoop switch, the loop itself, and the three entry points that
    start it (the start button, the space key after WAIT, the Enter key in the
    INPUT box). Screen output is an append-only log of events. */
module Machine {
  import opened Wrappers
  import opened JsText
  import opened Values
  import opened Program

  /** What render and cls leave on the screen: a break line for an empty
      text, a span, or the screen being wiped. */
  datatype Event =
    | BreakLine
    | Text(text: string, wait: bool, alignment: Option<string>, color: Option<string>)
    | Clear

  /** The engine's globals (`vm`, `curLn`, `waitOn`, `paused`, `gosub`), whether
      an INPUT box is live (its Enter handler can fire), and the screen log. */
  datatype State = State(
    vm: Store,
    curLn: int,
    waitOn: Option<int>,
    paused: bool,
    gosub: Option<int>,
    inputOpen: bool,
    output: seq<Event>)

  /** How a run of the loop ended: it left the loop, an exception escaped, it
      did not finish within the fuel, or a key handler did nothing. */
  datatype Outcome = Stopped | Crashed | OutOfFuel | Ignored

  /** How one step of the switch ends: on to the next iteration, out of the
      loop, an exception, or an interpolation that never finishes. */
  datatype Flow = Proceed | Leave | Throw | Spin

  /** The state after one step, and the loop index after the increment. */
  datatype Step = Step(flow: Flow, next: int, s: State)

  const PauseMessage: string := "PRESSIONE ESPA\U{00C7}O PARA CONTINUAR..."

  /** The live INPUT box belongs to the instruction the loop resumes at. */
  predicate Valid(s: State) {
    s.inputOpen ==> s.waitOn == Some(s.curLn)
  }

  /** The event render(t, wait, alignment, color) adds for an already
      interpolated text: a break line for an empty text, a span otherwise. */
  function Shown(t: string, wait: bool, alignment: Option<string>, color: Option<string>): Event {
    if t == "" then BreakLine else Text(t, wait, alignment, color)
  }

  /** render(val, wait, alignment, color): the event it adds, or `None` when
      the interpolation does not finish within `fuel` passes. */
  function Render(vm: Store, val: string, wait: bool, alignment: Option<string>, color: Option<string>, fuel: nat): (r: Option<Event>)
    ensures r.Some? <==> RenderVarsSpec(vm, val, fuel).Some?
    ensures r.Some? ==> (r.value == BreakLine <==> RenderVarsSpec(vm, val, fuel).value == "")
    ensures r.Some? && r.value.Text? ==> r.value.text == RenderVarsSpec(vm, val, fuel).value && '[' !in r.value.text
  {
    match RenderVarsSpec(vm, val, fuel)
    case None => None
    case Some(t) =>
      RenderVarsResultHasNoBracket(vm, val, fuel);
      Some(Shown(t, wait, alignment, color))
  }

  /** The index handleCond returns: the next instruction for a false
      condition without ELSE (or with ELSE 0), otherwise the first
      instruction carrying the chosen label, or -1 when none does. */
  function CondTarget(prog: seq<Instr>, i: int, r: bool, onTrue: int, onFalse: Option<int>): (t: int)
    ensures !r && (onFalse.None? || onFalse.value == 0) ==> t == i + 1
    ensures r || (onFalse.Some? && onFalse.value != 0) ==>
      var target := if r then onTrue else onFalse.value;
      && -1 <= t < |prog|
      && (t == -1 <==> forall j :: 0 <= j < |prog| ==> prog[j].ln != target)
      && (t >= 0 ==> prog[t].ln == target && forall j :: 0 <= j < t ==> prog[j].ln != target)
  {
    if r then FindLabel(prog, onTrue)
    else if onFalse.None? || onFalse.value == 0 then i + 1
    else FindLabel(prog, onFalse.value)
  }

  /** The text an instruction interpolates with renderVars: what PRINT shows
      and what EXPR evaluates; the other instructions interpolate nothing. */
  function Interpolated(ins: Instr): string {
    match ins
    case Print(_, text, _, _) => text
    case Expr(_, expr, _) => expr
    case _ => ""
  }

  /** One pass through the switch of gameLoop for instruction `i`, with
      `s.curLn` already set to `i` and `rendered` the outcome of renderVars on
      the instruction's text (`None` when it does not finish). */
  function StepWith(prog: seq<Instr>, evaluate: string -> Option<Value>, i: int, s: State, rendered: Option<string>): Step
    requires 0 <= i < |prog|
  {
    match prog[i]
    case Set(_, name, v, _) =>
      Step(Proceed, i + 1, s.(vm := s.vm[name := v], curLn := i + 1))
    case Print(_, text, alignment, color) =>
      (match rendered
       case None => Step(Spin, i, s)
       case Some(t) => Step(Proceed, i + 1, s.(output := s.output + [Shown(t, false, Some(alignment), color)], curLn := i + 1)))
    case Cls(_) =>
      Step(Proceed, i + 1, s.(output := s.output + [Clear], inputOpen := false, curLn := i + 1))
    case End(_, alignment) =>
      Step(Proceed, |prog| + 1, s.(output := s.output + [BreakLine, Text("FIM", false, alignment, None)], curLn := |prog|))
    case Wait(_) =>
      var shown := [BreakLine, Text(PauseMessage, true, Some("CENTER"), None)];
      Step(Proceed, |prog| + 1, s.(waitOn := Some(i), paused := true, output := s.output + shown, curLn := i + 1))
    case Input(_, _) =>
      Step(Proceed, |prog| + 1, s.(waitOn := Some(i + 1), inputOpen := true, curLn := i + 1))
    case If(_, firstOnly, name, operator, opTo, onTrue, onFalse) =>
      var s1 := s.(waitOn := Some(i));
      (match Compare(Lookup(s.vm, name), operator, opTo, firstOnly)
       case None => Step(Throw, i, s1)
       case Some(r) =>
         var t := CondTarget(prog, i, r, onTrue, onFalse);
         Step(Proceed, t, s1.(curLn := t - 1)))
    case Goto(_, target) =>
      (match GotoIndex(prog, target)
       case None => Step(Throw, i, s)
       case Some(g) => Step(Proceed, g + 1, s.(curLn := g)))
    case Expr(_, expr, out) =>
      (match rendered
       case None => Step(Spin, i, s)
       case Some(x) =>
         match evaluate(x)
         case None => Step(Throw, i, s)
         case Some(v) => Step(Proceed, i + 1, s.(vm := s.vm[out := v], curLn := i + 1)))
    case Gosub(_, to) =>
      (match to
       case None => Step(Leave, i, s.(gosub := Some(i)))
       case Some(t) => Step(Proceed, t - 1, s.(gosub := Some(i), curLn := t)))
    case Return(_) =>
      var back := if s.gosub.Some? then s.gosub.value else 0;
      Step(Proceed, back + 1, s.(curLn := back, gosub := None))
    case Rem(_, _) =>
      Step(Proceed, i + 1, s)
  }

  /** One pass through the switch, interpolating with at most `fuel` passes. */
  function Exec(prog: seq<Instr>, evaluate: string -> Option<Value>, i: int, s: State, fuel: nat): Step
    requires 0 <= i < |prog|
  {
    StepWith(prog, evaluate, i, s, RenderVarsSpec(s.vm, Interpolated(prog[i]), fuel))
  }

  function OutcomeOf(flow: Flow): Outcome {
    match flow
    case Proceed => Stopped
    case Leave => Stopped
    case Throw => Crashed
    case Spin => OutOfFuel
  }

  /** gameLoop from index `i`, for at most `fuel` iterations: it stops when
      the index runs past the program and crashes on a negative index
      (game[i] is undefined there). */
  function Loop(prog: seq<Instr>, evaluate: string -> Option<Value>, i: int, s: State, fuel: nat): (Outcome, State)
    decreases fuel, 0
  {
    if i >= |prog| then (Stopped, s)
    else if i < 0 then (Crashed, s.(curLn := i))
    else if fuel == 0 then (OutOfFuel, s)
    else After(prog, evaluate, Exec(prog, evaluate, i, s.(curLn := i), fuel), fuel - 1)
  }

  /** How the loop goes on after a step: the next iteration, or the outcome
      the step's flow ends the run with. */
  function After(prog: seq<Instr>, evaluate: string -> Option<Value>, st: Step, fuel: nat): (Outcome, State)
    decreases fuel, 1
  {
    if st.flow == Proceed then Loop(prog, evaluate, st.next, st.s, fuel) else (OutcomeOf(st.flow), st.s)
  }

  /** One iteration of the loop, for an index inside the program. */
  lemma LoopUnfold(prog: seq<Instr>, evaluate: string -> Option<Value>, i: int, s: State, fuel: nat)
    requires 0 <= i < |prog| && fuel > 0
    ensures Loop(prog, evaluate, i, s, fuel) == After(prog, evaluate, Exec(prog, evaluate, i, s.(curLn := i), fuel), fuel - 1)
  {
  }

  /** gameLoop on the current `game`, which is undefined after a failed load. */
  function RunGame(game: Option<seq<Instr>>, evaluate: string -> Option<Value>, i: int, s: State, fuel: nat): (Outcome, State) {
    match game
    case None => (Crashed, s)
    case Some(prog) => Loop(prog, evaluate, i, s, fuel)
  }

  /** startGame: wipe the screen, reset the line and the store, and run from
      the top; `waitOn`, `paused` and `gosub` are left as they were. */
  function Start(game: Option<seq<Instr>>, evaluate: string -> Option<Value>, s: State, fuel: nat): (Outcome, State) {
    var s1 := s.(output := s.output + [Clear], inputOpen := false, curLn := 0, vm := map[]);
    RunGame(game, evaluate, 0, s1, fuel)
  }

  /** The keydown handler: a space while a WAIT is pending resumes after it. */
  function Space(game: Option<seq<Instr>>, evaluate: string -> Option<Value>, key: string, s: State, fuel: nat): (Outcome, State) {
    if s.waitOn.Some? && s.paused && key == " " then
      var s1 := s.(curLn := s.waitOn.value + 1, waitOn := None, paused := false,
                   output := s.output + [Clear], inputOpen := false);
      RunGame(game, evaluate, s1.curLn, s1, fuel)
    else (Ignored, s)
  }

  /** The value the Enter handler stores for `text` under `name`: the text
      upper-cased and trimmed, read as a number when the name has no "$";
      `None` when it is not one (NaN, and the handler returns). */
  function Typed(name: string, text: string): Option<Value> {
    var val := Trim(Upper(text));
    if '$' in name then Some(Str(val))
    else match ToNumber(val)
      case Some(n) => Some(Num(n))
      case None => None
  }

  /** Where the Enter handler goes once the key is pressed: nothing
      happens, a TypeError is thrown, or the box is read into `name`. */
  datatype Reaction = Ignore | Fail | ReadInto(name: string)

  /** The Enter handler's first steps: nothing while no box is open or the
      box is empty; a TypeError when instruction curLn - 1 does not exist or
      has no variable; otherwise that instruction's variable. */
  function Reacting(game: Option<seq<Instr>>, text: string, s: State): (r: Reaction)
    ensures r.ReadInto? ==> s.inputOpen && game.Some? && text != ""
  {
    if !s.inputOpen || text == "" then Ignore
    else if game.None? || !(0 <= s.curLn - 1 < |game.value|) then Fail
    else
      var ins := game.value[s.curLn - 1];
      if ins.Set? || ins.Input? then ReadInto(ins.varName) else Fail
  }

  /** The Enter handler of the INPUT box: store the typed value, close the
      box, wipe the screen and resume at `waitOn`; a text that is not a
      number, typed for a numeric variable, is ignored. */
  function Enter(game: Option<seq<Instr>>, evaluate: string -> Option<Value>, text: string, s: State, fuel: nat): (Outcome, State)
    requires Valid(s)
  {
    match Reacting(game, text, s)
    case Ignore => (Ignored, s)
    case Fail => (Crashed, s)
    case ReadInto(name) =>
      (match Typed(name, text)
       case None => (Ignored, s)
       case Some(v) =>
         var s1 := s.(vm := s.vm[name := v], inputOpen := false, output := s.output + [Clear],
                      curLn := s.waitOn.value, waitOn := None);
         RunGame(game, evaluate, s1.curLn, s1, fuel))
  }
}
