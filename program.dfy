/** A parsed program: the instruction records `parseTokens` builds, in source
    order, and the label lookups the interpreter performs on them. */
module Program {
  import opened Wrappers
  import opened Values

  /** One instruction record, one constructor per command. `ln` is the
      author's line number, used only as a jump label. */
  datatype Instr =
    | Set(ln: int, varName: string, initVal: Value, raw: string)
    | Print(ln: int, text: string, alignment: string, color: Option<string>)
    | Input(ln: int, varName: string)
    | Wait(ln: int)
    | Rem(ln: int, text: string)
      /** `opTo` is a string for a `$` variable and Number(...) otherwise;
          `onFalse` is `None` without ELSE. */
    | If(ln: int, firstOnly: bool, vName: string, operator: string, opTo: Value, onTrue: int, onFalse: Option<int>)
    | Cls(ln: int)
      /** `None` is the undefined alignment of an END without argument. */
    | End(ln: int, endAlignment: Option<string>)
    | Goto(ln: int, target: int)
    | Expr(ln: int, expr: string, vOutput: string)
      /** `None` is NaN: GOSUB's argument is never validated. */
    | Gosub(ln: int, to: Option<int>)
    | Return(ln: int)

  /** The command keyword an instruction was parsed from. */
  function Command(ins: Instr): string {
    match ins
    case Set(_, _, _, _) => "SET"
    case Print(_, _, _, _) => "PRINT"
    case Input(_, _) => "INPUT"
    case Wait(_) => "WAIT"
    case Rem(_, _) => "REM"
    case If(_, _, _, _, _, _, _) => "IF"
    case Cls(_) => "CLS"
    case End(_, _) => "END"
    case Goto(_, _) => "GOTO"
    case Expr(_, _, _) => "EXPR"
    case Gosub(_, _) => "GOSUB"
    case Return(_) => "RETURN"
  }

  /** game.findIndex(b => b.ln === target): the first position carrying the
      label, or -1 when none does. */
  function FindLabel(prog: seq<Instr>, target: int): (r: int)
    ensures -1 <= r < |prog|
    ensures r == -1 <==> forall j :: 0 <= j < |prog| ==> prog[j].ln != target
    ensures r >= 0 ==> prog[r].ln == target && forall j :: 0 <= j < r ==> prog[j].ln != target
  {
    if |prog| == 0 then -1
    else if prog[0].ln == target then 0
    else
      var k := FindLabel(prog[1..], target);
      if k < 0 then -1 else k + 1
  }

  /** goto(ln): the position the loop resumes after, so that its increment
      lands on the label; `None` where the source throws "Invalid GOTO". A
      label at position 0 yields 0, so the loop then runs position 1. */
  function GotoIndex(prog: seq<Instr>, target: int): (r: Option<int>)
    ensures r.None? <==> forall j :: 0 <= j < |prog| ==> prog[j].ln != target
    ensures r.Some? ==> 0 <= r.value < |prog|
    ensures r.Some? && prog[0].ln == target ==> r.value == 0
    ensures r.Some? && prog[0].ln != target ==>
      r.value + 1 < |prog| && prog[r.value + 1].ln == target && forall j :: 0 <= j <= r.value ==> prog[j].ln != target
  {
    var i := FindLabel(prog, target) - 1;
    if i <= -2 then None
    else Some(if i < 0 then 0 else i)
  }
}
