/** The parser: each token row is validated (`validateTokens`) and turned into
    an instruction record (the switch of `parseTokens`); the first row that
    fails aborts the whole parse (`questsl` catches the throw and returns
    nothing). */
module Parser {
  import opened Wrappers
  import opened JsText
  import opened Values
  import opened Program
  import opened Lexer

  /** Why a row was refused: one reason per `throw` of the validator, plus
      `HostError` for the TypeErrors the host raises when the code indexes
      `undefined` or the `null` of a failed regular-expression match. */
  datatype Reason =
    | BadLineNumber
    | BadCommand
    | BadSet
    | BadSetString
    | BadSetNumber
    | BadInput
    | InputNotString
    | NotDeclared
    | BadIf
    | BadIfType
    | BadGoto
    | HostError

  /** The error of a failed parse and the 0-based row that raised it. */
  datatype ParseError = ParseError(row: nat, reason: Reason)

  const Commands: seq<string> :=
    ["SET", "PRINT", "INPUT", "WAIT", "REM", "IF", "CLS", "END", "GOTO", "EXPR", "RETURN", "GOSUB"]

  const Alignments: seq<string> := ["LEFT", "CENTER", "RIGHT"]

  /** t[0] === '"' && t[t.length - 1] === '"' */
  predicate QuoteDelimited(t: string) {
    At(t, 0) == Some('"') && At(t, |t| - 1) == Some('"')
  }

  /** Number(t) of a token that may be `undefined`; `None` is NaN. */
  function NumberOfToken(t: Option<string>): Option<int> {
    match t
    case None => None
    case Some(s) => ToNumber(s)
  }

  /** "SET " + name occurs anywhere in the whole source text. */
  predicate Declared(src: string, name: string) {
    Includes(src, "SET " + name)
  }

  /** rest[0].replace("[", "").replace("]", ""): the first "[" and then the
      first "]" removed. */
  function StripBrackets(t: string): string {
    Replace(Replace(t, "[", ""), "]", "")
  }

  /** The number a row's first token stands for, when it is a valid line number. */
  predicate LineNumberOk(row: seq<string>) {
    |row| > 0 && row[0] != "" && ToNumber(row[0]).Some? && ToNumber(row[0]).value >= 0
  }

  // ---------------------------------------------------------------------
  // validateTokens
  // ---------------------------------------------------------------------

  function ValidateSet(value: seq<string>): Option<Reason> {
    if At(value, 1) != Some("=") then Some(BadSet)
    else if |value| < 3 then Some(HostError)
    else
      var val := value[2];
      if '$' in value[0] then
        if !QuoteDelimited(val) then Some(BadSetString) else None
      else if At(val, 0) == Some('"') || At(val, |val| - 1) == Some('"') then Some(BadSetNumber)
      else if ToNumber(val).None? then Some(BadSetNumber)
      else None
  }

  function ValidateInput(value: seq<string>, src: string): Option<Reason> {
    var name := At(value, |value| - 1);
    if name.None? || name.value == "" then Some(BadInput)
    else if name.value[|name.value| - 1] != '$' then Some(InputNotString)
    else if !Declared(src, name.value) then Some(NotDeclared)
    else None
  }

  /** The comparand as the validator reads it: the first quoted substring,
      quotes kept, when some token is exactly `"`; otherwise the token after
      the operator, assuming FIRST sits in the second slot. */
  function IfComparandChecked(value: seq<string>): Option<string> {
    if "\"" in value then FirstQuotedRaw(Join(value, " "))
    else At(value, if "FIRST" in value then 3 else 2)
  }

  /** Number(rest[rest.indexOf(keyword) + 1]): the jump target after THEN or
      ELSE; when the keyword is missing indexOf gives -1, so the token read is
      rest[0] itself. */
  function IfTarget(rest: seq<string>, keyword: string): Option<int> {
    NumberOfToken(At(rest, IndexOf(rest, keyword) + 1))
  }

  function ValidateIf(value: seq<string>, src: string): Option<Reason> {
    if |value| == 0 then Some(HostError)
    else if "\"" in value && FirstQuotedRaw(Join(value, " ")).None? then Some(HostError)
    else
      var name := StripBrackets(value[0]);
      var operator := At(value, if "FIRST" in value then 2 else 1);
      var opTo := IfComparandChecked(value);
      if operator.None? || !IsOperator(operator.value) then Some(BadIf)
      else if opTo.None? || opTo.value == "" then Some(BadIf)
      else if "ELSE" in value && IfTarget(value, "ELSE").None? then Some(BadIf)
      else if IfTarget(value, "THEN").None? then Some(BadIf)
      else if name == "" then Some(BadIf)
      else if !Declared(src, name) then Some(NotDeclared)
      else if '$' in name then
        if !QuoteDelimited(opTo.value) then Some(BadIfType) else None
      else if ToNumber(opTo.value).None? then Some(BadIfType)
      else None
  }

  function ValidateGoto(value: seq<string>): Option<Reason> {
    var val := Join(value, " ");
    if ToNumber(val).None? then Some(BadGoto)
    else if val == "" then Some(BadGoto)
    else None
  }

  /** validateTokens(ln, cmd, rest, i, source): `None` when the row passes,
      otherwise the reason of the first check that throws. */
  function Validate(row: seq<string>, src: string): Option<Reason> {
    if !LineNumberOk(row) then Some(BadLineNumber)
    else if |row| < 2 || row[1] !in Commands then Some(BadCommand)
    else
      var value := row[2..];
      if row[1] == "SET" then ValidateSet(value)
      else if row[1] == "INPUT" then ValidateInput(value, src)
      else if row[1] == "IF" then ValidateIf(value, src)
      else if row[1] == "GOTO" then ValidateGoto(value)
      else None
  }

  // ---------------------------------------------------------------------
  // parseTokens: building the record of a validated row
  // ---------------------------------------------------------------------

  /** getPrintAlignment: the token before a trailing colour token (one holding
      "#"), or the last token, when it is LEFT, CENTER or RIGHT; else JUSTIFY. */
  function PrintAlignment(tokens: seq<string>): (r: string)
    requires |tokens| > 0
    ensures r == "LEFT" || r == "CENTER" || r == "RIGHT" || r == "JUSTIFY"
    ensures var pos := if '#' in tokens[|tokens| - 1] then |tokens| - 2 else |tokens| - 1;
      (r != "JUSTIFY" <==> 0 <= pos && tokens[pos] in Alignments)
      && (r != "JUSTIFY" ==> r == tokens[pos])
  {
    var hasColor := '#' in tokens[|tokens| - 1];
    var alignPos := if hasColor then |tokens| - 2 else |tokens| - 1;
    match At(tokens, alignPos)
    case Some(a) => if a in Alignments then a else "JUSTIFY"
    case None => "JUSTIFY"
  }

  /** The colour of a PRINT: its last token when that holds "#". */
  function PrintColor(tokens: seq<string>): Option<string>
    requires |tokens| > 0
  {
    if '#' in tokens[|tokens| - 1] then Some(tokens[|tokens| - 1]) else None
  }

  /** The comparand the parser stores: the first quoted text when the joined
      row holds any quote (`None` when that match fails and the host throws),
      else rest[2]; kept as a string for a "$" variable and passed through
      Number() otherwise. */
  function ParsedComparand(rest: seq<string>, isString: bool): Option<Value> {
    var joined := Join(rest, " ");
    if '"' in joined then
      match FirstQuoted(joined)
      case None => None
      case Some(t) => Some(if isString then Str(t) else NumberValue(t))
    else
      var t := At(rest, 2);
      if isString then Some(if t.Some? then Str(t.value) else Undefined)
      else Some(if NumberOfToken(t).Some? then Num(NumberOfToken(t).value) else NaN)
  }

  /** The IF record: the variable is always rest[0], the operator is rest[2]
      whenever FIRST appears anywhere. */
  function BuildIf(ln: int, rest: seq<string>, src: string): Result<Instr, Reason>
    requires ValidateIf(rest, src).None?
  {
    var firstOnly := "FIRST" in rest;
    var name := StripBrackets(rest[0]);
    var onFalse := if "ELSE" in rest then Some(IfTarget(rest, "ELSE").value) else None;
    match ParsedComparand(rest, '$' in name)
    case None => Failure(HostError)
    case Some(opTo) =>
      Success(If(ln, firstOnly, name, rest[if firstOnly then 2 else 1], opTo, IfTarget(rest, "THEN").value, onFalse))
  }

  /** The END alignment: the last argument, "LEFT" when that argument is the
      word END itself, and `undefined` (`None`) when there is no argument. */
  function EndAlignment(rest: seq<string>): Option<string> {
    var last := At(rest, |rest| - 1);
    if last == Some("END") then Some("LEFT") else last
  }

  /** SET: a name without "$" holds Number(...) of every token after "=",
      joined; a "$" name holds them joined with every quote removed. */
  function BuildSet(ln: int, rest: seq<string>): (r: Instr)
    requires |rest| >= 3
    ensures r.Set? && r.ln == ln && r.varName == rest[0]
  {
    var name := rest[0];
    var initVal := Join(rest[2..], " ");
    Set(ln, name, if '$' in name then Str(RemoveQuotes(initVal)) else NumberValue(initVal), Join(rest, " "))
  }

  /** PRINT: the first quoted text, its alignment and colour; a row without
      arguments or without a quoted text makes the host throw. */
  function BuildPrint(ln: int, rest: seq<string>): (r: Result<Instr, Reason>)
    ensures r.Success? ==> r.value.Print? && r.value.ln == ln
  {
    var joined := Join(rest, " ");
    if |rest| == 0 || FirstQuoted(joined).None? then Failure(HostError)
    else Success(Print(ln, FirstQuoted(joined).value, PrintAlignment(rest), PrintColor(rest)))
  }

  /** EXPR: the first quoted text is the expression, the last token names the
      output variable. */
  function BuildExpr(ln: int, rest: seq<string>): (r: Result<Instr, Reason>)
    ensures r.Success? ==> r.value.Expr? && r.value.ln == ln
  {
    var joined := Join(rest, " ");
    if |rest| == 0 || FirstQuoted(joined).None? then Failure(HostError)
    else Success(Expr(ln, FirstQuoted(joined).value, rest[|rest| - 1]))
  }

  /** The record parseTokens pushes for a row that passed validation, or the
      host error raised while building it (a failed quote match on PRINT, IF
      or EXPR). */
  function Build(row: seq<string>, src: string): (r: Result<Instr, Reason>)
    requires Validate(row, src).None?
    ensures r.Success? ==> r.value.ln == ToNumber(row[0]).value && Command(r.value) == row[1]
  {
    var ln := ToNumber(row[0]).value;
    var cmd := row[1];
    var rest := row[2..];
    if cmd == "SET" then Success(BuildSet(ln, rest))
    else if cmd == "PRINT" then BuildPrint(ln, rest)
    else if cmd == "INPUT" then Success(Input(ln, rest[|rest| - 1]))
    else if cmd == "WAIT" then Success(Wait(ln))
    else if cmd == "REM" then Success(Rem(ln, Join(rest, " ")))
    else if cmd == "IF" then BuildIf(ln, rest, src)
    else if cmd == "CLS" then Success(Cls(ln))
    else if cmd == "END" then Success(End(ln, EndAlignment(rest)))
    else if cmd == "GOTO" then Success(Goto(ln, ToNumber(Join(rest, " ")).value))
    else if cmd == "EXPR" then BuildExpr(ln, rest)
    else if cmd == "RETURN" then Success(Return(ln))
    else Success(Gosub(ln, ToNumber(Join(rest, " "))))
  }

  /** One iteration of parseTokens: validate row `i`, then build its record.
      A record carries Number(first token), never negative, as its line
      number and the row's command; an error names the row. */
  function ParseRow(row: seq<string>, i: nat, src: string): (r: Result<Instr, ParseError>)
    ensures r.Success? <==> Validate(row, src).None? && Build(row, src).Success?
    ensures r.Success? ==>
      LineNumberOk(row) && |row| >= 2 && row[1] in Commands
      && r.value.ln == ToNumber(row[0]).value && Command(r.value) == row[1]
    ensures r.Failure? ==> r.error.row == i
  {
    match Validate(row, src)
    case Some(reason) => Failure(ParseError(i, reason))
    case None =>
      match Build(row, src)
      case Failure(reason) => Failure(ParseError(i, reason))
      case Success(ins) => Success(ins)
  }

  /** The outcome of every row taken on its own. */
  function RowResults(tokens: seq<seq<string>>, src: string): (r: seq<Result<Instr, ParseError>>)
    ensures |r| == |tokens|
    ensures forall k :: 0 <= k < |tokens| ==> r[k] == ParseRow(tokens[k], k, src)
  {
    seq(|tokens|, k requires 0 <= k < |tokens| => ParseRow(tokens[k], k, src))
  }

  /** Running the rows in order: the values of all of them, or the error of
      the first that failed. */
  function Collect<T, E>(rs: seq<Result<T, E>>): Result<seq<T>, E> {
    if |rs| == 0 then Success([])
    else
      match Collect(rs[..|rs| - 1])
      case Failure(e) => Failure(e)
      case Success(acc) =>
        match rs[|rs| - 1]
        case Failure(e) => Failure(e)
        case Success(x) => Success(acc + [x])
  }

  /** parseTokens(tokens, source) */
  function ParseAll(tokens: seq<seq<string>>, src: string): Result<seq<Instr>, ParseError> {
    Collect(RowResults(tokens, src))
  }

  /** questsl(input) before the catch: tokenize, then parse against the whole text. */
  function Parse(input: string): Result<seq<Instr>, ParseError> {
    ParseAll(Tokenize(input), input)
  }

  /** Once a row has failed, no later row changes the outcome. */
  lemma {:induction false} FailureSticks<T, E>(rs: seq<Result<T, E>>, n: nat)
    requires n <= |rs|
    requires Collect(rs[..n]).Failure?
    ensures Collect(rs) == Collect(rs[..n])
    decreases |rs|
  {
    if n < |rs| {
      assert rs[..|rs| - 1][..n] == rs[..n];
      FailureSticks(rs[..|rs| - 1], n);
    } else {
      assert rs[..n] == rs;
    }
  }

  /** The parseTokens loop: push one record per row, stop at the first throw. */
  method ParseTokens(tokens: seq<seq<string>>, src: string) returns (r: Result<seq<Instr>, ParseError>)
    ensures r == ParseAll(tokens, src)
  {
    ghost var rs := RowResults(tokens, src);
    var acc: seq<Instr> := [];
    for i := 0 to |tokens|
      invariant Collect(rs[..i]) == Success(acc)
    {
      var row := ParseRow(tokens[i], i, src);
      assert rs[..i + 1][..i] == rs[..i];
      if row.Failure? {
        FailureSticks(rs, i + 1);
        return Failure(row.error);
      }
      acc := acc + [row.value];
    }
    assert rs[..|tokens|] == rs;
    return Success(acc);
  }

  /** questsl: the program, or nothing when any row throws (the catch logs the
      message and the function returns `undefined`). */
  method Questsl(input: string) returns (game: Option<seq<Instr>>)
    ensures game.Some? <==> Parse(input).Success?
    ensures game.Some? ==> game.value == Parse(input).value
  {
    var tokens := Tokenize(input);
    var r := ParseTokens(tokens, input);
    if r.Success? {
      game := Some(r.value);
    } else {
      game := None;
    }
  }
}
