/** Properties of the parser: all-or-nothing, row for row, and what each
    command's validation accepts and its record holds. */
module ParserProps {
  import opened Wrappers
  import opened JsText
  import opened Values
  import opened Program
  import opened Lexer
  import opened Parser

  // ---------------------------------------------------------------------
  // All or nothing, row for row
  // ---------------------------------------------------------------------

  /** Collecting succeeds exactly when every row does, and then holds one
      value per row, in order. */
  lemma {:induction false} CollectRowForRow<T, E>(rs: seq<Result<T, E>>)
    ensures Collect(rs).Success? <==> forall k :: 0 <= k < |rs| ==> rs[k].Success?
    ensures Collect(rs).Success? ==>
      |Collect(rs).value| == |rs| && forall k :: 0 <= k < |rs| ==> Collect(rs).value[k] == rs[k].value
    decreases |rs|
  {
    if |rs| > 0 {
      var init := rs[..|rs| - 1];
      CollectRowForRow(init);
      assert forall k :: 0 <= k < |init| ==> init[k] == rs[k];
    }
  }

  /** The error reported is the one of the first failing row. */
  lemma {:induction false} CollectFirstFailure<T, E>(rs: seq<Result<T, E>>, k: nat)
    requires k < |rs| && rs[k].Failure?
    requires forall j :: 0 <= j < k ==> rs[j].Success?
    ensures Collect(rs) == Failure(rs[k].error)
    decreases |rs|
  {
    var init := rs[..|rs| - 1];
    if k < |rs| - 1 {
      CollectFirstFailure(init, k);
    } else {
      CollectRowForRow(init);
    }
  }

  /** A parse succeeds exactly when every row validates and builds; it then
      yields exactly one record per row, in order. */
  lemma ParseAllRowForRow(tokens: seq<seq<string>>, src: string)
    ensures ParseAll(tokens, src).Success? <==> forall k :: 0 <= k < |tokens| ==> ParseRow(tokens[k], k, src).Success?
    ensures ParseAll(tokens, src).Success? ==>
      |ParseAll(tokens, src).value| == |tokens|
      && forall k :: 0 <= k < |tokens| ==> ParseAll(tokens, src).value[k] == ParseRow(tokens[k], k, src).value
  {
    CollectRowForRow(RowResults(tokens, src));
  }

  /** The whole parse fails with the error of its first failing row. */
  lemma ParseAllFirstFailure(tokens: seq<seq<string>>, src: string, k: nat)
    requires k < |tokens| && ParseRow(tokens[k], k, src).Failure?
    requires forall j :: 0 <= j < k ==> ParseRow(tokens[j], j, src).Success?
    ensures ParseAll(tokens, src) == Failure(ParseRow(tokens[k], k, src).error)
  {
    CollectFirstFailure(RowResults(tokens, src), k);
  }

  /** A successful parse labels each record with the number the first token
      of its row spells. */
  lemma ParseAllLineNumbers(tokens: seq<seq<string>>, src: string)
    requires ParseAll(tokens, src).Success?
    ensures |ParseAll(tokens, src).value| == |tokens|
    ensures forall k :: 0 <= k < |tokens| ==>
      |tokens[k]| > 0 && ToNumber(tokens[k][0]) == Some(ParseAll(tokens, src).value[k].ln)
  {
    ParseAllRowForRow(tokens, src);
    var prog := ParseAll(tokens, src).value;
    forall k | 0 <= k < |tokens|
      ensures |tokens[k]| > 0 && ToNumber(tokens[k][0]) == Some(prog[k].ln)
    {
      var r := ParseRow(tokens[k], k, src);
      assert prog[k] == r.value;
    }
  }
}

module ParserRules {
  import opened Wrappers
  import opened JsText
  import opened Values
  import opened Program
  import opened Parser

  // ---------------------------------------------------------------------
  // What validation accepts, command by command
  // ---------------------------------------------------------------------

  /** A bad line number is the first thing reported; an unknown or missing
      command the second. */
  lemma RejectsLineNumberAndCommand(row: seq<string>, i: nat, src: string)
    ensures !LineNumberOk(row) ==> ParseRow(row, i, src) == Failure(ParseError(i, BadLineNumber))
    ensures LineNumberOk(row) && (|row| < 2 || row[1] !in Commands) ==>
      ParseRow(row, i, src) == Failure(ParseError(i, BadCommand))
  {
  }

  /** SET needs "=" as its second argument; a "$" variable needs a value token
      that starts and ends with a quote, any other a number without quotes. */
  lemma SetRejects(row: seq<string>, i: nat, src: string)
    requires LineNumberOk(row) && |row| >= 2 && row[1] == "SET"
    ensures |row| < 4 || row[3] != "=" ==> ParseRow(row, i, src) == Failure(ParseError(i, BadSet))
    ensures |row| >= 5 && row[3] == "=" && '$' in row[2] && !QuoteDelimited(row[4]) ==>
      ParseRow(row, i, src) == Failure(ParseError(i, BadSetString))
    ensures |row| >= 5 && row[3] == "=" && '$' !in row[2]
      && (At(row[4], 0) == Some('"') || At(row[4], |row[4]| - 1) == Some('"') || ToNumber(row[4]).None?)
      ==> ParseRow(row, i, src) == Failure(ParseError(i, BadSetNumber))
  {
    var value := row[2..];
    assert Validate(row, src) == ValidateSet(value);
    if |row| < 4 || row[3] != "=" {
      assert At(value, 1) != Some("=");
    } else if |row| >= 5 {
      assert At(value, 1) == Some("=") && value[0] == row[2] && value[2] == row[4];
    }
  }

  /** A SET record stores, for a "$" name, the value tokens joined by spaces
      with every quote removed, and for any other name Number(...) of that
      join (a number or NaN); a single numeric value token is stored as that
      number. */
  lemma SetValueTyping(row: seq<string>, i: nat, src: string)
    requires ParseRow(row, i, src).Success? && row[1] == "SET"
    ensures var ins := ParseRow(row, i, src).value;
      && ins.Set? && ins.varName == row[2]
      && ('$' in row[2] ==> ins.initVal == Str(RemoveQuotes(Join(row[4..], " "))))
      && ('$' in row[2] ==> '"' !in ins.initVal.s)
      && ('$' !in row[2] ==> ins.initVal == NumberValue(Join(row[4..], " ")))
      && ('$' !in row[2] ==> ins.initVal.Num? || ins.initVal.NaN?)
      && ('$' !in row[2] && |row| == 5 ==> ToNumber(row[4]) == Some(ins.initVal.n))
  {
    assert |row| >= 5;
    assert row[2..][2..] == row[4..];
    if |row| == 5 {
      assert row[4..] == [row[4]];
    }
  }

  /** SET X$ = "text" stores the text between the quotes. */
  lemma SetStringValue(row: seq<string>, i: nat, src: string)
    requires ParseRow(row, i, src).Success? && row[1] == "SET"
    requires '$' in row[2] && |row| == 5
    requires |row[4]| >= 2 && '"' !in row[4][1..|row[4]| - 1]
    ensures ParseRow(row, i, src).value.initVal == Str(row[4][1..|row[4]| - 1])
  {
    SetValueTyping(row, i, src);
    var value := row[2..];
    assert Validate(row, src) == ValidateSet(value);
    assert value[0] == row[2] && value[2] == row[4];
    var t := row[4][1..|row[4]| - 1];
    assert row[4] == "\"" + t + "\"";
    assert row[4..] == [row[4]];
    RemoveQuotesWrapped(t);
  }

  /** INPUT is accepted exactly when its last token is a "$" name declared by
      some "SET <name>" in the source; the record names that variable. */
  lemma InputAccepted(row: seq<string>, i: nat, src: string)
    requires LineNumberOk(row) && |row| >= 2 && row[1] == "INPUT"
    ensures ParseRow(row, i, src).Success? <==>
      |row| >= 3 && row[|row| - 1] != "" && row[|row| - 1][|row[|row| - 1]| - 1] == '$'
      && Declared(src, row[|row| - 1])
    ensures ParseRow(row, i, src).Success? ==>
      ParseRow(row, i, src).value == Input(ToNumber(row[0]).value, row[|row| - 1])
    ensures |row| >= 3 && row[|row| - 1] != "" && row[|row| - 1][|row[|row| - 1]| - 1] != '$' ==>
      ParseRow(row, i, src) == Failure(ParseError(i, InputNotString))
  {
  }

  /** What the validator has checked of an IF row it lets through. */
  lemma ValidIfFacts(rest: seq<string>, src: string)
    requires ValidateIf(rest, src).None?
    ensures |rest| > 0
    ensures var name := StripBrackets(rest[0]);
      && name != "" && Declared(src, name)
      && At(rest, if "FIRST" in rest then 2 else 1).Some?
      && IsOperator(At(rest, if "FIRST" in rest then 2 else 1).value)
      && IfTarget(rest, "THEN").Some?
      && ("ELSE" in rest ==> IfTarget(rest, "ELSE").Some?)
      && IfComparandChecked(rest).Some?
      && ('$' in name ==> QuoteDelimited(IfComparandChecked(rest).value))
      && ('$' !in name ==> ToNumber(IfComparandChecked(rest).value).Some?)
  {
  }

  /** The fields of the IF record built from a validated row. The comparand
      is the first quoted text of the row, kept as text for a "$" variable
      and read as a number otherwise; without quotes and without FIRST it is
      the number of the token the validator checked. */
  lemma BuildIfFacts(ln: int, rest: seq<string>, src: string)
    requires ValidateIf(rest, src).None?
    requires BuildIf(ln, rest, src).Success?
    ensures var ins := BuildIf(ln, rest, src).value;
      && ins.If? && |rest| > 0
      && ins.firstOnly == ("FIRST" in rest)
      && ins.vName == StripBrackets(rest[0])
      && ins.operator == rest[if ins.firstOnly then 2 else 1]
      && IfTarget(rest, "THEN") == Some(ins.onTrue)
      && (ins.onFalse.Some? <==> "ELSE" in rest)
      && (ins.onFalse.Some? ==> IfTarget(rest, "ELSE") == Some(ins.onFalse.value))
      && ('$' in ins.vName ==> '"' in Join(rest, " ") && ins.opTo == Str(FirstQuoted(Join(rest, " ")).value))
      && ('$' !in ins.vName && '"' in Join(rest, " ") ==> ins.opTo == NumberValue(FirstQuoted(Join(rest, " ")).value))
      && ('$' !in ins.vName && !ins.firstOnly && '"' !in Join(rest, " ") ==>
            |rest| > 2 && IfComparandChecked(rest) == Some(rest[2]) && ins.opTo == Num(ToNumber(rest[2]).value))
  {
    ValidIfFacts(rest, src);
    var name := StripBrackets(rest[0]);
    if "\"" in rest {
      var k :| 0 <= k < |rest| && rest[k] == "\"";
      JoinIncludes(rest, " ", k, '"');
    } else if '$' in name {
      var pos := if "FIRST" in rest then 3 else 2;
      assert IfComparandChecked(rest) == Some(rest[pos]);
      assert rest[pos][0] == '"';
      JoinIncludes(rest, " ", pos, '"');
    }
  }

  /** An accepted IF names its variable by rest[0] with the first "[" and "]"
      removed, reads its operator from rest[2] whenever FIRST appears anywhere,
      and has passed every check: a known operator, a numeric THEN target, a
      numeric ELSE target exactly when there is an ELSE, a declared variable,
      and a comparand quoted exactly when the variable is a "$" one
      (IfComparand says what the comparand then is). */
  lemma IfAccepted(row: seq<string>, i: nat, src: string)
    requires ParseRow(row, i, src).Success? && row[1] == "IF"
    ensures var ins := ParseRow(row, i, src).value; var rest := row[2..];
      && ins.If? && |rest| > 0
      && ins.firstOnly == ("FIRST" in rest)
      && ins.vName == StripBrackets(rest[0]) && ins.vName != ""
      && ins.operator == rest[if ins.firstOnly then 2 else 1]
      && IsOperator(ins.operator)
      && Declared(src, ins.vName)
      && IfTarget(rest, "THEN") == Some(ins.onTrue)
      && (ins.onFalse.Some? <==> "ELSE" in rest)
      && (ins.onFalse.Some? ==> IfTarget(rest, "ELSE") == Some(ins.onFalse.value))
      && IfComparandChecked(rest).Some?
      && ('$' in ins.vName ==> QuoteDelimited(IfComparandChecked(rest).value))
      && ('$' !in ins.vName ==> ToNumber(IfComparandChecked(rest).value).Some?)
  {
    var rest := row[2..];
    var ln := ToNumber(row[0]).value;
    assert Validate(row, src) == ValidateIf(rest, src);
    assert Build(row, src) == BuildIf(ln, rest, src);
    ValidIfFacts(rest, src);
    BuildIfFacts(ln, rest, src);
  }

  /** The comparand of an accepted IF: for a "$" variable the first quoted
      text of its arguments; for a numeric one the number that quoted text
      spells when there are quotes, and otherwise (without FIRST) the number
      of the very token the validator checked. */
  lemma IfComparand(row: seq<string>, i: nat, src: string)
    requires ParseRow(row, i, src).Success? && row[1] == "IF"
    ensures var ins := ParseRow(row, i, src).value; var rest := row[2..];
      && ins.If?
      && ('$' in ins.vName ==> '"' in Join(rest, " ") && ins.opTo == Str(FirstQuoted(Join(rest, " ")).value))
      && ('$' !in ins.vName && '"' in Join(rest, " ") ==> ins.opTo == NumberValue(FirstQuoted(Join(rest, " ")).value))
      && ('$' !in ins.vName && !ins.firstOnly && '"' !in Join(rest, " ") ==>
            |rest| > 2 && IfComparandChecked(rest) == Some(rest[2]) && ins.opTo == Num(ToNumber(rest[2]).value))
  {
    var rest := row[2..];
    var ln := ToNumber(row[0]).value;
    assert Validate(row, src) == ValidateIf(rest, src);
    assert Build(row, src) == BuildIf(ln, rest, src);
    BuildIfFacts(ln, rest, src);
  }

  /** GOTO is accepted exactly when its arguments, joined, spell a number. */
  lemma GotoAccepted(row: seq<string>, i: nat, src: string)
    requires LineNumberOk(row) && |row| >= 2 && row[1] == "GOTO"
    ensures var arg := Join(row[2..], " ");
      && (ParseRow(row, i, src).Success? <==> arg != "" && ToNumber(arg).Some?)
      && (ParseRow(row, i, src).Success? ==> ParseRow(row, i, src).value == Goto(ToNumber(row[0]).value, ToNumber(arg).value))
      && (ParseRow(row, i, src).Failure? ==> ParseRow(row, i, src).error == ParseError(i, BadGoto))
  {
  }

  /** PRINT needs a quoted text; its record holds the first quoted text of the
      arguments without its quotes (FirstQuotedMeaning says which one that
      is), the alignment getPrintAlignment reads (one of LEFT, CENTER, RIGHT
      and JUSTIFY), and the last token as colour exactly when that token
      holds "#". */
  lemma PrintRecord(row: seq<string>, i: nat, src: string)
    requires LineNumberOk(row) && |row| >= 2 && row[1] == "PRINT"
    ensures ParseRow(row, i, src).Success? <==> |row| >= 3 && FirstQuoted(Join(row[2..], " ")).Some?
    ensures ParseRow(row, i, src).Success? ==>
      var ins := ParseRow(row, i, src).value;
      && ins.Print? && '"' !in ins.text
      && ins.text == FirstQuoted(Join(row[2..], " ")).value
      && ins.alignment == PrintAlignment(row[2..])
      && ins.alignment in ["LEFT", "CENTER", "RIGHT", "JUSTIFY"]
      && (ins.color.Some? <==> '#' in row[|row| - 1])
      && (ins.color.Some? ==> ins.color.value == row[|row| - 1])
  {
    assert Validate(row, src) == None;
    assert ParseRow(row, i, src) == (match BuildPrint(ToNumber(row[0]).value, row[2..])
      case Success(ins) => Success(ins)
      case Failure(reason) => Failure(ParseError(i, reason)));
    if |row| >= 3 {
      assert row[2..][|row[2..]| - 1] == row[|row| - 1];
    }
  }

  /** EXPR needs a quoted text; its record holds the first quoted text of the
      arguments as the expression and the last token as the output variable. */
  lemma ExprRecord(row: seq<string>, i: nat, src: string)
    requires LineNumberOk(row) && |row| >= 2 && row[1] == "EXPR"
    ensures ParseRow(row, i, src).Success? <==> |row| >= 3 && FirstQuoted(Join(row[2..], " ")).Some?
    ensures ParseRow(row, i, src).Success? ==>
      ParseRow(row, i, src).value
        == Expr(ToNumber(row[0]).value, FirstQuoted(Join(row[2..], " ")).value, row[|row| - 1])
  {
    assert Validate(row, src) == None;
    assert ParseRow(row, i, src) == (match BuildExpr(ToNumber(row[0]).value, row[2..])
      case Success(ins) => Success(ins)
      case Failure(reason) => Failure(ParseError(i, reason)));
    if |row| >= 3 {
      assert row[2..][|row[2..]| - 1] == row[|row| - 1];
    }
  }

  /** END's alignment is its last argument, LEFT only when that argument is
      the word END, and undefined when there is none. */
  lemma EndRecord(row: seq<string>, i: nat, src: string)
    requires LineNumberOk(row) && |row| >= 2 && row[1] == "END"
    ensures ParseRow(row, i, src).Success?
    ensures ParseRow(row, i, src).value.endAlignment ==
      if |row| == 2 then None
      else if row[|row| - 1] == "END" then Some("LEFT")
      else Some(row[|row| - 1])
  {
    assert Validate(row, src) == None;
    assert ParseRow(row, i, src) == Success(End(ToNumber(row[0]).value, EndAlignment(row[2..])));
  }

  // ---------------------------------------------------------------------
  // Quirks of the IF record
  // ---------------------------------------------------------------------

  /** No operator spells a number. */
  lemma OperatorIsNotNumber(op: string)
    requires IsOperator(op)
    ensures ToNumber(op) == None
  {
    TrimKeeps(op);
    assert !AllDigits(op) by {
      assert !IsDigit(op[0]);
    }
  }

  /** With FIRST, a numeric IF without quotes always compares against NaN: the
      parser reads the comparand from rest[2], which is the operator. */
  lemma IfFirstNumericIsNaN(row: seq<string>, i: nat, src: string)
    requires ParseRow(row, i, src).Success? && row[1] == "IF"
    requires ParseRow(row, i, src).value.firstOnly
    requires '$' !in ParseRow(row, i, src).value.vName
    requires '"' !in Join(row[2..], " ")
    ensures ParseRow(row, i, src).value.opTo == NaN
  {
    IfAccepted(row, i, src);
    OperatorIsNotNumber(ParseRow(row, i, src).value.operator);
  }
}

module ParserExamples {
  import opened Wrappers
  import opened JsText
  import opened Values
  import opened Program
  import opened Parser

  const StrayQuoteRow: seq<string> := ["X", "=", "5", "THEN", "20", "\"c\""]

  lemma StrayQuoteRowText()
    ensures Join(StrayQuoteRow, " ") == "X = 5 THEN 20 \"c\""
  {
  }

  lemma StrayQuoteRowMatch()
    ensures FirstQuoted("X = 5 THEN 20 \"c\"") == Some("c")
  {
    var joined := "X = 5 THEN 20 \"c\"";
    MatchSkips(joined, 0, 14);
    assert CloseQuote(joined, 15) == Some(16);
    assert MatchFrom(joined, 14) == Some((14, 16));
    assert joined[15..16] == "c";
  }

  /** The validator looks for a token that is exactly a quote, the parser for
      a quote anywhere in the row: with a quoted word after the THEN target,
      the validator checks the comparand 5 ... */
  lemma IfQuoteCheckedComparand()
    ensures IfComparandChecked(StrayQuoteRow) == Some("5")
  {
    assert "\"" !in StrayQuoteRow;
  }

  /** ... while the parser stores the number the word "c" spells, NaN. */
  lemma IfQuoteParsedComparand()
    ensures ParsedComparand(StrayQuoteRow, false) == Some(NaN)
  {
    var joined := Join(StrayQuoteRow, " ");
    StrayQuoteRowText();
    StrayQuoteRowMatch();
    assert '"' in joined by {
      assert joined[14] == '"';
    }
    WordIsNaN();
  }

  lemma WordIsNaN()
    ensures NumberValue("c") == NaN
  {
    TrimKeeps("c");
    assert !IsDigit('c');
  }
}
