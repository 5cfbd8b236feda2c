/** The tokenizer of the script language: source text becomes rows of tokens,
    one row per line that holds anything but white space. */
module Lexer {
  import opened JsText

  /** The non-empty strings of `ts`, in order (filter(tkn => tkn !== "")). */
  function NonEmpty(ts: seq<string>): (r: seq<string>)
    ensures |r| <= |ts|
    ensures forall k :: 0 <= k < |r| ==> |r[k]| > 0 && r[k] in ts
  {
    if |ts| == 0 then []
    else (if ts[0] == "" then [] else [ts[0]]) + NonEmpty(ts[1..])
  }

  /** The tokens of one line: trimmed, split on single spaces (other white
      space inside a line stays part of a token), empty tokens dropped. */
  function Row(line: string): seq<string> {
    NonEmpty(Split(Trim(line), ' '))
  }

  function TokenizeLines(lines: seq<string>): seq<seq<string>> {
    if |lines| == 0 then []
    else (if Row(lines[0]) == [] then [] else [Row(lines[0])]) + TokenizeLines(lines[1..])
  }

  /** tokenize: split the source on "\n", tokenize each line, drop empty rows. */
  function Tokenize(input: string): seq<seq<string>> {
    TokenizeLines(Split(input, '\n'))
  }

  predicate IsToken(t: string) {
    |t| > 0 && ' ' !in t && '\n' !in t
  }

  /** What every row of `Tokenize` looks like: non-empty, made of tokens, and
      neither starting nor ending with white space (trim removed it). */
  predicate WellFormedRow(row: seq<string>) {
    && |row| > 0
    && (forall k :: 0 <= k < |row| ==> IsToken(row[k]))
    && !IsSpace(row[0][0])
    && !IsSpace(row[|row| - 1][|row[|row| - 1]| - 1])
  }

  /** Re-joining rows: tokens with single spaces, rows with newlines. */
  function JoinRows(rows: seq<seq<string>>): (r: seq<string>)
    ensures |r| == |rows|
    ensures forall k :: 0 <= k < |rows| ==> r[k] == Join(rows[k], " ")
  {
    if |rows| == 0 then [] else [Join(rows[0], " ")] + JoinRows(rows[1..])
  }

  function Unlines(rows: seq<seq<string>>): string {
    Join(JoinRows(rows), "\n")
  }

  lemma {:induction false} NonEmptyKeeps(ts: seq<string>)
    requires forall k :: 0 <= k < |ts| ==> |ts[k]| > 0
    ensures NonEmpty(ts) == ts
  {
    if |ts| > 0 {
      NonEmptyKeeps(ts[1..]);
      assert ts[0] != "";
      assert NonEmpty(ts) == [ts[0]] + NonEmpty(ts[1..]);
      assert [ts[0]] + ts[1..] == ts;
    }
  }

  lemma {:induction false} NonEmptyLast(ts: seq<string>)
    requires |ts| > 0 && ts[|ts| - 1] != ""
    ensures var r := NonEmpty(ts); |r| > 0 && r[|r| - 1] == ts[|ts| - 1]
  {
    if |ts| > 1 {
      NonEmptyLast(ts[1..]);
    }
  }

  lemma BlankRow()
    ensures Row("") == []
  {
    assert Split("", ' ') == [""];
  }

  lemma RowTokens(line: string)
    requires '\n' !in line
    ensures forall k :: 0 <= k < |Row(line)| ==> IsToken(Row(line)[k])
  {
    var t := Trim(line);
    var pieces := Split(t, ' ');
    var row := Row(line);
    TrimExcludes(line, '\n');
    SplitExcludes(t, ' ', '\n');
    forall k | 0 <= k < |row| ensures IsToken(row[k]) {
      var j :| 0 <= j < |pieces| && pieces[j] == row[k];
    }
  }

  lemma RowEnds(line: string)
    requires Row(line) != []
    ensures var row := Row(line); var t := Trim(line);
      |t| > 0 && |row[0]| > 0 && row[0][0] == t[0]
      && |row[|row| - 1]| > 0 && row[|row| - 1][|row[|row| - 1]| - 1] == t[|t| - 1]
  {
    var t := Trim(line);
    var pieces := Split(t, ' ');
    BlankRow();
    assert t != "";
    SplitFirst(t, ' ');
    SplitLast(t, ' ');
    NonEmptyLast(pieces);
  }

  lemma RowShape(line: string)
    requires '\n' !in line
    requires Row(line) != []
    ensures WellFormedRow(Row(line))
  {
    RowTokens(line);
    RowEnds(line);
  }

  lemma {:induction false} TokenizeLinesShape(lines: seq<string>)
    requires forall k :: 0 <= k < |lines| ==> '\n' !in lines[k]
    ensures forall k :: 0 <= k < |TokenizeLines(lines)| ==> WellFormedRow(TokenizeLines(lines)[k])
  {
    if |lines| > 0 {
      TokenizeLinesShape(lines[1..]);
      if Row(lines[0]) != [] {
        RowShape(lines[0]);
      }
    }
  }

  /** Every row is non-empty, and every token is non-empty and holds neither a
      space nor a newline. */
  lemma TokenizeShape(input: string)
    ensures forall k :: 0 <= k < |Tokenize(input)| ==> WellFormedRow(Tokenize(input)[k])
  {
    TokenizeLinesShape(Split(input, '\n'));
  }

  lemma RowOfJoin(row: seq<string>)
    requires WellFormedRow(row)
    ensures Row(Join(row, " ")) == row
  {
    var j := Join(row, " ");
    JoinEnds(row, " ");
    TrimKeeps(j);
    SplitJoin(row, ' ');
    NonEmptyKeeps(row);
  }

  lemma {:induction false} TokenizeJoinedLines(rows: seq<seq<string>>)
    requires forall k :: 0 <= k < |rows| ==> WellFormedRow(rows[k])
    ensures TokenizeLines(JoinRows(rows)) == rows
  {
    if |rows| > 0 {
      TokenizeJoinedLines(rows[1..]);
      RowOfJoin(rows[0]);
      assert JoinRows(rows)[1..] == JoinRows(rows[1..]);
      assert [rows[0]] + rows[1..] == rows;
    }
  }

  /** Joining well-formed rows with single spaces and newlines and tokenizing
      again gives the same rows. */
  lemma {:induction false} RetokenizeJoined(rows: seq<seq<string>>)
    requires forall k :: 0 <= k < |rows| ==> WellFormedRow(rows[k])
    ensures Tokenize(Unlines(rows)) == rows
  {
    if |rows| == 0 {
      assert Split("", '\n') == [""];
      BlankRow();
    } else {
      var lines := JoinRows(rows);
      forall k | 0 <= k < |lines| ensures '\n' !in lines[k] {
        JoinExcludes(rows[k], " ", '\n');
      }
      SplitJoin(lines, '\n');
      TokenizeJoinedLines(rows);
    }
  }

  /** Tokenization is idempotent up to white-space normalisation. */
  lemma TokenizeRoundTrip(input: string)
    ensures Tokenize(Unlines(Tokenize(input))) == Tokenize(input)
  {
    TokenizeShape(input);
    RetokenizeJoined(Tokenize(input));
  }
}
