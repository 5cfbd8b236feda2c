/** The variable store and what the interpreter computes from it: JavaScript
    values as the store holds them, their text, the IF comparison `op`, and
    the `[name]` interpolation of `renderVars`. */
module Values {
  import opened Wrappers
  import opened JsText

  /** A value in the store: a number (integers only), NaN, a string, or
      `undefined` (what reading an absent key yields). */
  datatype Value = Num(n: int) | NaN | Str(s: string) | Undefined

  /** The store `vm`: variable name, sigil included, to value. */
  type Store = map<string, Value>

  /** vm[key]: an absent key reads as `undefined`. */
  function Lookup(vm: Store, key: string): Value {
    if key in vm then vm[key] else Undefined
  }

  /** Number(s) as a store value. */
  function NumberValue(s: string): Value {
    match ToNumber(s)
    case Some(n) => Num(n)
    case None => NaN
  }

  /** String(v): the text a value is interpolated as. */
  function ToText(v: Value): string {
    match v
    case Num(n) => IntToString(n)
    case NaN => "NaN"
    case Str(s) => s
    case Undefined => "undefined"
  }

  // ---------------------------------------------------------------------
  // Comparison (op)
  // ---------------------------------------------------------------------

  /** The six operators the validator accepts. */
  predicate IsOperator(op: string) {
    op == "=" || op == "<" || op == ">" || op == "<=" || op == ">=" || op == "<>"
  }

  /** `===` */
  predicate StrictEquals(a: Value, b: Value) {
    match (a, b)
    case (Num(x), Num(y)) => x == y
    case (Str(x), Str(y)) => x == y
    case (Undefined, Undefined) => true
    case _ => false
  }

  /** Conversion to a number for `<` and friends; `None` is NaN. */
  function NumericOf(v: Value): Option<int> {
    match v
    case Num(n) => Some(n)
    case NaN => None
    case Str(s) => ToNumber(s)
    case Undefined => None
  }

  /** Lexicographic order of strings, character by character. */
  predicate LexLess(a: string, b: string)
    decreases |a|
  {
    |b| > 0 && (|a| == 0 || a[0] < b[0] || (a[0] == b[0] && LexLess(a[1..], b[1..])))
  }

  /** a < b: strings compare lexicographically, anything else numerically,
      and NaN compares false. */
  predicate Less(a: Value, b: Value) {
    if a.Str? && b.Str? then LexLess(a.s, b.s)
    else match (NumericOf(a), NumericOf(b))
      case (Some(x), Some(y)) => x < y
      case _ => false
  }

  /** a <= b, which is not the same as !(b < a) once NaN is involved. */
  predicate LessEq(a: Value, b: Value) {
    if a.Str? && b.Str? then !LexLess(b.s, a.s)
    else match (NumericOf(a), NumericOf(b))
      case (Some(x), Some(y)) => x <= y
      case _ => false
  }

  /** v[0] for the FIRST modifier: the first character of a string, `undefined`
      on a number or an empty string, and `None` (a TypeError) on `undefined`. */
  function FirstOf(v: Value): Option<Value> {
    match v
    case Str(s) => Some(if |s| > 0 then Str([s[0]]) else Undefined)
    case Num(_) => Some(Undefined)
    case NaN => Some(Undefined)
    case Undefined => None
  }

  /** op(v, op, r, f): the IF comparison. An unknown operator yields false;
      `None` means the host threw (FIRST on an unset variable). */
  function Compare(v: Value, op: string, r: Value, firstOnly: bool): Option<bool> {
    var c := if firstOnly then FirstOf(v) else Some(v);
    match c
    case None => None
    case Some(c) =>
      Some(
        if op == "=" then StrictEquals(c, r)
        else if op == "<" then Less(c, r)
        else if op == ">" then Less(r, c)
        else if op == "<=" then LessEq(c, r)
        else if op == ">=" then LessEq(r, c)
        else if op == "<>" then !StrictEquals(c, r)
        else false)
  }

  /** `<>` is exactly the negation of `=`, for every value, comparand and flag. */
  lemma NotEqualNegatesEqual(v: Value, r: Value, firstOnly: bool)
    ensures Compare(v, "<>", r, firstOnly).Some? <==> Compare(v, "=", r, firstOnly).Some?
    ensures Compare(v, "<>", r, firstOnly).Some? ==>
      Compare(v, "<>", r, firstOnly).value == !Compare(v, "=", r, firstOnly).value
  {
  }

  /** An operator outside the six compares false. */
  lemma UnknownOperatorIsFalse(v: Value, op: string, r: Value, firstOnly: bool)
    requires !IsOperator(op)
    requires !firstOnly || !v.Undefined?
    ensures Compare(v, op, r, firstOnly) == Some(false)
  {
  }

  /** With FIRST, a number's v[0] is `undefined`, so only `<>` holds. */
  lemma FirstOnNumber(v: Value, op: string, r: Value)
    requires v.Num? || v.NaN?
    requires !r.Undefined?
    ensures Compare(v, op, r, true) == Some(op == "<>")
  {
  }

  /** With FIRST, a string is compared by its first character only. */
  lemma FirstOnString(s: string, op: string, c: string)
    requires |s| > 0
    ensures Compare(Str(s), op, Str(c), true) == Compare(Str([s[0]]), op, Str(c), false)
  {
  }

  /** With FIRST on an unset variable the host throws. */
  lemma FirstOnUnsetThrows(op: string, r: Value)
    ensures Compare(Undefined, op, r, true) == None
  {
  }

  /** Given X$ = "abc", IF X$ FIRST = "a" holds and IF X$ FIRST = "b" does not. */
  lemma FirstExample()
    ensures Compare(Str("abc"), "=", Str("a"), true) == Some(true)
    ensures Compare(Str("abc"), "=", Str("b"), true) == Some(false)
  {
    assert "abc"[0] == 'a';
    assert ['a'] == "a";
    assert "a" != "b";
  }

  // ---------------------------------------------------------------------
  // Interpolation (renderVars)
  // ---------------------------------------------------------------------

  /** One pass of the renderVars loop: the name between the first "[" and
      the first "]" (wherever that is) is looked up, and the first occurrence
      of "[name]" is replaced by the value's text. */
  function Substitute(vm: Store, s: string): string {
    var start := IndexOf(s, '[');
    var end := IndexOf(s, ']');
    var name := Slice(s, start + 1, end);
    Replace(s, "[" + name + "]", ToText(Lookup(vm, name)))
  }

  /** renderVars with at most `fuel` passes of its loop; `None` when the
      passes run out, which is how the source's endless loop shows up. */
  function RenderVarsSpec(vm: Store, s: string, fuel: nat): Option<string>
    decreases fuel, 1
  {
    if '[' !in s then Some(s) else RenderVarsPasses(vm, s, fuel)
  }

  /** The rest of renderVars once a "[" is seen: one more pass, if any fuel
      is left. */
  function RenderVarsPasses(vm: Store, s: string, fuel: nat): Option<string>
    decreases fuel, 0
  {
    if fuel == 0 then None else RenderVarsSpec(vm, Substitute(vm, s), fuel - 1)
  }

  /** renderVars resumed on `s` part-way through its loop, with `fuel`
      passes left. The loop's invariant is stated through it, so that
      checking the invariant unfolds RenderVarsSpec one pass deep only. */
  ghost function RenderVarsFrom(vm: Store, s: string, fuel: nat): Option<string> {
    RenderVarsSpec(vm, s, fuel)
  }

  /** One pass of the loop, for a text that still holds a "[". */
  lemma RenderVarsPass(vm: Store, s: string, fuel: nat)
    requires '[' in s && fuel > 0
    ensures RenderVarsSpec(vm, s, fuel) == RenderVarsSpec(vm, Substitute(vm, s), fuel - 1)
  {
  }

  /** Text without "[" comes back unchanged, whatever the fuel. */
  lemma RenderVarsNoBracket(vm: Store, s: string, fuel: nat)
    requires '[' !in s
    ensures RenderVarsSpec(vm, s, fuel) == Some(s)
  {
  }

  /** Whenever renderVars returns, its result holds no "[". */
  lemma {:induction false} RenderVarsResultHasNoBracket(vm: Store, s: string, fuel: nat)
    requires RenderVarsSpec(vm, s, fuel).Some?
    ensures '[' !in RenderVarsSpec(vm, s, fuel).value
    decreases fuel
  {
    if '[' in s {
      RenderVarsResultHasNoBracket(vm, Substitute(vm, s), fuel - 1);
    }
  }

  /** More passes never change a result already reached. */
  lemma {:induction false} RenderVarsMoreFuel(vm: Store, s: string, fuel: nat, more: nat)
    requires RenderVarsSpec(vm, s, fuel).Some?
    requires fuel <= more
    ensures RenderVarsSpec(vm, s, more) == RenderVarsSpec(vm, s, fuel)
    decreases fuel
  {
    if '[' in s {
      RenderVarsMoreFuel(vm, Substitute(vm, s), fuel - 1, more - 1);
    }
  }

  /** A "[" with no "]" anywhere after it or before it spins forever: the
      pattern "[...]" contains "]" and so is never found. */
  lemma {:induction false} RenderVarsUnclosedSpins(vm: Store, s: string, fuel: nat)
    requires '[' in s && ']' !in s
    ensures RenderVarsSpec(vm, s, fuel) == None
  {
    var start := IndexOf(s, '[');
    var end := IndexOf(s, ']');
    var name := Slice(s, start + 1, end);
    var p := "[" + name + "]";
    assert p[|p| - 1] == ']';
    NotFoundWhenAbsent(s, p, ']');
    assert Substitute(vm, s) == s;
    if fuel > 0 {
      RenderVarsUnclosedSpins(vm, s, fuel - 1);
    }
  }

  /** A text with a "[" that one pass leaves unchanged spins forever. */
  lemma {:induction false} RenderVarsFixpointSpins(vm: Store, s: string, fuel: nat)
    requires '[' in s && Substitute(vm, s) == s
    ensures RenderVarsSpec(vm, s, fuel) == None
  {
    if fuel > 0 {
      RenderVarsFixpointSpins(vm, s, fuel - 1);
    }
  }

  /** A variable whose value is its own reference spins forever. */
  lemma RenderVarsSelfReferenceSpins(vm: Store, name: string, fuel: nat)
    requires '[' !in name && ']' !in name
    requires Lookup(vm, name) == Str("[" + name + "]")
    ensures RenderVarsSpec(vm, "[" + name + "]", fuel) == None
  {
    var s := "[" + name + "]";
    assert s[0] == '[';
    SubstituteWhole(vm, name);
    RenderVarsFixpointSpins(vm, s, fuel);
  }



  /** A text that is exactly one reference "[name]" is replaced in one pass
      by the text of the name's value. */
  lemma SubstituteWhole(vm: Store, name: string)
    requires '[' !in name && ']' !in name
    ensures Substitute(vm, "[" + name + "]") == ToText(Lookup(vm, name))
  {
    var s := "[" + name + "]";
    IndexOfAt(s, 0, '[');
    assert s[..|name| + 1] == "[" + name;
    IndexOfAt(s, |name| + 1, ']');
    assert Slice(s, 1, |name| + 1) == name;
    FindSelf(s);
    var rep := ToText(Lookup(vm, name));
    assert "[" + Slice(s, IndexOf(s, '[') + 1, IndexOf(s, ']')) + "]" == s;
    assert Replace(s, s, rep) == s[..0] + rep + s[|s|..];
    assert s[..0] + rep + s[|s|..] == rep;
  }

  /** A text that is one reference to a value without "[" renders, in one
      pass, as that value's text. */
  lemma RenderVarsOneReference(vm: Store, name: string, fuel: nat)
    requires '[' !in name && ']' !in name && fuel >= 1
    requires '[' !in ToText(Lookup(vm, name))
    ensures RenderVarsSpec(vm, "[" + name + "]", fuel) == Some(ToText(Lookup(vm, name)))
  {
    var s := "[" + name + "]";
    assert s[0] == '[';
    SubstituteWhole(vm, name);
    assert RenderVarsSpec(vm, s, fuel) == RenderVarsSpec(vm, Substitute(vm, s), fuel - 1);
  }

  /** In a text that starts with a reference `[name]`, the first "[" and the
      first "]" delimit exactly that name. */
  lemma ReferenceAtHead(name: string, rest: string)
    requires '[' !in name && ']' !in name
    ensures var s := "[" + name + "]" + rest;
      IndexOf(s, '[') == 0 && IndexOf(s, ']') == |name| + 1 && Slice(s, 1, |name| + 1) == name
  {
    var s := "[" + name + "]" + rest;
    IndexOfAt(s, 0, '[');
    assert s[..|name| + 1] == "[" + name;
    IndexOfAt(s, |name| + 1, ']');
    assert s[1..|name| + 1] == name;
  }

  /** A text that starts with a reference `[name]` has that reference
      replaced by the name's value in one pass, the rest kept as it is. */
  lemma SubstituteLeading(vm: Store, name: string, rest: string)
    requires '[' !in name && ']' !in name
    ensures Substitute(vm, "[" + name + "]" + rest) == ToText(Lookup(vm, name)) + rest
  {
    var pat := "[" + name + "]";
    ReferenceAtHead(name, rest);
    ReplaceAtHead(pat, rest, ToText(Lookup(vm, name)));
  }

  /** Such a text renders in one pass when the value and the rest hold no "[". */
  lemma RenderVarsLeadingReference(vm: Store, name: string, rest: string, fuel: nat)
    requires '[' !in name && ']' !in name && fuel >= 1
    requires '[' !in ToText(Lookup(vm, name)) + rest
    ensures RenderVarsSpec(vm, "[" + name + "]" + rest, fuel) == Some(ToText(Lookup(vm, name)) + rest)
  {
    var s := "[" + name + "]" + rest;
    assert s[0] == '[';
    SubstituteLeading(vm, name, rest);
    assert RenderVarsSpec(vm, s, fuel) == RenderVarsSpec(vm, Substitute(vm, s), fuel - 1);
  }

  /** Given vm["X$"] = "abc", "[X$]" interpolates to "abc". */
  lemma RenderVarsExample(vm: Store, fuel: nat)
    requires Lookup(vm, "X$") == Str("abc")
    requires fuel >= 1
    ensures RenderVarsSpec(vm, "[X$]", fuel) == Some("abc")
  {
    assert "[" + "X$" + "]" == "[X$]";
    RenderVarsOneReference(vm, "X$", fuel);
  }

  /** Given vm["X"] = 5, "[X]+2" interpolates to "5+2". */
  lemma RenderVarsSumExample(vm: Store, fuel: nat)
    requires Lookup(vm, "X") == Num(5)
    requires fuel >= 1
    ensures RenderVarsSpec(vm, "[X]+2", fuel) == Some("5+2")
  {
    assert ToText(Lookup(vm, "X")) + "+2" == "5+2" by { assert IntToString(5) == "5"; }
    assert "[" + "X" + "]" + "+2" == "[X]+2";
    RenderVarsLeadingReference(vm, "X", "+2", fuel);
  }

  /** A reference to any unbound name (one without brackets of its own) is
      replaced by the text "undefined"; in particular the string variable X$
      is not reachable as "[X]". */
  lemma RenderVarsUnbound(vm: Store, name: string, fuel: nat)
    requires name !in vm && '[' !in name && ']' !in name
    requires fuel >= 1
    ensures RenderVarsSpec(vm, "[" + name + "]", fuel) == Some("undefined")
  {
    assert ToText(Lookup(vm, name)) == "undefined";
    RenderVarsOneReference(vm, name, fuel);
  }
}
