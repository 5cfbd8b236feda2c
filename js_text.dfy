/** The few JavaScript string built-ins the interpreter relies on, restated over
    `seq<char>`: trim, split, join, indexOf, includes, replace (first occurrence),
    slice, toUpperCase, the lazy regular expression /"(.*?)"/ and the
    conversions Number(string) and String(number), restricted to integers. */
module JsText {
  import opened Wrappers

  /** JavaScript's WhiteSpace and LineTerminator characters: what trim() removes. */
  predicate IsSpace(c: char) {
    || c == ' ' || c == '\t' || c == '\n' || c == '\r'
    || c == '\U{000B}' || c == '\U{000C}' || c == '\U{00A0}' || c == '\U{FEFF}'
    || c == '\U{1680}' || ('\U{2000}' <= c <= '\U{200A}')
    || c == '\U{2028}' || c == '\U{2029}' || c == '\U{202F}' || c == '\U{205F}'
    || c == '\U{3000}'
  }

  /** The characters that `.` in a regular expression does not match. */
  predicate IsLineTerminator(c: char) {
    c == '\n' || c == '\r' || c == '\U{2028}' || c == '\U{2029}'
  }

  function TrimStart(s: string): (r: string)
    ensures |r| <= |s|
    ensures r == [] || !IsSpace(r[0])
  {
    if |s| > 0 && IsSpace(s[0]) then TrimStart(s[1..]) else s
  }

  function TrimEnd(s: string): (r: string)
    ensures |r| <= |s|
    ensures r == [] || (!IsSpace(r[|r| - 1]) && r[0] == s[0])
  {
    if |s| > 0 && IsSpace(s[|s| - 1]) then TrimEnd(s[..|s| - 1]) else s
  }

  /** String.prototype.trim: white space removed from both ends; the result
      neither starts nor ends with white space (TrimExcludes: it adds no
      character). */
  function Trim(s: string): (r: string)
    ensures |r| <= |s|
    ensures r == [] || (!IsSpace(r[0]) && !IsSpace(r[|r| - 1]))
  {
    TrimEnd(TrimStart(s))
  }

  lemma TrimKeeps(s: string)
    requires s == [] || (!IsSpace(s[0]) && !IsSpace(s[|s| - 1]))
    ensures Trim(s) == s
  {
  }

  /** A string of white space trims to nothing. */
  lemma TrimBlank(s: string)
    requires forall k :: 0 <= k < |s| ==> IsSpace(s[k])
    ensures Trim(s) == ""
  {
    TrimStartBlank(s);
  }

  /** trimStart keeps a suffix of the input. */
  lemma {:induction false} TrimStartSlice(s: string)
    ensures TrimStart(s) == s[|s| - |TrimStart(s)|..]
  {
    if |s| > 0 && IsSpace(s[0]) {
      TrimStartSlice(s[1..]);
    }
  }

  /** trimEnd keeps a prefix of the input. */
  lemma {:induction false} TrimEndSlice(s: string)
    ensures TrimEnd(s) == s[..|TrimEnd(s)|]
  {
    if |s| > 0 && IsSpace(s[|s| - 1]) {
      TrimEndSlice(s[..|s| - 1]);
    }
  }

  lemma {:induction false} TrimStartBlank(s: string)
    requires forall k :: 0 <= k < |s| ==> IsSpace(s[k])
    ensures TrimStart(s) == ""
  {
    if |s| > 0 {
      TrimStartBlank(s[1..]);
    }
  }

  /** trim() adds no character. */
  lemma TrimExcludes(s: string, c: char)
    requires c !in s
    ensures c !in Trim(s)
  {
    var t := TrimStart(s);
    var r := TrimEnd(t);
    TrimStartSlice(s);
    TrimEndSlice(t);
    forall k | 0 <= k < |r|
      ensures r[k] != c
    {
      assert r[k] == t[k] == s[|s| - |t| + k];
    }
  }

  /** String.prototype.split with a one-character separator: the pieces between
      separators, one more piece than there are separators. */
  function Split(s: string, d: char): (r: seq<string>)
    ensures |r| >= 1
    ensures forall k :: 0 <= k < |r| ==> d !in r[k]
  {
    if |s| == 0 then [""]
    else
      var rest := Split(s[1..], d);
      if s[0] == d then [""] + rest
      else [[s[0]] + rest[0]] + rest[1..]
  }

  /** Array.prototype.join. */
  function Join(ts: seq<string>, sep: string): string {
    if |ts| == 0 then ""
    else if |ts| == 1 then ts[0]
    else ts[0] + sep + Join(ts[1..], sep)
  }

  lemma {:induction false} SplitNoSeparator(t: string, d: char)
    requires d !in t
    ensures Split(t, d) == [t]
  {
    if |t| > 0 {
      SplitNoSeparator(t[1..], d);
      assert [t[0]] + t[1..] == t;
    }
  }

  lemma {:induction false} SplitAfterPiece(t: string, d: char, rest: string)
    requires d !in t
    ensures Split(t + [d] + rest, d) == [t] + Split(rest, d)
  {
    var s := t + [d] + rest;
    if |t| == 0 {
      assert s[1..] == rest;
    } else {
      assert s[1..] == t[1..] + [d] + rest;
      SplitAfterPiece(t[1..], d, rest);
      assert [t[0]] + t[1..] == t;
    }
  }

  /** Splitting a join on a separator that no piece contains gives the pieces back. */
  lemma {:induction false} SplitJoin(ts: seq<string>, d: char)
    requires |ts| >= 1
    requires forall k :: 0 <= k < |ts| ==> d !in ts[k]
    ensures Split(Join(ts, [d]), d) == ts
  {
    if |ts| == 1 {
      SplitNoSeparator(ts[0], d);
    } else {
      SplitJoin(ts[1..], d);
      SplitAfterPiece(ts[0], d, Join(ts[1..], [d]));
      assert [ts[0]] + ts[1..] == ts;
    }
  }

  /** A character absent from the input is absent from every piece. */
  lemma {:induction false} SplitExcludes(s: string, d: char, c: char)
    requires c !in s
    ensures forall k :: 0 <= k < |Split(s, d)| ==> c !in Split(s, d)[k]
  {
    if |s| > 0 {
      SplitExcludes(s[1..], d, c);
    }
  }

  /** When the input does not start with the separator, the first piece starts
      with the input's first character. */
  lemma SplitFirst(s: string, d: char)
    requires |s| > 0 && s[0] != d
    ensures |Split(s, d)[0]| > 0 && Split(s, d)[0][0] == s[0]
  {
  }

  /** When the input does not end with the separator, the last piece ends with
      the input's last character. */
  lemma {:induction false} SplitLast(s: string, d: char)
    requires |s| > 0 && s[|s| - 1] != d
    ensures var r := Split(s, d); |r[|r| - 1]| > 0 && r[|r| - 1][|r[|r| - 1]| - 1] == s[|s| - 1]
  {
    if |s| > 1 {
      SplitLast(s[1..], d);
    }
  }

  lemma {:induction false} JoinExcludes(ts: seq<string>, sep: string, c: char)
    requires c !in sep
    requires forall k :: 0 <= k < |ts| ==> c !in ts[k]
    ensures c !in Join(ts, sep)
  {
    if |ts| > 1 {
      JoinExcludes(ts[1..], sep, c);
    }
  }

  /** A character of any piece is a character of the join. */
  lemma {:induction false} JoinIncludes(ts: seq<string>, sep: string, k: nat, c: char)
    requires k < |ts| && c in ts[k]
    ensures c in Join(ts, sep)
    decreases k
  {
    if k > 0 {
      JoinIncludes(ts[1..], sep, k - 1, c);
    }
  }

  lemma {:induction false} JoinEnds(ts: seq<string>, sep: string)
    requires |ts| > 0 && forall k :: 0 <= k < |ts| ==> |ts[k]| > 0
    ensures var j := Join(ts, sep);
      |j| > 0 && j[0] == ts[0][0] && j[|j| - 1] == ts[|ts| - 1][|ts[|ts| - 1]| - 1]
  {
    if |ts| > 1 {
      JoinEnds(ts[1..], sep);
    }
  }

  /** Array.prototype.indexOf on a list of strings (or String.prototype.indexOf
      with a one-character argument): the first position, or -1. */
  function IndexOf<T(==)>(xs: seq<T>, x: T): (r: int)
    ensures -1 <= r < |xs|
    ensures r == -1 <==> x !in xs
    ensures r >= 0 ==> xs[r] == x && x !in xs[..r]
  {
    if |xs| == 0 then -1
    else if xs[0] == x then 0
    else
      var k := IndexOf(xs[1..], x);
      assert xs[1..][..if k < 0 then 0 else k] == xs[1..if k < 0 then 1 else k + 1];
      if k < 0 then -1 else k + 1
  }

  /** JavaScript array or string indexing: the element, or `undefined`. */
  function At<T>(xs: seq<T>, k: int): Option<T> {
    if 0 <= k < |xs| then Some(xs[k]) else None
  }

  predicate OccursAt(s: string, p: string, k: nat) {
    k + |p| <= |s| && s[k..k + |p|] == p
  }

  /** The first position at or after `from` where `p` occurs in `s`, or -1. */
  function FindFrom(s: string, p: string, from: nat): (r: int)
    requires from <= |s|
    ensures r == -1 || (from <= r && OccursAt(s, p, r))
    ensures r == -1 ==> forall k :: from <= k <= |s| ==> !OccursAt(s, p, k)
    ensures r >= 0 ==> forall k :: from <= k < r ==> !OccursAt(s, p, k)
    decreases |s| - from
  {
    if OccursAt(s, p, from) then from
    else if from == |s| then -1
    else FindFrom(s, p, from + 1)
  }

  /** String.prototype.indexOf with a string argument. */
  function Find(s: string, p: string): (r: int)
    ensures r >= -1
    ensures r == -1 || OccursAt(s, p, r)
    ensures r == -1 ==> forall k :: 0 <= k <= |s| ==> !OccursAt(s, p, k)
    ensures r >= 0 ==> forall k :: 0 <= k < r ==> !OccursAt(s, p, k)
  {
    FindFrom(s, p, 0)
  }

  /** String.prototype.includes. */
  predicate Includes(s: string, p: string) {
    Find(s, p) >= 0
  }

  /** String.prototype.replace with a string pattern: only the first occurrence
      is replaced, and the replacement is taken literally. */
  function Replace(s: string, p: string, rep: string): string {
    var k := Find(s, p);
    if k < 0 then s else s[..k] + rep + s[k + |p|..]
  }

  /** IndexOf finds the first occurrence: a position holding `x` with no `x`
      before it is the answer. */
  lemma IndexOfAt<T>(xs: seq<T>, k: nat, x: T)
    requires k < |xs| && xs[k] == x && x !in xs[..k]
    ensures IndexOf(xs, x) == k
  {
  }

  /** Every string is found in itself at position 0. */
  lemma FindSelf(s: string)
    ensures Find(s, s) == 0
  {
    assert OccursAt(s, s, 0);
  }

  /** A text that starts with `p` has that occurrence replaced. */
  lemma ReplaceAtHead(p: string, rest: string, rep: string)
    ensures Replace(p + rest, p, rep) == rep + rest
  {
    var s := p + rest;
    assert s[0..|p|] == p;
    assert OccursAt(s, p, 0);
    assert s[..0] + rep + s[|p|..] == rep + rest;
  }

  /** A character that is not in `s` occurs in no string that contains it. */
  lemma NotFoundWhenAbsent(s: string, p: string, c: char)
    requires c in p && c !in s
    ensures Find(s, p) == -1
  {
    var j :| 0 <= j < |p| && p[j] == c;
    forall k | 0 <= k <= |s| ensures !OccursAt(s, p, k) {
      if k + |p| <= |s| {
        assert s[k..k + |p|][j] == s[k + j] != p[j];
      }
    }
  }

  /** A position argument of String.prototype.slice, resolved against the length. */
  function SlicePos(x: int, len: nat): (r: nat)
    ensures r <= len
  {
    if x < 0 then (if len + x < 0 then 0 else len + x)
    else if x > len then len
    else x
  }

  /** String.prototype.slice: negative positions count from the end, and an
      empty string comes back when the end is not after the start. */
  function Slice(s: string, a: int, b: int): string {
    var from := SlicePos(a, |s|);
    var to := SlicePos(b, |s|);
    if from < to then s[from..to] else ""
  }

  /** s.replace(/"/g, ""): every double quote removed. */
  function RemoveQuotes(s: string): (r: string)
    ensures '"' !in r
    ensures |r| <= |s|
  {
    if |s| == 0 then ""
    else if s[0] == '"' then RemoveQuotes(s[1..])
    else [s[0]] + RemoveQuotes(s[1..])
  }

  /** Removing quotes works piece by piece. */
  lemma {:induction false} RemoveQuotesConcat(a: string, b: string)
    ensures RemoveQuotes(a + b) == RemoveQuotes(a) + RemoveQuotes(b)
    decreases |a|
  {
    if |a| > 0 {
      assert (a + b)[1..] == a[1..] + b;
      RemoveQuotesConcat(a[1..], b);
    } else {
      assert a + b == b;
    }
  }

  /** A text without quotes is left as it is. */
  lemma {:induction false} RemoveQuotesKeeps(t: string)
    requires '"' !in t
    ensures RemoveQuotes(t) == t
    decreases |t|
  {
    if |t| > 0 {
      RemoveQuotesKeeps(t[1..]);
      assert [t[0]] + t[1..] == t;
    }
  }

  /** Removing the quotes around a quote-free text gives the text back. */
  lemma RemoveQuotesWrapped(t: string)
    requires '"' !in t
    ensures RemoveQuotes("\"" + t + "\"") == t
  {
    RemoveQuotesConcat("\"" + t, "\"");
    RemoveQuotesConcat("\"", t);
    RemoveQuotesKeeps(t);
  }

  /** The position of the closing quote for a match of /"(.*?)"/ whose body
      starts at `q`: `.` does not cross a line terminator. */
  function CloseQuote(s: string, q: nat): (r: Option<nat>)
    ensures r.Some? ==> q <= r.value < |s| && s[r.value] == '"'
    ensures r.Some? ==> '"' !in s[q..r.value]
    decreases |s| - q
  {
    if q >= |s| then None
    else if s[q] == '"' then Some(q)
    else if IsLineTerminator(s[q]) then None
    else
      var r := CloseQuote(s, q + 1);
      assert r.Some? ==> s[q..r.value] == [s[q]] + s[q + 1..r.value];
      r
  }

  /** The first match of /"(.*?)"/ searching from `p`: the positions of its
      two quotes. */
  function MatchFrom(s: string, p: nat): (r: Option<(nat, nat)>)
    ensures r.Some? ==> p <= r.value.0 < r.value.1 < |s|
    ensures r.Some? ==> s[r.value.0] == '"' && s[r.value.1] == '"' && '"' !in s[r.value.0 + 1..r.value.1]
    decreases |s| - p
  {
    if p >= |s| then None
    else if s[p] == '"' then
      match CloseQuote(s, p + 1)
      case Some(q) => Some((p, q))
      case None => MatchFrom(s, p + 1)
    else MatchFrom(s, p + 1)
  }

  /** The search for a match passes over text without quotes. */
  lemma {:induction false} MatchSkips(s: string, p: nat, q: nat)
    requires p <= q <= |s|
    requires forall k :: p <= k < q ==> s[k] != '"'
    ensures MatchFrom(s, p) == MatchFrom(s, q)
    decreases q - p
  {
    if p < q {
      MatchSkips(s, p + 1, q);
    }
  }

  /** s.match(/"(.*?)"/g)[0] with its quotes stripped; `None` when there is no
      match (the source then indexes `null` and throws). */
  function FirstQuoted(s: string): (r: Option<string>)
    ensures r.Some? ==> '"' !in r.value
  {
    match MatchFrom(s, 0)
    case None => None
    case Some((p, q)) => Some(s[p + 1..q])
  }

  /** The raw match s.match(/"(.*?)"/g)[0], quotes included. */
  function FirstQuotedRaw(s: string): (r: Option<string>)
    ensures r.Some? ==> |r.value| >= 2 && r.value[0] == '"' && r.value[|r.value| - 1] == '"'
  {
    match FirstQuoted(s)
    case None => None
    case Some(t) => Some("\"" + t + "\"")
  }

  /** Position `k` closes a body of /"(.*?)"/ that starts at `q`: a quote,
      with neither a quote nor a line terminator between them. */
  predicate ClosesAt(s: string, q: int, k: int) {
    0 <= q <= k < |s| && s[k] == '"'
    && forall j :: q <= j < k ==> s[j] != '"' && !IsLineTerminator(s[j])
  }

  /** s[p..q + 1] is a match of /"(.*?)"/. */
  predicate QuotedAt(s: string, p: int, q: int) {
    0 <= p < |s| && s[p] == '"' && ClosesAt(s, p + 1, q)
  }

  /** CloseQuote finds exactly the position that closes the body. */
  lemma {:induction false} CloseQuoteMeaning(s: string, q: nat)
    ensures forall k :: CloseQuote(s, q) == Some(k) <==> ClosesAt(s, q, k)
    decreases |s| - q
  {
    if q < |s| && s[q] != '"' && !IsLineTerminator(s[q]) {
      CloseQuoteMeaning(s, q + 1);
      forall k | ClosesAt(s, q, k)
        ensures ClosesAt(s, q + 1, k)
      {
        assert k != q;
      }
    }
  }

  /** MatchFrom finds the leftmost match starting at `p` or later, and
      `None` exactly when there is none. */
  lemma {:induction false} MatchFromMeaning(s: string, p: nat)
    ensures MatchFrom(s, p).Some? ==> QuotedAt(s, MatchFrom(s, p).value.0, MatchFrom(s, p).value.1)
    ensures MatchFrom(s, p).Some? ==> forall a, b :: p <= a < MatchFrom(s, p).value.0 ==> !QuotedAt(s, a, b)
    ensures MatchFrom(s, p).None? ==> forall a, b :: p <= a ==> !QuotedAt(s, a, b)
    decreases |s| - p
  {
    if p < |s| {
      CloseQuoteMeaning(s, p + 1);
      if s[p] != '"' || CloseQuote(s, p + 1).None? {
        MatchFromMeaning(s, p + 1);
      }
    }
  }

  /** s.match(/"(.*?)"/g)[0] fails exactly when the text holds no match, and
      otherwise is the body of the leftmost match. */
  lemma FirstQuotedMeaning(s: string)
    ensures FirstQuoted(s).None? <==> forall a, b :: !QuotedAt(s, a, b)
    ensures forall a, b ::
              QuotedAt(s, a, b) && (forall a2, b2 :: QuotedAt(s, a2, b2) ==> a <= a2)
              ==> FirstQuoted(s) == Some(s[a + 1..b])
  {
    MatchFromMeaning(s, 0);
    forall a, b | QuotedAt(s, a, b) && (forall a2, b2 :: QuotedAt(s, a2, b2) ==> a <= a2)
      ensures FirstQuoted(s) == Some(s[a + 1..b])
    {
      var m := MatchFrom(s, 0).value;
      assert QuotedAt(s, m.0, m.1);
      assert m.0 == a;
      CloseQuoteMeaning(s, a + 1);
    }
  }

  /** toUpperCase on one character, for ASCII and Latin-1 letters. */
  function UpperChar(c: char): char {
    if 'a' <= c <= 'z' || ('\U{00E0}' <= c <= '\U{00FE}' && c != '\U{00F7}')
    then (c as int - 32) as char
    else c
  }

  function Upper(s: string): (r: string)
    ensures |r| == |s|
    ensures forall k :: 0 <= k < |s| ==> r[k] == UpperChar(s[k])
  {
    if |s| == 0 then "" else [UpperChar(s[0])] + Upper(s[1..])
  }

  /** Text without lower-case letters is its own upper case. */
  lemma {:induction false} UpperKeeps(s: string)
    requires forall k :: 0 <= k < |s| ==> UpperChar(s[k]) == s[k]
    ensures Upper(s) == s
  {
    if |s| > 0 {
      UpperKeeps(s[1..]);
      assert [s[0]] + s[1..] == s;
    }
  }

  predicate IsDigit(c: char) {
    '0' <= c <= '9'
  }

  predicate AllDigits(s: string) {
    |s| > 0 && forall k :: 0 <= k < |s| ==> IsDigit(s[k])
  }

  function DigitsValue(s: string): nat
    requires forall k :: 0 <= k < |s| ==> IsDigit(s[k])
  {
    if |s| == 0 then 0
    else
      var last := s[|s| - 1];
      assert IsDigit(last);
      DigitsValue(s[..|s| - 1]) * 10 + (last as int - '0' as int)
  }

  /** Number(string), restricted to integers: surrounding white space is
      ignored, the empty string is 0, and otherwise an optional sign followed
      by decimal digits is required; `None` stands for NaN. */
  function ToNumber(s: string): Option<int> {
    var t := Trim(s);
    if t == "" then Some(0)
    else if t[0] == '-' && AllDigits(t[1..]) then Some(0 - DigitsValue(t[1..]) as int)
    else if t[0] == '+' && AllDigits(t[1..]) then Some(DigitsValue(t[1..]))
    else if AllDigits(t) then Some(DigitsValue(t))
    else None
  }

  function DigitChar(d: nat): char
    requires d < 10
  {
    ('0' as int + d) as char
  }

  function NatToString(n: nat): (r: string)
    ensures AllDigits(r)
  {
    if n < 10 then [DigitChar(n)] else NatToString(n / 10) + [DigitChar(n % 10)]
  }

  /** String(number) for an integer. */
  function IntToString(n: int): string {
    if n < 0 then "-" + NatToString(-n) else NatToString(n)
  }

  lemma {:induction false} NatToStringValue(n: nat)
    ensures DigitsValue(NatToString(n)) == n
  {
    if n >= 10 {
      NatToStringValue(n / 10);
      var s := NatToString(n);
      assert s[..|s| - 1] == NatToString(n / 10);
    }
  }

  /** Reading back the decimal text of an integer gives the integer. */
  lemma IntToStringRoundTrip(n: int)
    ensures ToNumber(IntToString(n)) == Some(n)
  {
    var m := if n < 0 then -n else n;
    NatToStringValue(m);
    SignedDigitsRead(NatToString(m), n < 0);
  }

  /** An optional minus sign followed by digits reads as their value, negated
      when the sign is there. */
  lemma SignedDigitsRead(d: string, negative: bool)
    requires AllDigits(d)
    ensures ToNumber(if negative then "-" + d else d)
      == Some(if negative then 0 - DigitsValue(d) as int else DigitsValue(d) as int)
  {
    assert IsDigit(d[0]) && IsDigit(d[|d| - 1]);
    if negative {
      var s := "-" + d;
      assert s[1..] == d && s[|s| - 1] == d[|d| - 1];
      TrimKeeps(s);
    } else {
      TrimKeeps(d);
    }
  }
}
