/**
 * Field names: the array-index tokens `[digits]` and `()`, the base field name
 * (get_base_field, src/utils.py:63-73), and the regular-expression searches the
 * reconciler and the aggregator use.
 */
module Fields {
  import opened Strings
  import opened Cells

  /** Length of the run of digits that starts `s`. */
  function DigitRun(s: string): (n: nat)
    ensures n <= |s|
  {
    if s != [] && IsDigit(s[0]) then 1 + DigitRun(s[1..]) else 0
  }

  /** The run is the longest all-digit prefix of `s`. */
  lemma {:induction false} DigitRunSpec(s: string)
    ensures forall k :: 0 <= k < DigitRun(s) ==> IsDigit(s[k])
    ensures DigitRun(s) < |s| ==> !IsDigit(s[DigitRun(s)])
    decreases |s|
  {
    if s != [] && IsDigit(s[0]) {
      DigitRunSpec(s[1..]);
    }
  }

  /** Length of the match of `\[\d+\]` at the start of `s`, or 0 if none. */
  function BracketLen(s: string): (n: nat)
    ensures n == 0 || (3 <= n <= |s| && s[0] == '[')
  {
    if |s| >= 3 && s[0] == '[' then
      var d := DigitRun(s[1..]);
      if d >= 1 && d + 1 < |s| && s[d + 1] == ']' then d + 2 else 0
    else 0
  }

  /** Length of the match at the start of `s` of `\[\d+\]|\(\)` (when `parens`)
      or of `\[\d+\]` alone, or 0 if none. */
  function TokenLen(s: string, parens: bool): (n: nat)
    ensures n <= |s|
    ensures n > 0 ==> s[0] == '[' || (parens && s[0] == '(')
  {
    var b := BracketLen(s);
    if b > 0 then b
    else if parens && |s| >= 2 && s[0] == '(' && s[1] == ')' then 2
    else 0
  }

  /** `re.sub(pattern, '', s)`: scanning left to right, every match is deleted
      and scanning resumes after it. */
  function RemoveTokens(s: string, parens: bool): (r: string)
    ensures |r| <= |s|
    decreases |s|
  {
    if s == [] then []
    else
      var n := TokenLen(s, parens);
      if n > 0 then RemoveTokens(s[n..], parens) else [s[0]] + RemoveTokens(s[1..], parens)
  }

  /** The base field name of an attribute string. */
  function BaseName(s: string): (r: string)
    ensures |r| <= |s|
    ensures !HasToken(s, true) ==> r == s
    ensures HasToken(s, true) ==> |r| < |s|
  {
    RemoveTokensBounds(s, true);
    RemoveTokens(s, true)
  }

  /** get_base_field: `''` for a missing attribute, otherwise the base name of `str(attr)`. */
  function GetBaseField(attr: Cell): (r: string)
    ensures attr.Missing? ==> r == ""
    ensures attr.Str? ==> r == BaseName(attr.s)
  {
    match attr
    case Missing => ""
    case Str(s) => BaseName(s)
    case Other(t) => BaseName(t)
  }

  /** `re.search(pattern, s)` succeeds: trying each position in turn, some
      position starts a match. */
  predicate HasToken(s: string, parens: bool)
    decreases |s|
  {
    s != [] && (TokenLen(s, parens) > 0 || HasToken(s[1..], parens))
  }

  /** `Series.str.contains(r'\[\d+\]', na=False)` on one cell. */
  predicate HasIndex(attr: Cell)
    ensures HasIndex(attr) ==> LooksLikeArray(attr)
  {
    if attr.Str? && HasToken(attr.s, false) then
      IndexHasBrackets(attr.s);
      true
    else false
  }

  /** compute_validity's array test: a string holding both `[` and `]`. */
  predicate LooksLikeArray(attr: Cell) {
    attr.Str? && '[' in attr.s && ']' in attr.s
  }

  /** The two array tests differ: `a[x]` holds both brackets, so compute_validity
      treats it as an array, but holds no `[digits]` index, so the reconciler
      does not; `a[0]` passes both. */
  lemma ArrayTestsDiffer()
    ensures LooksLikeArray(Str("a[x]")) && !HasIndex(Str("a[x]"))
    ensures LooksLikeArray(Str("a[0]")) && HasIndex(Str("a[0]"))
  {
    var s := "a[x]";
    assert TokenLen(s[3..], false) == 0 && TokenLen(s[2..], false) == 0 && TokenLen(s[1..], false) == 0;
    assert TokenLen(s, false) == 0;
    assert !HasToken(s[3..], false);
    assert "a[0]"[1..] == "[0]" && DigitRun("0]") == 1;
    assert TokenLen("[0]", false) == 3;
  }

  /** A whole `[digits]` or `()` token. */
  predicate IsToken(t: string) {
    t != [] && TokenLen(t, true) == |t|
  }

  // ---------------------------------------------------------------------
  // Properties of the deletion

  /** A string with no match is left unchanged. */
  lemma {:induction false} NoTokenUnchanged(s: string, parens: bool)
    requires !HasToken(s, parens)
    ensures RemoveTokens(s, parens) == s
    decreases |s|
  {
    if s != [] {
      NoTokenUnchanged(s[1..], parens);
      assert s == [s[0]] + s[1..];
    }
  }

  /** The deletion changes a string exactly when it holds a match, and then shortens it. */
  lemma RemoveTokensBounds(s: string, parens: bool)
    ensures !HasToken(s, parens) ==> RemoveTokens(s, parens) == s
    ensures HasToken(s, parens) ==> |RemoveTokens(s, parens)| < |s|
  {
    if HasToken(s, parens) {
      TokenShortens(s, parens);
    } else {
      NoTokenUnchanged(s, parens);
    }
  }

  /** An index token is written with brackets, so a string holding one holds both. */
  lemma {:induction false} IndexHasBrackets(s: string)
    requires HasToken(s, false)
    ensures '[' in s && ']' in s
    decreases |s|
  {
    if TokenLen(s, false) > 0 {
      var d := DigitRun(s[1..]);
      assert s[d + 1] == ']';
    } else {
      IndexHasBrackets(s[1..]);
      assert s[1..] <= s[1..] && forall k :: 0 <= k < |s[1..]| ==> s[1..][k] == s[k + 1];
    }
  }

  /** A string with a match is made strictly shorter. */
  lemma {:induction false} TokenShortens(s: string, parens: bool)
    requires HasToken(s, parens)
    ensures |RemoveTokens(s, parens)| < |s|
    decreases |s|
  {
    if TokenLen(s, parens) == 0 {
      TokenShortens(s[1..], parens);
    }
  }

  /** So the deletion changes `s` exactly when `re.search` finds a token in it. */
  lemma RemoveTokensUnchanged(s: string, parens: bool)
    ensures RemoveTokens(s, parens) == s <==> !HasToken(s, parens)
  {
    if HasToken(s, parens) {
      TokenShortens(s, parens);
    } else {
      NoTokenUnchanged(s, parens);
    }
  }

  lemma {:induction false} DigitRunAppend(s: string, r: string)
    requires DigitRun(s) < |s|
    ensures DigitRun(s + r) == DigitRun(s)
    decreases |s|
  {
    if IsDigit(s[0]) {
      assert (s + r)[1..] == s[1..] + r;
      DigitRunAppend(s[1..], r);
    }
  }

  lemma {:induction false} DigitRunStop(s: string, r: string)
    requires DigitRun(s) == |s|
    requires r == [] || !IsDigit(r[0])
    ensures DigitRun(s + r) == |s|
    decreases |s|
  {
    if s == [] {
      assert s + r == r;
    } else {
      assert (s + r)[1..] == s[1..] + r;
      DigitRunStop(s[1..], r);
    }
  }

  /** A run that stops at the end of `s` is all of `s`. */
  lemma {:induction false} DigitRunAll(s: string, r: string)
    requires DigitRun(s + r) == |s|
    ensures DigitRun(s) == |s|
    decreases |s|
  {
    if s != [] {
      assert (s + r)[1..] == s[1..] + r;
      DigitRunAll(s[1..], r);
    }
  }

  /** A match found at the start of `s` is the same match at the start of `s + r`;
      no match at the start of `s` stays no match when what follows starts with
      an opening `[` or `(` (neither can continue a token). */
  lemma TokenLenAppend(s: string, r: string, parens: bool)
    requires s != []
    requires r == [] || r[0] == '[' || r[0] == '('
    ensures TokenLen(s + r, parens) == TokenLen(s, parens)
  {
    var sr := s + r;
    if s[0] == '[' && |s| >= 2 {
      var t := s[1..];
      assert sr[1..] == t + r;
      if DigitRun(t) < |t| {
        DigitRunAppend(t, r);
      } else {
        DigitRunStop(t, r);
      }
    } else if s[0] == '[' {
      assert sr[1..] == r;
      if r != [] {
        assert !IsDigit(r[0]);
      }
    }
  }

  /** The deletion splits at any point followed by an opening `[` or `(`. */
  lemma {:induction false} RemoveTokensSplit(s: string, r: string, parens: bool)
    requires r == [] || r[0] == '[' || r[0] == '('
    ensures RemoveTokens(s + r, parens) == RemoveTokens(s, parens) + RemoveTokens(r, parens)
    decreases |s|, 1
  {
    if s == [] {
      assert s + r == r;
    } else if TokenLen(s, parens) > 0 {
      SplitAfterToken(s, r, parens);
    } else {
      SplitAfterChar(s, r, parens);
    }
  }

  lemma {:induction false} SplitAfterToken(s: string, r: string, parens: bool)
    requires r == [] || r[0] == '[' || r[0] == '('
    requires s != [] && TokenLen(s, parens) > 0
    ensures RemoveTokens(s + r, parens) == RemoveTokens(s, parens) + RemoveTokens(r, parens)
    decreases |s|, 0
  {
    var n := TokenLen(s, parens);
    var sr := s + r;
    TokenLenAppend(s, r, parens);
    assert sr[n..] == s[n..] + r;
    RemoveTokensSplit(s[n..], r, parens);
  }

  lemma {:induction false} SplitAfterChar(s: string, r: string, parens: bool)
    requires r == [] || r[0] == '[' || r[0] == '('
    requires s != [] && TokenLen(s, parens) == 0
    ensures RemoveTokens(s + r, parens) == RemoveTokens(s, parens) + RemoveTokens(r, parens)
    decreases |s|, 0
  {
    var sr := s + r;
    TokenLenAppend(s, r, parens);
    assert sr[1..] == s[1..] + r;
    RemoveTokensSplit(s[1..], r, parens);
  }

  /** A whole token at the front is deleted, whatever follows it. */
  lemma TokenFirst(t: string, u: string)
    requires IsToken(t)
    ensures BaseName(t + u) == BaseName(u)
  {
    var tu := t + u;
    TokenLenAppend(t, [], true);
    if BracketLen(t) > 0 {
      var d := DigitRun(t[1..]);
      assert t[1..] == t[1..|t| - 1] + [']'];
      DigitRunAll(t[1..|t| - 1], "]");
      DigitRunStop(t[1..|t| - 1], [']'] + u);
      assert tu[1..] == t[1..|t| - 1] + ([']'] + u);
    }
    assert TokenLen(tu, true) == |t|;
    assert tu[|t|..] == u;
  }

  /** get_base_field deletes a `[digits]` or `()` token wherever it stands:
      what precedes and what follows the token are reduced independently. */
  lemma BaseNameDeletesToken(s: string, t: string, u: string)
    requires IsToken(t)
    ensures BaseName(s + t + u) == BaseName(s) + BaseName(u)
  {
    assert t[0] == '[' || t[0] == '(';
    assert s + t + u == s + (t + u);
    RemoveTokensSplit(s, t + u, true);
    TokenFirst(t, u);
  }

  /** A string without `[` or `(` holds no token. */
  lemma {:induction false} NoOpeningNoToken(s: string, parens: bool)
    requires forall k :: 0 <= k < |s| ==> s[k] != '[' && s[k] != '('
    ensures !HasToken(s, parens)
    decreases |s|
  {
    if s != [] {
      NoOpeningNoToken(s[1..], parens);
    }
  }

  /** The documented examples: a trailing index or `()` is removed. */
  lemma BaseNameExamples()
    ensures BaseName("field[0]") == "field"
    ensures BaseName("field[123]") == "field"
    ensures BaseName("field()") == "field"
  {
    BaseNamePlain();
    BaseNameOneDigit("field");
    BaseNameThreeDigits("field");
    BaseNameParens("field");
  }

  lemma BaseNamePlain()
    ensures BaseName("field") == "field"
  {
    NoOpeningNoToken("field", true);
    NoTokenUnchanged("field", true);
  }

  lemma BaseNameParens(field: string)
    requires field == "field" && BaseName(field) == field
    ensures BaseName("field()") == "field"
  {
    BaseNameDeletesToken(field, "()", "");
    assert field + "()" + "" == "field()";
  }

  lemma BaseNameOneDigit(field: string)
    requires field == "field" && BaseName(field) == field
    ensures BaseName("field[0]") == "field"
  {
    assert DigitRun("0]") == 1 by { assert "0]"[1..] == "]"; }
    assert "[0]"[1..] == "0]";
    BaseNameDeletesToken(field, "[0]", "");
    assert field + "[0]" + "" == "field[0]";
  }

  lemma BaseNameThreeDigits(field: string)
    requires field == "field" && BaseName(field) == field
    ensures BaseName("field[123]") == "field"
  {
    assert DigitRun("123]") == 3 by {
      assert "123]"[1..] == "23]" && "23]"[1..] == "3]" && "3]"[1..] == "]";
    }
    assert "[123]"[1..] == "123]";
    BaseNameDeletesToken(field, "[123]", "");
    assert field + "[123]" + "" == "field[123]";
  }

  /** get_base_field is not idempotent: deleting `[0]` from `a[[0]0]` joins
      `a[` and `0]` into a new token. */
  lemma BaseNameNotIdempotent()
    ensures BaseName("a[[0]0]") == "a[0]"
    ensures BaseName(BaseName("a[[0]0]")) == "a"
  {
    var a, open, rest := "a", "a[", "0]";
    assert DigitRun("0]") == 1 by { assert "0]"[1..] == "]"; }
    assert "[0]"[1..] == "0]";
    assert IsToken("[0]");
    assert !HasToken(open, true) by {
      assert open[1..] == "[" && "["[1..] == [];
    }
    NoOpeningNoToken(rest, true);
    NoTokenUnchanged(open, true);
    NoTokenUnchanged(rest, true);
    BaseNameDeletesToken(open, "[0]", rest);
    assert open + "[0]" + rest == "a[[0]0]";
    assert open + rest == "a[0]";
    NoOpeningNoToken(a, true);
    NoTokenUnchanged(a, true);
    BaseNameDeletesToken(a, "[0]", "");
    assert a + "[0]" + "" == "a[0]";
  }
}
