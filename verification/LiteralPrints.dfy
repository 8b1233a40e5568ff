/** What printed literals become: texts that read back as the literal. */
module LiteralPrints {
  import opened Results
  import opened Ast
  import opened Semantics
  import opened Passes

  // ---------- Reading a literal ----------

  predicate IsDigit(c: char) {
    '0' <= c <= '9'
  }

  /** One digit at least, and nothing else. */
  predicate IsNumeral(s: string) {
    s != "" && forall i :: 0 <= i < |s| ==> IsDigit(s[i])
  }

  /** The number that decimal digits denote. */
  function NumeralValue(s: string): nat
    requires forall i :: 0 <= i < |s| ==> IsDigit(s[i])
  {
    if s == "" then 0
    else
      assert IsDigit(s[|s| - 1]);
      10 * NumeralValue(s[..|s| - 1]) + (s[|s| - 1] as int - '0' as int)
  }

  /** The keywords of the lexer, and integers with or without a sign. */
  function ReadLiteral(s: string): Option<Expr> {
    if s == "true" || s == "TRUE" then Some(BoolLit(true))
    else if s == "false" || s == "FALSE" then Some(BoolLit(false))
    else if IsNumeral(s) then Some(IntLit(NumeralValue(s)))
    else if "-" <= s && IsNumeral(s[1..]) then Some(IntLit(0 - NumeralValue(s[1..]) as int))
    else None
  }

  /** No leading zero, no negative zero, and keywords in lower case. */
  predicate IsShortest(s: string) {
    var digits := if "-" <= s then s[1..] else s;
    (digits != "" && digits[0] == '0' ==> s == "0") && s != "TRUE" && s != "FALSE"
  }

  // ---------- What is written can be read ----------

  lemma ZeroDenotes()
    ensures IsNumeral("0") && NumeralValue("0") == 0
  {
    assert "0"[..0] == "";
  }

  lemma {:induction false} DigitsDenote(n: nat)
    ensures IsNumeral(Digits(n)) && NumeralValue(Digits(n)) == n
    ensures Digits(n)[0] == '0' ==> Digits(n) == "0"
  {
    if n < 10 {
      assert Digits(n)[..0] == "";
    } else {
      ZeroDenotes();
      DigitsDenote(n / 10);
      assert Digits(n)[..|Digits(n)| - 1] == Digits(n / 10);
    }
  }

  /** Digits without a leading zero are those of their number. */
  lemma {:induction false} NumeralIsDigits(s: string)
    requires IsNumeral(s) && (s[0] == '0' ==> s == "0")
    ensures s == Digits(NumeralValue(s))
    decreases |s|
  {
    var prefix, last := s[..|s| - 1], s[|s| - 1];
    assert s == prefix + [last] && IsDigit(last);
    if |s| == 1 {
      assert prefix == "";
    } else {
      assert forall i :: 0 <= i < |prefix| ==> prefix[i] == s[i];
      NumeralIsDigits(prefix);
      LastDigit(NumeralValue(prefix), last);
    }
  }

  lemma LastDigit(n: nat, last: char)
    requires IsDigit(last) && Digits(n)[0] != '0'
    ensures Digits(10 * n + (last as int - '0' as int)) == Digits(n) + [last]
  {
    assert n > 0;
  }

  lemma KeywordIsNoNumeral(s: string)
    requires s == "true" || s == "TRUE" || s == "false" || s == "FALSE"
    ensures !IsNumeral(s) && !("-" <= s)
  {
    assert !IsDigit(s[0]);
  }

  lemma IntegerIsRead(fpu: FPU, i: int)
    ensures var s := FormatLiteral(fpu, IntLit(i));
            ReadLiteral(s) == Some(IntLit(i)) && IsShortest(s)
  {
    var n: nat := if i < 0 then -i else i;
    var s := FormatLiteral(fpu, IntLit(i));
    ZeroDenotes();
    DigitsDenote(n);
    assert i < 0 ==> s[1..] == Digits(n);
    hide Digits;
    assert IsDigit(Digits(n)[0]) && (s == Digits(n) || s[0] == '-');
    assert s != "true" && s != "TRUE" && s != "false" && s != "FALSE";
  }

  /** A boolean or an integer is written so that reading it gives it back. */
  lemma SpellingIsRead(fpu: FPU, e: Expr)
    requires e.BoolLit? || e.IntLit?
    ensures var s := FormatLiteral(fpu, e);
            ReadLiteral(s) == Some(e) && IsShortest(s)
  {
    if e.IntLit? {
      IntegerIsRead(fpu, e.i);
    } else {
      KeywordIsNoNumeral(FormatLiteral(fpu, e));
    }
  }

  /** No other shortest text reads as the same literal. */
  lemma SpellingIsUnique(fpu: FPU, s: string)
    requires IsShortest(s) && ReadLiteral(s).Some?
    ensures s == FormatLiteral(fpu, ReadLiteral(s).value)
  {
    if ReadLiteral(s).value.IntLit? {
      var digits := if IsNumeral(s) then s else s[1..];
      assert "-" <= s ==> !IsDigit(s[0]) && s == "-" + s[1..];
      ZeroDenotes();
      NumeralIsDigits(digits);
    }
  }

  /** The conversion pass makes of a printed literal its shortest spelling, and of a string
      its own text, which is what it prints with any run-time library. */
  lemma PrintedLiteral(w: World, depth: nat, e: Expr, env: Env)
    requires IsLiteral(e)
    ensures var r := Walk(ConvertLiteralPrints(w.host.fpu), Print(e));
            && r.Ok? && r.value.Raw?
            && (e.BoolLit? || e.IntLit? ==> ReadLiteral(r.value.text) == Some(e) && IsShortest(r.value.text))
            && (e.StrLit? ==> r.value.text == e.s && Render(w, depth, Print(e), env) == Outcome(e.s, true))
  {
    if e.BoolLit? || e.IntLit? {
      SpellingIsRead(w.host.fpu, e);
    }
    hide ReadLiteral, IsShortest;
  }
}
