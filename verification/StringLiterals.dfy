/** The lexer's in-place unescaping of quoted literals. */
module StringLiterals {

  /** Drop each backslash and keep the character after it; a lone last backslash is dropped. */
  function Unescape(s: string): (r: string)
    ensures |r| <= |s|
  {
    if s == "" then ""
    else if s[0] != '\\' then [s[0]] + Unescape(s[1..])
    else if |s| == 1 then ""
    else [s[1]] + Unescape(s[2..])
  }

  /** A backslash before every backslash and every quote. */
  function Escape(s: string, quote: char): string {
    if s == "" then ""
    else if s[0] == '\\' || s[0] == quote then ['\\', s[0]] + Escape(s[1..], quote)
    else [s[0]] + Escape(s[1..], quote)
  }

  /** Escaping any text and reading it back gives the text, whichever quote is used. */
  lemma {:induction false} UnescapeEscape(s: string, quote: char)
    ensures Unescape(Escape(s, quote)) == s
  {
    if s != "" {
      UnescapeEscape(s[1..], quote);
      var rest := Escape(s[1..], quote);
      if s[0] == '\\' || s[0] == quote {
        assert (['\\', s[0]] + rest)[2..] == rest;
      } else {
        assert ([s[0]] + rest)[1..] == rest;
      }
      assert [s[0]] + s[1..] == s;
    }
  }

  /** Number of backslashes that escape a character or end the text. */
  function Escapes(s: string): nat {
    if s == "" then 0
    else if s[0] != '\\' then Escapes(s[1..])
    else if |s| == 1 then 1
    else 1 + Escapes(s[2..])
  }

  /** Unescaping removes exactly the escaping backslashes, so it is the identity exactly on
      texts without a backslash. */
  lemma {:induction false} UnescapeLength(s: string)
    ensures |Unescape(s)| + Escapes(s) == |s|
    ensures Unescape(s) == s <==> '\\' !in s
  {
    if s != "" {
      if s[0] != '\\' {
        UnescapeLength(s[1..]);
        assert ([s[0]] + Unescape(s[1..]))[1..] == Unescape(s[1..]);
        assert [s[0]] + s[1..] == s;
      } else if |s| > 1 {
        UnescapeLength(s[2..]);
      }
    }
  }

  /** What `strdup` copies of a text that a NUL follows. */
  function CString(s: string): string {
    if s == "" || s[0] == '\0' then "" else [s[0]] + CString(s[1..])
  }

  lemma {:induction false} CStringIsPrefix(s: string)
    ensures CString(s) <= s && '\0' !in CString(s)
    ensures |CString(s)| < |s| ==> s[|CString(s)|] == '\0'
    ensures CString(s) == s <==> '\0' !in s
  {
    if s != "" && s[0] != '\0' {
      CStringIsPrefix(s[1..]);
      assert [s[0]] + s[1..] == s;
    }
  }

  lemma {:induction false} UnescapeKeeps(s: string, c: char)
    requires c != '\\'
    ensures c in Unescape(s) <==> c in s
  {
    if s != "" {
      if s[0] != '\\' {
        UnescapeKeeps(s[1..], c);
        assert [s[0]] + s[1..] == s;
      } else if |s| > 1 {
        UnescapeKeeps(s[2..], c);
        assert [s[0], s[1]] + s[2..] == s;
      }
    }
  }

  /** A literal is returned whole if and only if it has no NUL in it. */
  lemma NulEndsLiteral(body: string)
    ensures CString(Unescape(body)) == Unescape(body) <==> '\0' !in body
  {
    CStringIsPrefix(Unescape(body));
    UnescapeKeeps(body, '\0');
  }

  /** `memmove(ptr, ptr + 1, end - ptr - 1)`. */
  method MoveDown(text: array<char>, ptr: nat, end: nat)
    requires ptr < end <= text.Length
    modifies text
    ensures text[..ptr] == old(text[..ptr])
    ensures text[ptr..end - 1] == old(text[ptr + 1..end])
    ensures text[end - 1..] == old(text[end - 1..])
  {
    forall i | ptr <= i < end - 1 {
      text[i] := text[i + 1];
    }
  }

  /** The part of the text that is done, and what is left of it. */
  ghost predicate Progress(text: seq<char>, ptr: nat, end: nat, body: string)
    requires 1 <= end < |text|
  {
    if 1 <= ptr <= end then text[1..ptr] + Unescape(text[ptr..end]) == Unescape(body)
    else text[1..end] == Unescape(body)
  }

  lemma KeepCharacter(text: seq<char>, ptr: nat, end: nat, body: string)
    requires 1 <= ptr < end < |text| && Progress(text, ptr, end, body) && text[ptr] != '\\'
    ensures Progress(text, ptr + 1, end, body)
  {
    var rest := text[ptr..end];
    assert rest[1..] == text[ptr + 1..end];
    assert text[1..ptr + 1] == text[1..ptr] + [rest[0]];
  }

  lemma DropBackslash(before: seq<char>, after: seq<char>, ptr: nat, end: nat, body: string)
    requires 1 <= ptr < end < |before| == |after| && Progress(before, ptr, end, body) && before[ptr] == '\\'
    requires after[..ptr] == before[..ptr] && after[ptr..end - 1] == before[ptr + 1..end]
    ensures Progress(after, ptr + 1, end - 1, body)
  {
    var rest := before[ptr..end];
    assert after[1..ptr] == after[..ptr][1..] == before[..ptr][1..] == before[1..ptr];
    assert rest[1..] == after[ptr..end - 1];
    if ptr + 1 < end {
      assert rest[2..] == rest[1..][1..] == after[ptr + 1..end - 1];
      assert rest[1] == after[ptr..end - 1][0] == after[ptr];
      assert after[1..ptr + 1] == after[1..ptr] + [rest[1]];
    } else {
      assert Unescape(rest) == "";
      assert after[1..end - 1] == before[1..ptr] + "";
    }
  }

  /** `process_string_literal`: `text` holds a literal with its quotes in text[..len].  One
      pointer walks over the text; at a backslash the rest is moved down by one and the
      character that arrives is skipped.  The copy that is returned ends at the first NUL. */
  method ProcessStringLiteral(text: array<char>, len: nat) returns (result: string)
    requires 2 <= len <= text.Length
    modifies text
    ensures result == CString(Unescape(old(text[1..len - 1])))
    ensures var u := Unescape(old(text[1..len - 1])); text[1..1 + |u|] == u && text[1 + |u|] == '\0'
    ensures text[0] == old(text[0]) && text[len..] == old(text[len..])
  {
    var ptr, end := 1, len - 1;
    ghost var body := text[1..len - 1];
    assert text[..][1..end] == body && text[..][1..1] + Unescape(body) == Unescape(body);
    while ptr < end
      invariant 1 <= ptr <= end + 1 <= len
      invariant Progress(text[..], ptr, end, body)
      invariant text[0] == old(text[0]) && text[len..] == old(text[len..])
      decreases end - ptr
    {
      ghost var before := text[..];
      if text[ptr] == '\\' {
        MoveDown(text, ptr, end);
        assert text[len..] == text[end - 1..][len - end + 1..] == before[end - 1..][len - end + 1..];
        assert text[0] == text[..ptr][0];
        DropBackslash(before, text[..], ptr, end, body);
        end := end - 1;
      } else {
        KeepCharacter(before, ptr, end, body);
      }
      ptr := ptr + 1;
    }
    assert text[1..end] == text[..][1..end];
    assert ptr == end ==> text[..][ptr..end] == "";
    ghost var unescaped := text[1..end];
    text[end] := '\0';
    assert text[1..end] == unescaped == Unescape(body);
    result := CString(text[1..end]);
  }
}
