/**
 * Key quoting and the choice of quote style when a string is written back
 * out as Eon text.
 */
module Strings {
  import opened Common
  import opened TokenKind

  // ---------------------------------------------------------------------------
  // key_needs_quotes

  /** Some character of `s` at or after `k` cannot continue an identifier. */
  function HasNonIdentifierChar(s: string, k: nat): (r: bool)
    requires k <= |s|
    ensures r <==> exists m :: k <= m < |s| && !IsIdentifierContinue(s[m])
    decreases |s| - k
  {
    if k == |s| then false
    else if !IsIdentifierContinue(s[k]) then true
    else HasNonIdentifierChar(s, k + 1)
  }

  /**
   * A map key must be quoted when it is one of the keywords `true`, `false`,
   * `null`, or when it is not a word of the identifier language.
   */
  function KeyNeedsQuotes(s: string): (r: bool)
    ensures r <==> s == "true" || s == "false" || s == "null" || !InIdentifier(s)
  {
    if s == "true" || s == "false" || s == "null" then true
    else if |s| == 0 || (!IsAsciiLetter(s[0]) && s[0] != '_') then true
    else HasNonIdentifierChar(s, 1)
  }

  /** A key that needs no quotes is read back by the lexer as exactly one identifier token. */
  lemma UnquotedKeyIsOneIdentifier(s: string)
    requires !KeyNeedsQuotes(s)
    ensures Lex(s, 0) == [RawToken(Some(Identifier), 0, |s|)]
    ensures s != "true" && s != "false" && s != "null"
  {
    assert s[0..|s|] == s;
    ClassifyExact(s, Identifier);
    assert ScannedAt(s, RawToken(Some(Identifier), 0, |s|));
    LexIsTheTokenization(s, 0, [RawToken(Some(Identifier), 0, |s|)]);
  }

  lemma KeyNeedsQuotesExamples()
    ensures KeyNeedsQuotes("") && KeyNeedsQuotes("true") && KeyNeedsQuotes("false") && KeyNeedsQuotes("null")
    ensures !KeyNeedsQuotes("True") && !KeyNeedsQuotes("a") && !KeyNeedsQuotes("a1")
    ensures !KeyNeedsQuotes("a_b") && !KeyNeedsQuotes("a_b1") && !KeyNeedsQuotes("_1a")
    ensures KeyNeedsQuotes("1a") && KeyNeedsQuotes("a-b") && KeyNeedsQuotes("a b")
  {
    assert "a-b"[1] == '-';
    assert "a b"[1] == ' ';
  }

  // ---------------------------------------------------------------------------
  // Rust's `{:?}` formatting of a string

  /** Lower-case hexadecimal digits of `n`, without leading zeros. */
  function Hex(n: nat): (r: string)
    ensures |r| >= 1
    ensures forall m :: 0 <= m < |r| ==> IsAsciiDigit(r[m]) || 'a' <= r[m] <= 'f'
  {
    var d := n % 16;
    var digit := if d < 10 then '0' + d as char else 'a' + (d - 10) as char;
    if n < 16 then [digit] else Hex(n / 16) + [digit]
  }

  /**
   * How `{:?}` writes one character of a string: the usual backslash escapes,
   * `\u{…}` for the ASCII control characters, the character itself otherwise.
   * A single quote is not escaped inside a string.
   */
  function DebugEscapeChar(c: char): string {
    if c == '\0' then "\\0"
    else if c == '\t' then "\\t"
    else if c == '\r' then "\\r"
    else if c == '\n' then "\\n"
    else if c == '\\' then "\\\\"
    else if c == '"' then "\\\""
    else if c < ' ' || c == '\U{007F}' then "\\u{" + Hex(c as nat) + "}"
    else [c]
  }

  /** The escaped characters of `s`, without the surrounding quotes. */
  function DebugEscape(s: string): string
    decreases |s|
  {
    if s == [] then [] else DebugEscapeChar(s[0]) + DebugEscape(s[1..])
  }

  /** `format!("{s:?}")`: the escaped characters inside double quotes. */
  function DebugQuoted(s: string): string {
    "\"" + DebugEscape(s) + "\""
  }

  /** `s.replace("\\\"", "\"")`: each `\"` found from left to right becomes `"`. */
  function ReplaceEscapedQuotes(s: string): string
    decreases |s|
  {
    if |s| < 2 then s
    else if s[0] == '\\' && s[1] == '"' then "\"" + ReplaceEscapedQuotes(s[2..])
    else [s[0]] + ReplaceEscapedQuotes(s[1..])
  }

  // ---------------------------------------------------------------------------
  // escape_and_quote

  /**
   * The quote-style choice as the source writes it: a string with a `"` and
   * no `'` is written in single quotes, with its `{:?}` escapes kept and the
   * escaped double quotes unescaped; any other string keeps its `{:?}` form.
   */
  function EscapeAndQuoteAsWritten(raw: string): string {
    var escaped := DebugQuoted(raw);
    if '"' in raw && '\'' !in raw then
      "'" + ReplaceEscapedQuotes(escaped[1..|escaped| - 1]) + "'"
    else escaped
  }

  /** `c` is written by `{:?}` as itself. */
  predicate WrittenVerbatim(c: char) { DebugEscapeChar(c) == [c] }

  /**
   * The corrected choice: single quotes are used only when the string holds a
   * `"`, no `'`, and nothing else that `{:?}` would escape, since a single-quoted
   * Eon string is read literally and cannot carry escapes.
   */
  function EscapeAndQuote(raw: string): (r: string)
    ensures |r| >= 2 && r[0] == r[|r| - 1] && (r[0] == '"' || r[0] == '\'')
    ensures r[0] == '\'' <==> '"' in raw && '\'' !in raw && forall c :: c in raw && c != '"' ==> WrittenVerbatim(c)
    ensures r[0] == '\'' ==> r[1..|r| - 1] == raw
    ensures r[0] == '"' ==> r == DebugQuoted(raw)
  {
    if '"' in raw && '\'' !in raw && forall c :: c in raw && c != '"' ==> WrittenVerbatim(c) then
      "'" + raw + "'"
    else DebugQuoted(raw)
  }

  // ---------------------------------------------------------------------------
  // Properties of the escaping

  lemma DebugEscapeAppend(a: string, b: string)
    ensures DebugEscape(a + b) == DebugEscape(a) + DebugEscape(b)
    decreases |a|
  {
    if a == [] {
      assert a + b == b;
    } else {
      assert (a + b)[1..] == a[1..] + b;
      DebugEscapeAppend(a[1..], b);
    }
  }

  /** `{:?}` never writes a bare `"` or a bare newline: both come out escaped. */
  lemma DebugEscapeCharUnits(c: char)
    ensures |DebugEscapeChar(c)| >= 1
    ensures DebugEscapeChar(c)[0] == '\\' || DebugEscapeChar(c) == [c]
    ensures DebugEscapeChar(c) == [c] ==> c != '"' && c != '\\' && c != '\n' && c != '\r'
    ensures '\'' in DebugEscapeChar(c) ==> c == '\''
  {
    if (c < ' ' || c == '\U{007F}') && c != '\0' && c != '\t' && c != '\r' && c != '\n' {
      var h := Hex(c as nat);
      assert DebugEscapeChar(c) == "\\u{" + h + "}";
      assert forall m :: 0 <= m < |h| ==> h[m] != '\'';
    }
  }

  /** A well-formed double-quoted body followed by another is one. */
  lemma {:induction false} DqBodyAppend(a: string, b: string)
    requires DqBody(a) && DqBody(b)
    ensures DqBody(a + b)
    decreases |a|
  {
    if a == [] {
      assert a + b == b;
    } else if a[0] == '\\' {
      assert (a + b)[2..] == a[2..] + b;
      DqBodyAppend(a[2..], b);
    } else {
      assert (a + b)[1..] == a[1..] + b;
      DqBodyAppend(a[1..], b);
    }
  }

  lemma DebugEscapeCharIsDqBody(c: char)
    ensures DqBody(DebugEscapeChar(c))
  {
    var e := DebugEscapeChar(c);
    if c < ' ' || c == '\U{007F}' {
      if c != '\0' && c != '\t' && c != '\r' && c != '\n' {
        var h := Hex(c as nat);
        var tail := "{" + h + "}";
        assert e == "\\u" + tail;
        assert forall m :: 0 <= m < |tail| ==> tail[m] != '"' && tail[m] != '\\';
        PlainIsDqBody(tail);
        assert e[2..] == tail;
      }
    }
  }

  /** Text with no `"` and no backslash is a double-quoted body. */
  lemma {:induction false} PlainIsDqBody(s: string)
    requires forall m :: 0 <= m < |s| ==> s[m] != '"' && s[m] != '\\'
    ensures DqBody(s)
    decreases |s|
  {
    if s != [] {
      PlainIsDqBody(s[1..]);
    }
  }

  lemma {:induction false} DebugEscapeIsDqBody(s: string)
    ensures DqBody(DebugEscape(s))
    decreases |s|
  {
    if s != [] {
      DebugEscapeCharIsDqBody(s[0]);
      DebugEscapeIsDqBody(s[1..]);
      DqBodyAppend(DebugEscapeChar(s[0]), DebugEscape(s[1..]));
    }
  }

  /** `{:?}` of any string is read back by the lexer as a double-quoted string token. */
  lemma DebugQuotedIsDoubleQuotedToken(s: string)
    ensures InDoubleQuoted(DebugQuoted(s))
  {
    var d := DebugQuoted(s);
    DebugEscapeIsDqBody(s);
    assert d[1..|d| - 1] == DebugEscape(s);
  }

  /** Escaping `s` with `{:?}` but leaving each `"` as it is. */
  function EscapeAllButDoubleQuote(s: string): string
    decreases |s|
  {
    if s == [] then []
    else (if s[0] == '"' then "\"" else DebugEscapeChar(s[0])) + EscapeAllButDoubleQuote(s[1..])
  }

  lemma DebugEscapeNeverStartsWithQuote(s: string)
    ensures DebugEscape(s) == [] || DebugEscape(s)[0] != '"'
  {
    if s != [] {
      DebugEscapeCharUnits(s[0]);
    }
  }

  /**
   * The replacement scans `a` and `b` separately when no `\"` straddles
   * their boundary.
   */
  lemma {:induction false} ReplaceAppend(a: string, b: string)
    requires a == [] || b == [] || a[|a| - 1] != '\\' || b[0] != '"'
    ensures ReplaceEscapedQuotes(a + b) == ReplaceEscapedQuotes(a) + ReplaceEscapedQuotes(b)
    decreases |a|
  {
    if a == [] {
      assert a + b == b;
    } else if |a| == 1 {
      if b == [] {
        assert a + b == a;
      } else {
        assert (a + b)[1..] == b;
      }
    } else if a[0] == '\\' && a[1] == '"' {
      assert (a + b)[2..] == a[2..] + b;
      ReplaceAppend(a[2..], b);
    } else {
      assert (a + b)[1..] == a[1..] + b;
      ReplaceAppend(a[1..], b);
    }
  }

  lemma ReplaceInEscapeChar(c: char)
    ensures ReplaceEscapedQuotes(DebugEscapeChar(c)) == if c == '"' then "\"" else DebugEscapeChar(c)
  {
    var e := DebugEscapeChar(c);
    if c < ' ' || c == '\U{007F}' {
      if c != '\0' && c != '\t' && c != '\r' && c != '\n' {
        var tail := "{" + Hex(c as nat) + "}";
        assert e == "\\u" + tail;
        NoBackslashUnchanged(tail);
        assert e[1..] == ['u'] + tail;
        assert ReplaceEscapedQuotes(e[1..]) == ['u'] + ReplaceEscapedQuotes(tail) by {
          if |tail| >= 1 {
            assert e[1..][1..] == tail;
          }
        }
      }
    } else if c == '\\' {
      assert e[1..] == "\\";
    }
  }

  lemma {:induction false} NoBackslashUnchanged(s: string)
    requires forall m :: 0 <= m < |s| ==> s[m] != '\\'
    ensures ReplaceEscapedQuotes(s) == s
    decreases |s|
  {
    if |s| >= 2 {
      NoBackslashUnchanged(s[1..]);
    }
  }

  /**
   * In the single-quoted form the source writes, every escape of `{:?}` stays
   * and only the escaped double quotes become bare `"`.
   */
  lemma {:induction false} SingleQuotedBodyAsWritten(s: string)
    ensures ReplaceEscapedQuotes(DebugEscape(s)) == EscapeAllButDoubleQuote(s)
    decreases |s|
  {
    if s != [] {
      var a, b := DebugEscapeChar(s[0]), DebugEscape(s[1..]);
      DebugEscapeNeverStartsWithQuote(s[1..]);
      ReplaceAppend(a, b);
      ReplaceInEscapeChar(s[0]);
      SingleQuotedBodyAsWritten(s[1..]);
    }
  }

  /** The characters that `EscapeAllButDoubleQuote` writes include no `'` when `s` has none. */
  lemma {:induction false} EscapeAllButDoubleQuoteNoSingleQuote(s: string)
    requires '\'' !in s
    ensures '\'' !in EscapeAllButDoubleQuote(s)
    decreases |s|
  {
    if s != [] {
      DebugEscapeCharUnits(s[0]);
      assert s[0] != '\'';
      EscapeAllButDoubleQuoteNoSingleQuote(s[1..]);
    }
  }

  /**
   * As written, the output starts and ends with the same quote, and it is
   * read back by the lexer as one string token of the chosen style.
   */
  lemma AsWrittenIsOneStringToken(raw: string)
    ensures var r := EscapeAndQuoteAsWritten(raw);
      if '"' in raw && '\'' !in raw then
        r == "'" + EscapeAllButDoubleQuote(raw) + "'" && InSingleQuoted(r)
      else
        r == DebugQuoted(raw) && InDoubleQuoted(r)
  {
    var escaped := DebugQuoted(raw);
    assert escaped[1..|escaped| - 1] == DebugEscape(raw);
    if '"' in raw && '\'' !in raw {
      SingleQuotedBodyAsWritten(raw);
      EscapeAllButDoubleQuoteNoSingleQuote(raw);
      var r := "'" + EscapeAllButDoubleQuote(raw) + "'";
      assert r[1..|r| - 1] == EscapeAllButDoubleQuote(raw);
    } else {
      DebugQuotedIsDoubleQuotedToken(raw);
    }
  }

  /**
   * The corrected output is also one string token, and in single quotes its
   * literal text is exactly `raw`.
   */
  lemma EscapeAndQuoteIsOneStringToken(raw: string)
    ensures var r := EscapeAndQuote(raw);
      (r[0] == '\'' ==> InSingleQuoted(r) && r[1..|r| - 1] == raw)
      && (r[0] == '"' ==> InDoubleQuoted(r))
  {
    var r := EscapeAndQuote(raw);
    if r[0] == '"' {
      DebugQuotedIsDoubleQuotedToken(raw);
    } else {
      assert r[1..|r| - 1] == raw;
      assert forall m :: 1 <= m < |r| - 1 ==> r[m] == raw[m - 1];
    }
  }

  /** Where nothing but `"` needs escaping, the source and the corrected choice agree. */
  lemma {:induction false} AsWrittenAgreesWhenVerbatim(raw: string)
    requires forall c :: c in raw && c != '"' ==> WrittenVerbatim(c)
    ensures EscapeAndQuoteAsWritten(raw) == EscapeAndQuote(raw)
  {
    if '"' in raw && '\'' !in raw {
      AsWrittenIsOneStringToken(raw);
      VerbatimBody(raw);
    }
  }

  lemma {:induction false} VerbatimBody(raw: string)
    requires forall c :: c in raw && c != '"' ==> WrittenVerbatim(c)
    ensures EscapeAllButDoubleQuote(raw) == raw
    decreases |raw|
  {
    if raw != [] {
      assert raw[0] in raw;
      VerbatimBody(raw[1..]);
      assert raw == [raw[0]] + raw[1..];
    }
  }

  lemma {:induction false} VerbatimEscape(s: string)
    requires forall m :: 0 <= m < |s| ==> WrittenVerbatim(s[m])
    ensures DebugEscape(s) == s
    decreases |s|
  {
    if s != [] {
      VerbatimEscape(s[1..]);
      assert s == [s[0]] + s[1..];
    }
  }

  /** Text with no `"` and nothing that `{:?}` escapes is written as itself in double quotes. */
  lemma PlainQuoted(raw: string)
    requires '"' !in raw && forall m :: 0 <= m < |raw| ==> WrittenVerbatim(raw[m])
    ensures EscapeAndQuote(raw) == "\"" + raw + "\""
  {
    VerbatimEscape(raw);
  }

  /** Without the single-quote case, the source and the corrected choice both give the `{:?}` form. */
  lemma DebugQuotedUnlessOnlyDoubleQuotes(raw: string)
    requires !('"' in raw && '\'' !in raw)
    ensures EscapeAndQuoteAsWritten(raw) == DebugQuoted(raw)
    ensures EscapeAndQuote(raw) == DebugQuoted(raw)
  {
  }

  /**
   * The examples of the source's own test, for the quoting the source tests
   * and for the corrected one.
   */
  lemma EscapeAndQuotePlainExamples(normal: string, its: string)
    requires normal == "normal" && its == "it's"
    ensures EscapeAndQuoteAsWritten(normal) == EscapeAndQuote(normal) == "\"normal\""
    ensures EscapeAndQuoteAsWritten(its) == EscapeAndQuote(its) == "\"it's\""
  {
    PlainQuoted(normal);
    PlainQuoted(its);
    DebugQuotedUnlessOnlyDoubleQuotes(normal);
    DebugQuotedUnlessOnlyDoubleQuotes(its);
  }

  /** Verbatim text with a `"` and no `'` is written single-quoted as itself, by both quotings. */
  lemma SingleQuotedAsItself(raw: string)
    requires '"' in raw && '\'' !in raw
    requires forall c :: c in raw && c != '"' ==> WrittenVerbatim(c)
    ensures EscapeAndQuoteAsWritten(raw) == EscapeAndQuote(raw) == "'" + raw + "'"
  {
    AsWrittenAgreesWhenVerbatim(raw);
  }

  lemma EscapeAndQuoteDoubleQuoteExample(q: string)
    requires q == "say \"hi\""
    ensures EscapeAndQuoteAsWritten(q) == EscapeAndQuote(q) == "'say \"hi\"'"
  {
    assert "'" + q + "'" == "'say \"hi\"'";
    assert q[4] == '"';
    forall c | c in q && c != '"'
      ensures WrittenVerbatim(c)
    {
      assert 'a' <= c <= 'z' || c == ' ';
    }
    SingleQuotedAsItself(q);
  }

  lemma EscapeAndQuoteBothQuotesExample(raw: string)
    requires raw == "it's \"hi\""
    ensures EscapeAndQuoteAsWritten(raw) == EscapeAndQuote(raw) == "\"it's \\\"hi\\\"\""
  {
    var a, h := "it's ", "hi";
    assert '\'' in raw by {
      assert raw[2] == '\'';
    }
    DebugQuotedUnlessOnlyDoubleQuotes(raw);
    assert DebugEscape(raw) == a + "\\\"" + h + "\\\"" by {
      assert raw == a + "\"" + h + "\"";
      QuotesEscapedBetween(a, h);
    }
  }

  /** Around verbatim text, each `"` comes out as `\"` and nothing else changes. */
  lemma QuotesEscapedBetween(a: string, h: string)
    requires forall m :: 0 <= m < |a| ==> WrittenVerbatim(a[m])
    requires forall m :: 0 <= m < |h| ==> WrittenVerbatim(h[m])
    ensures DebugEscape(a + "\"" + h + "\"") == a + "\\\"" + h + "\\\""
  {
    var q := "\"";
    VerbatimEscape(a);
    VerbatimEscape(h);
    assert DebugEscape(q) == "\\\"" by {
      assert q[1..] == [];
    }
    DebugEscapeAppend(a, q);
    DebugEscapeAppend(a + q, h);
    DebugEscapeAppend(a + q + h, q);
  }

  lemma EscapeAndQuoteNewlineExample(s: string)
    requires s == "line\n"
    ensures EscapeAndQuoteAsWritten(s) == EscapeAndQuote(s) == "\"line\\n\""
  {
    var a := "line";
    assert DebugEscape(s) == a + "\\n" by {
      assert s == a + "\n";
      DebugEscapeAppend(a, "\n");
      VerbatimEscape(a);
    }
    assert '"' !in s;
    DebugQuotedUnlessOnlyDoubleQuotes(s);
  }

  /**
   * As written, a string with a `"` and a newline comes out in single quotes
   * with the two characters `\n` inside: read literally, that is a different
   * string, one character longer.
   */
  lemma AsWrittenLosesNewline()
    ensures EscapeAndQuoteAsWritten("\"\n") == "'\"\\n'"
    ensures var r := EscapeAndQuoteAsWritten("\"\n");
      InSingleQuoted(r) && r[1..|r| - 1] != "\"\n"
    ensures EscapeAndQuote("\"\n") == "\"\\\"\\n\""
  {
    AsWrittenIsOneStringToken("\"\n");
    assert EscapeAllButDoubleQuote("\"\n") == "\"\\n";
    assert DebugEscape("\"\n") == "\\\"\\n";
    assert !WrittenVerbatim('\n');
  }
}
