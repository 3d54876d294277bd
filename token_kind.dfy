/**
 * The fifteen token classes of Eon, each a regular language over characters,
 * the set of characters skipped between tokens, and the scanner that splits a
 * source text into tokens by longest match over those languages.
 */
module TokenKind {
  import opened Common

  datatype Kind =
    | Comment
    | OpenList
    | CloseList
    | OpenBrace
    | CloseBrace
    | OpenParen
    | CloseParen
    | Colon
    | Comma
    | Identifier
    | Number
    | DoubleQuotedString
    | SingleQuotedString
    | MultilineBasicString
    | MultilineLiteralString

  /** How a token kind is named in error messages. */
  function Name(k: Kind): string {
    match k
    case Comment => "// comment"
    case OpenList => "open bracket '['"
    case CloseList => "close bracket ']'"
    case OpenBrace => "open brace '{'"
    case CloseBrace => "close brace '}'"
    case OpenParen => "open parenthesis '('"
    case CloseParen => "close parenthesis ')'"
    case Colon => "colon ':'"
    case Comma => "comma ','"
    case Identifier => "identifier"
    case Number => "number"
    case DoubleQuotedString => "\"basic string\""
    case SingleQuotedString => "'literal string'"
    case MultilineBasicString => "\"\"\"multiline basic string\"\"\""
    case MultilineLiteralString => "'''multiline literal string'''"
  }

  // ---------------------------------------------------------------------------
  // Character classes

  /** The characters skipped between tokens: space, tab, newline and form feed. */
  predicate IsSkip(c: char) { c == ' ' || c == '\t' || c == '\n' || c == '\U{000C}' }

  predicate IsAsciiLetter(c: char) { 'a' <= c <= 'z' || 'A' <= c <= 'Z' }

  predicate IsAsciiDigit(c: char) { '0' <= c <= '9' }

  predicate IsIdentifierStart(c: char) { IsAsciiLetter(c) || c == '_' }

  predicate IsIdentifierContinue(c: char) { IsAsciiLetter(c) || IsAsciiDigit(c) || c == '_' }

  predicate IsNumberStart(c: char) { c == '+' || c == '-' || IsAsciiDigit(c) || c == '.' }

  predicate IsNumberContinue(c: char) {
    IsAsciiDigit(c) || IsAsciiLetter(c) || c == '.' || c == '+' || c == '-' || c == '_'
  }

  predicate NotNewline(c: char) { c != '\n' }

  predicate NotSingleQuote(c: char) { c != '\'' }

  /** The kind of a one-character punctuation token. */
  function PunctuationKind(c: char): Option<Kind> {
    match c
    case '[' => Some(OpenList)
    case ']' => Some(CloseList)
    case '{' => Some(OpenBrace)
    case '}' => Some(CloseBrace)
    case '(' => Some(OpenParen)
    case ')' => Some(CloseParen)
    case ':' => Some(Colon)
    case ',' => Some(Comma)
    case _ => None
  }

  // ---------------------------------------------------------------------------
  // The languages

  /** `//[^\n]*` */
  predicate InComment(s: string) {
    |s| >= 2 && s[0] == '/' && s[1] == '/' && forall m :: 2 <= m < |s| ==> s[m] != '\n'
  }

  /** `[a-zA-Z_][a-zA-Z0-9_]*` */
  predicate InIdentifier(s: string) {
    |s| >= 1 && IsIdentifierStart(s[0]) && forall m :: 1 <= m < |s| ==> IsIdentifierContinue(s[m])
  }

  /** `[+\-0-9.][0-9a-zA-Z.+\-_]*` */
  predicate InNumber(s: string) {
    |s| >= 1 && IsNumberStart(s[0]) && forall m :: 1 <= m < |s| ==> IsNumberContinue(s[m])
  }

  /**
   * `([^"\\]|\\.)*`, where `.` is any character but a newline. A backslash
   * always opens a two-character escape, so the body splits into its units in
   * exactly one way, from left to right.
   */
  predicate DqBody(b: string)
    decreases |b|
  {
    if b == [] then true
    else if b[0] == '\\' then |b| >= 2 && b[1] != '\n' && DqBody(b[2..])
    else b[0] != '"' && DqBody(b[1..])
  }

  /** `"([^"\\]|\\.)*"` */
  predicate InDoubleQuoted(s: string) {
    |s| >= 2 && s[0] == '"' && s[|s| - 1] == '"' && DqBody(s[1..|s| - 1])
  }

  /** `'([^'])*'` */
  predicate InSingleQuoted(s: string) {
    |s| >= 2 && s[0] == '\'' && s[|s| - 1] == '\'' && forall m :: 1 <= m < |s| - 1 ==> s[m] != '\''
  }

  /**
   * `([^q]|q[^q]|qq[^q])*` for the quote character `q`. Every unit ends at its
   * first character other than `q`, so the units are found from left to right.
   */
  predicate TripleBody(b: string, q: char)
    decreases |b|
  {
    if b == [] then true
    else if b[0] != q then TripleBody(b[1..], q)
    else if |b| >= 2 && b[1] != q then TripleBody(b[2..], q)
    else if |b| >= 3 && b[1] == q && b[2] != q then TripleBody(b[3..], q)
    else false
  }

  /** `qqq([^q]|q[^q]|qq[^q])*qqq` */
  predicate InMultiline(s: string, q: char) {
    |s| >= 6 && s[0] == q && s[1] == q && s[2] == q
    && s[|s| - 3] == q && s[|s| - 2] == q && s[|s| - 1] == q
    && TripleBody(s[3..|s| - 3], q)
  }

  /** `s` is a word of the language of token kind `k`. */
  predicate InLanguage(k: Kind, s: string) {
    match k
    case Comment => InComment(s)
    case OpenList => s == "["
    case CloseList => s == "]"
    case OpenBrace => s == "{"
    case CloseBrace => s == "}"
    case OpenParen => s == "("
    case CloseParen => s == ")"
    case Colon => s == ":"
    case Comma => s == ","
    case Identifier => InIdentifier(s)
    case Number => InNumber(s)
    case DoubleQuotedString => InDoubleQuoted(s)
    case SingleQuotedString => InSingleQuoted(s)
    case MultilineBasicString => InMultiline(s, '"')
    case MultilineLiteralString => InMultiline(s, '\'')
  }

  /** No word belongs to two token languages. */
  lemma LanguagesDisjoint(s: string, k1: Kind, k2: Kind)
    requires InLanguage(k1, s) && InLanguage(k2, s)
    ensures k1 == k2
  {
  }

  /** The token kind whose language holds `s`, if any. */
  function Classify(s: string): (r: Option<Kind>)
    ensures r.Some? ==> InLanguage(r.value, s)
    ensures r.None? ==> forall k :: !InLanguage(k, s)
  {
    if |s| == 1 && PunctuationKind(s[0]).Some? then PunctuationKind(s[0])
    else if InComment(s) then Some(Comment)
    else if InIdentifier(s) then Some(Identifier)
    else if InNumber(s) then Some(Number)
    else if InDoubleQuoted(s) then Some(DoubleQuotedString)
    else if InSingleQuoted(s) then Some(SingleQuotedString)
    else if InMultiline(s, '"') then Some(MultilineBasicString)
    else if InMultiline(s, '\'') then Some(MultilineLiteralString)
    else None
  }

  lemma ClassifyExact(s: string, k: Kind)
    ensures Classify(s) == Some(k) <==> InLanguage(k, s)
  {
    if InLanguage(k, s) && Classify(s) != Some(k) {
      LanguagesDisjoint(s, k, Classify(s).value);
    }
  }

  // ---------------------------------------------------------------------------
  // The scanner

  /** Where a run of characters satisfying `p` that begins at `k` ends. */
  function RunEnd(src: string, k: nat, p: char -> bool): (e: nat)
    requires k <= |src|
    ensures k <= e <= |src|
    ensures forall m :: k <= m < e ==> p(src[m])
    ensures e < |src| ==> !p(src[e])
    decreases |src| - k
  {
    if k == |src| || !p(src[k]) then k else RunEnd(src, k + 1, p)
  }

  /** A double-quoted body starting at `k` is closed by the quote at `e - 1`. */
  predicate DqClosesAt(src: string, k: nat, e: nat)
    requires k < e <= |src|
  {
    src[e - 1] == '"' && DqBody(src[k..e - 1])
  }

  /** Scans a double-quoted body from `k`: the end of the token, after its closing quote. */
  function DqEnd(src: string, k: nat): (r: Option<nat>)
    requires k <= |src|
    ensures r.Some? ==> k < r.value <= |src|
    decreases |src| - k
  {
    if k == |src| then None
    else if src[k] == '"' then Some(k + 1)
    else if src[k] == '\\' then
      if k + 1 < |src| && src[k + 1] != '\n' then DqEnd(src, k + 2) else None
    else DqEnd(src, k + 1)
  }

  /** The double-quoted scan finds the one and only closing quote of the regex. */
  lemma {:induction false} DqEndExact(src: string, k: nat, e: nat)
    requires k < e <= |src|
    ensures DqClosesAt(src, k, e) <==> DqEnd(src, k) == Some(e)
    decreases |src| - k
  {
    var b := src[k..e - 1];
    if src[k] == '"' {
      if e > k + 1 {
        assert b[0] == '"';
      }
    } else if src[k] == '\\' {
      if k + 1 < |src| && src[k + 1] != '\n' {
        if e >= k + 3 {
          assert b[2..] == src[k + 2..e - 1];
          DqEndExact(src, k + 2, e);
        } else if e == k + 2 {
          assert b == [src[k]];
        }
      } else if e >= k + 2 {
        assert b[0] == '\\';
        if e >= k + 3 {
          assert b[1] == src[k + 1];
        }
      }
    } else {
      if e >= k + 2 {
        assert b[1..] == src[k + 1..e - 1];
        DqEndExact(src, k + 1, e);
      }
    }
  }

  /** A triple-quoted body starting at `k` is closed by the three quotes ending at `e`. */
  predicate TripleClosesAt(src: string, k: nat, e: nat, q: char)
    requires e <= |src|
  {
    k + 3 <= e && src[e - 3] == q && src[e - 2] == q && src[e - 1] == q && TripleBody(src[k..e - 3], q)
  }

  /** Scans a triple-quoted body from `k`: the end of the token, after its closing quotes. */
  function TripleEnd(src: string, k: nat, q: char): (r: Option<nat>)
    requires k <= |src|
    ensures r.Some? ==> k + 3 <= r.value <= |src|
    decreases |src| - k
  {
    if k + 2 < |src| && src[k] == q && src[k + 1] == q && src[k + 2] == q then Some(k + 3)
    else if k < |src| && src[k] != q then TripleEnd(src, k + 1, q)
    else if k + 1 < |src| && src[k + 1] != q then TripleEnd(src, k + 2, q)
    else if k + 2 < |src| && src[k + 2] != q then TripleEnd(src, k + 3, q)
    else None
  }

  /** The triple-quoted scan finds the one and only closing triple of the regex. */
  lemma {:induction false} TripleEndExact(src: string, k: nat, e: nat, q: char)
    requires k <= e <= |src|
    ensures TripleClosesAt(src, k, e, q) <==> TripleEnd(src, k, q) == Some(e)
    decreases |src| - k
  {
    if e < k + 3 {
      return;
    }
    var b := src[k..e - 3];
    if k + 2 < |src| && src[k] == q && src[k + 1] == q && src[k + 2] == q {
      if e > k + 3 {
        assert b[0] == q;
        if |b| >= 2 { assert b[1] == q; }
        if |b| >= 3 { assert b[2] == q; }
      }
    } else if k < |src| && src[k] != q {
      if e > k + 3 {
        assert b[1..] == src[k + 1..e - 3];
        TripleEndExact(src, k + 1, e, q);
      } else {
        TripleEndLower(src, k + 1, q);
      }
    } else if k + 1 < |src| && src[k + 1] != q {
      TripleEndLower(src, k + 2, q);
      if e >= k + 5 {
        assert b[2..] == src[k + 2..e - 3];
        TripleEndExact(src, k + 2, e, q);
      } else if e == k + 4 {
        assert b == [src[k]];
      }
    } else if k + 2 < |src| && src[k + 2] != q {
      TripleEndLower(src, k + 3, q);
      if e >= k + 6 {
        assert b[3..] == src[k + 3..e - 3];
        TripleEndExact(src, k + 3, e, q);
      } else if e == k + 5 {
        assert b == [src[k], src[k + 1]];
      } else if e == k + 4 {
        assert b == [src[k]];
      }
    }
  }

  lemma TripleEndLower(src: string, k: nat, q: char)
    requires k <= |src|
    ensures TripleEnd(src, k, q).Some? ==> TripleEnd(src, k, q).value >= k + 3
  {
  }

  /** Scans a single-quoted body from `k`: the token ends after the first `'`. */
  function SqEnd(src: string, k: nat): (r: Option<nat>)
    requires k <= |src|
  {
    var e := RunEnd(src, k, NotSingleQuote);
    if e < |src| then Some(e + 1) else None
  }

  datatype Scanned = Scanned(kind: Kind, end: nat)

  /**
   * What the generated lexer does at a position holding no skipped character:
   * decide the token by its first character and scan to its end.
   */
  function ScanToken(src: string, i: nat): (r: Option<Scanned>)
    requires i < |src|
  {
    var c := src[i];
    if PunctuationKind(c).Some? then Some(Scanned(PunctuationKind(c).value, i + 1))
    else if c == '/' then
      if i + 1 < |src| && src[i + 1] == '/' then Some(Scanned(Comment, RunEnd(src, i + 2, NotNewline)))
      else None
    else if IsIdentifierStart(c) then Some(Scanned(Identifier, RunEnd(src, i + 1, IsIdentifierContinue)))
    else if IsNumberStart(c) then Some(Scanned(Number, RunEnd(src, i + 1, IsNumberContinue)))
    else if c == '"' then
      var triple := if i + 2 < |src| && src[i + 1] == '"' && src[i + 2] == '"' then TripleEnd(src, i + 3, '"') else None;
      if triple.Some? then Some(Scanned(MultilineBasicString, triple.value))
      else if DqEnd(src, i + 1).Some? then Some(Scanned(DoubleQuotedString, DqEnd(src, i + 1).value))
      else None
    else if c == '\'' then
      var triple := if i + 2 < |src| && src[i + 1] == '\'' && src[i + 2] == '\'' then TripleEnd(src, i + 3, '\'') else None;
      if triple.Some? then Some(Scanned(MultilineLiteralString, triple.value))
      else if SqEnd(src, i + 1).Some? then Some(Scanned(SingleQuotedString, SqEnd(src, i + 1).value))
      else None
    else None
  }

  /** `src[i..e]` is a token of some kind and no longer prefix of `src[i..]` is one. */
  predicate IsLongestMatch(src: string, i: nat, e: nat, k: Kind) {
    i < e <= |src| && Classify(src[i..e]) == Some(k)
    && forall e' :: e < e' <= |src| ==> Classify(src[i..e']).None?
  }

  /** No prefix of `src[i..]` is a token. */
  predicate NoMatch(src: string, i: nat) {
    forall e :: i < e <= |src| ==> Classify(src[i..e]).None?
  }

  // ---------------------------------------------------------------------------
  // The scanner takes the longest match

  lemma CommentPrefixes(src: string, i: nat, e: nat)
    requires i < e <= |src| && src[i] == '/'
    ensures InComment(src[i..e]) <==>
      i + 1 < |src| && src[i + 1] == '/' && i + 2 <= e <= RunEnd(src, i + 2, NotNewline)
  {
    var s := src[i..e];
    if i + 1 < |src| && src[i + 1] == '/' && i + 2 <= e {
      var r := RunEnd(src, i + 2, NotNewline);
      if e > r {
        assert s[r - i] == src[r];
      }
    }
  }

  lemma IdentifierPrefixes(src: string, i: nat, e: nat)
    requires i < e <= |src|
    ensures InIdentifier(src[i..e]) <==>
      IsIdentifierStart(src[i]) && e <= RunEnd(src, i + 1, IsIdentifierContinue)
  {
    var s := src[i..e];
    var r := RunEnd(src, i + 1, IsIdentifierContinue);
    if e > r {
      assert s[r - i] == src[r];
    }
  }

  lemma NumberPrefixes(src: string, i: nat, e: nat)
    requires i < e <= |src|
    ensures InNumber(src[i..e]) <==>
      IsNumberStart(src[i]) && e <= RunEnd(src, i + 1, IsNumberContinue)
  {
    var s := src[i..e];
    var r := RunEnd(src, i + 1, IsNumberContinue);
    if e > r {
      assert s[r - i] == src[r];
    }
  }

  lemma DoubleQuotedPrefixes(src: string, i: nat, e: nat)
    requires i < e <= |src| && src[i] == '"'
    ensures InDoubleQuoted(src[i..e]) <==> i + 1 < e && DqEnd(src, i + 1) == Some(e)
  {
    if i + 1 < e {
      DqEndExact(src, i + 1, e);
      var s := src[i..e];
      var b1, b2 := s[1..|s| - 1], src[i + 1..e - 1];
      assert b1 == b2 by {
        forall m | 0 <= m < |b1| ensures b1[m] == b2[m] { }
      }
    }
  }

  lemma SingleQuotedPrefixes(src: string, i: nat, e: nat)
    requires i < e <= |src| && src[i] == '\''
    ensures InSingleQuoted(src[i..e]) <==> i + 1 < e && SqEnd(src, i + 1) == Some(e)
  {
    var s := src[i..e];
    var r := RunEnd(src, i + 1, NotSingleQuote);
    if InSingleQuoted(s) {
      assert s[e - 1 - i] == src[e - 1];
    }
  }

  lemma MultilinePrefixes(src: string, i: nat, e: nat, q: char)
    requires i < e <= |src|
    ensures InMultiline(src[i..e], q) <==>
      i + 2 < |src| && src[i] == q && src[i + 1] == q && src[i + 2] == q && TripleClosesAt(src, i + 3, e, q)
  {
    var s := src[i..e];
    if e >= i + 6 {
      var b1, b2 := s[3..|s| - 3], src[i + 3..e - 3];
      assert b1 == b2 by {
        forall m | 0 <= m < |b1| ensures b1[m] == b2[m] { }
      }
    }
  }

  /** The class of each text that starts at a quote: a triple-quoted string, a single-quoted one, or nothing. */
  lemma QuotedPrefixClass(src: string, i: nat, e: nat)
    requires i < e <= |src| && (src[i] == '"' || src[i] == '\'')
    ensures var q := src[i];
      var opens := i + 2 < |src| && src[i + 1] == q && src[i + 2] == q;
      var triple := if opens then TripleEnd(src, i + 3, q) else None;
      var single := if q == '"' then DqEnd(src, i + 1) else SqEnd(src, i + 1);
      Classify(src[i..e]) ==
        if triple == Some(e) then Some(if q == '"' then MultilineBasicString else MultilineLiteralString)
        else if single == Some(e) then Some(if q == '"' then DoubleQuotedString else SingleQuotedString)
        else None
  {
    var q := src[i];
    var opens := i + 2 < |src| && src[i + 1] == q && src[i + 2] == q;
    if opens {
      if q == '"' {
        assert DqEnd(src, i + 1) == Some(i + 2);
      } else {
        assert src[i + 1] == '\'';
        assert SqEnd(src, i + 1) == Some(i + 2);
      }
    }
    var s := src[i..e];
    assert s[0] == q;
    MultilinePrefixes(src, i, e, '"');
    MultilinePrefixes(src, i, e, '\'');
    if opens && e >= i + 3 {
      TripleEndExact(src, i + 3, e, q);
    }
    if q == '"' {
      DoubleQuotedPrefixes(src, i, e);
    } else {
      SingleQuotedPrefixes(src, i, e);
    }
  }

  /** Where the scanner stops at a quote character, no longer prefix is a token. */
  lemma ScanQuotedIsLongestMatch(src: string, i: nat)
    requires i < |src| && (src[i] == '"' || src[i] == '\'')
    ensures ScanToken(src, i).Some? ==>
      IsLongestMatch(src, i, ScanToken(src, i).value.end, ScanToken(src, i).value.kind)
    ensures ScanToken(src, i).None? ==> NoMatch(src, i)
  {
    var q := src[i];
    var opens := i + 2 < |src| && src[i + 1] == q && src[i + 2] == q;
    var triple := if opens then TripleEnd(src, i + 3, q) else None;
    var single := if q == '"' then DqEnd(src, i + 1) else SqEnd(src, i + 1);
    forall e | i < e <= |src|
      ensures Classify(src[i..e]) ==
        if triple == Some(e) then Some(if q == '"' then MultilineBasicString else MultilineLiteralString)
        else if single == Some(e) then Some(if q == '"' then DoubleQuotedString else SingleQuotedString)
        else None
    {
      QuotedPrefixClass(src, i, e);
    }
    if triple.Some? {
      assert ScanToken(src, i) == Some(Scanned(if q == '"' then MultilineBasicString else MultilineLiteralString, triple.value));
    }
  }

  /**
   * The scanner finds the longest prefix of `src[i..]` that is a word of some
   * token language, with that language's kind; when it finds nothing, no
   * prefix is a token.
   */
  lemma ScanTokenIsLongestMatch(src: string, i: nat)
    requires i < |src|
    ensures ScanToken(src, i).Some? ==>
      IsLongestMatch(src, i, ScanToken(src, i).value.end, ScanToken(src, i).value.kind)
    ensures ScanToken(src, i).None? ==> NoMatch(src, i)
  {
    var c := src[i];
    if c == '"' || c == '\'' {
      ScanQuotedIsLongestMatch(src, i);
      return;
    }
    forall e | i < e <= |src|
      ensures Classify(src[i..e]) ==
        if PunctuationKind(c).Some? then (if e == i + 1 then PunctuationKind(c) else None)
        else if c == '/' then (if InComment(src[i..e]) then Some(Comment) else None)
        else if IsIdentifierStart(c) then (if InIdentifier(src[i..e]) then Some(Identifier) else None)
        else if IsNumberStart(c) then (if InNumber(src[i..e]) then Some(Number) else None)
        else None
    {
      var s := src[i..e];
      assert s[0] == c;
    }
    if c == '/' {
      forall e | i < e <= |src| ensures InComment(src[i..e]) <==>
        i + 1 < |src| && src[i + 1] == '/' && i + 2 <= e <= RunEnd(src, i + 2, NotNewline)
      {
        CommentPrefixes(src, i, e);
      }
    } else if IsIdentifierStart(c) {
      forall e | i < e <= |src| ensures InIdentifier(src[i..e]) <==> e <= RunEnd(src, i + 1, IsIdentifierContinue) {
        IdentifierPrefixes(src, i, e);
      }
    } else if IsNumberStart(c) {
      forall e | i < e <= |src| ensures InNumber(src[i..e]) <==> e <= RunEnd(src, i + 1, IsNumberContinue) {
        NumberPrefixes(src, i, e);
      }
    }
  }

  // ---------------------------------------------------------------------------
  // Splitting a whole text into tokens

  /** A token found by the lexer; `kind` is `None` for text that no token class matches. */
  datatype RawToken = RawToken(kind: Option<Kind>, start: nat, end: nat)

  /** Every position in `[a, b)` holds a skipped character of `src`. */
  predicate AllSkip(src: string, a: nat, b: nat) {
    forall m :: a <= m < b ==> m < |src| && IsSkip(src[m])
  }

  /**
   * `t` is what the lexer yields at `t.start`: the longest match, or, where no
   * token class matches, an invalid token of one character.
   */
  predicate ScannedAt(src: string, t: RawToken) {
    t.start < t.end <= |src| && !IsSkip(src[t.start])
    && match t.kind
       case Some(k) => IsLongestMatch(src, t.start, t.end, k)
       case None => t.end == t.start + 1 && NoMatch(src, t.start)
  }

  /**
   * `toks` splits `src[i..]` into skipped characters and tokens, in order,
   * each token taken by longest match where it starts.
   */
  predicate Tokenizes(src: string, i: nat, toks: seq<RawToken>) {
    (forall n :: 0 <= n < |toks| ==> ScannedAt(src, toks[n]))
    && (|toks| > 0 ==> i <= toks[0].start && AllSkip(src, i, toks[0].start))
    && (forall n :: 0 < n < |toks| ==> toks[n - 1].end <= toks[n].start && AllSkip(src, toks[n - 1].end, toks[n].start))
    && AllSkip(src, if |toks| == 0 then i else toks[|toks| - 1].end, |src|)
  }

  /** The lexer: skip, take the longest match (or one invalid character), repeat. */
  function Lex(src: string, i: nat): (r: seq<RawToken>)
    requires i <= |src|
    ensures Tokenizes(src, i, r)
    decreases |src| - i
  {
    var k := RunEnd(src, i, IsSkip);
    if k == |src| then []
    else
      ScanTokenIsLongestMatch(src, k);
      var t := match ScanToken(src, k)
        case Some(sc) => RawToken(Some(sc.kind), k, sc.end)
        case None => RawToken(None, k, k + 1);
      [t] + Lex(src, t.end)
  }

  /** Two longest matches at the same place are the same token. */
  lemma LongestMatchUnique(src: string, i: nat, e1: nat, k1: Kind, e2: nat, k2: Kind)
    requires IsLongestMatch(src, i, e1, k1) && IsLongestMatch(src, i, e2, k2)
    ensures e1 == e2 && k1 == k2
  {
  }

  /** There is only one way to split a text into tokens, so `Lex` is that way. */
  lemma {:induction false} TokenizesUnique(src: string, i: nat, r1: seq<RawToken>, r2: seq<RawToken>)
    requires Tokenizes(src, i, r1) && Tokenizes(src, i, r2)
    ensures r1 == r2
    decreases |r1|
  {
    if |r1| == 0 || |r2| == 0 {
      return;
    }
    var t1, t2 := r1[0], r2[0];
    assert t1.start == t2.start;
    if t1.kind.Some? && t2.kind.Some? {
      LongestMatchUnique(src, t1.start, t1.end, t1.kind.value, t2.end, t2.kind.value);
    }
    assert t1 == t2;
    TokenizesTail(src, i, r1);
    TokenizesTail(src, i, r2);
    TokenizesUnique(src, t1.end, r1[1..], r2[1..]);
  }

  lemma TokenizesTail(src: string, i: nat, r: seq<RawToken>)
    requires Tokenizes(src, i, r) && |r| > 0
    ensures Tokenizes(src, r[0].end, r[1..])
  {
    var tail := r[1..];
    forall n | 0 < n < |tail|
      ensures tail[n - 1].end <= tail[n].start && AllSkip(src, tail[n - 1].end, tail[n].start)
    {
      assert tail[n - 1] == r[n] && tail[n] == r[n + 1];
    }
  }

  /** Whatever satisfies the tokenization predicate is what `Lex` returns. */
  lemma LexIsTheTokenization(src: string, i: nat, toks: seq<RawToken>)
    requires i <= |src| && Tokenizes(src, i, toks)
    ensures Lex(src, i) == toks
  {
    TokenizesUnique(src, i, Lex(src, i), toks);
  }

  // ---------------------------------------------------------------------------
  // Properties of the token classes

  /** Only space, tab, newline and form feed are skipped: a carriage return is an invalid token. */
  lemma CarriageReturnIsInvalid()
    ensures Lex(" \t\n\U{000C}\r", 0) == [RawToken(None, 4, 5)]
  {
    var src := " \t\n\U{000C}\r";
    assert RunEnd(src, 0, IsSkip) == 4;
    assert ScanToken(src, 4) == None;
  }

  /** A comment token runs up to, and not including, the next newline. */
  lemma CommentStopsAtNewline(src: string, i: nat)
    requires i + 1 < |src| && src[i] == '/' && src[i + 1] == '/'
    ensures ScanToken(src, i).Some? && ScanToken(src, i).value.kind == Comment
    ensures var e := ScanToken(src, i).value.end;
      (e == |src| || src[e] == '\n') && '\n' !in src[i..e]
  {
    var e := RunEnd(src, i + 2, NotNewline);
    assert forall m :: 0 <= m < e - i ==> src[i..e][m] == src[i + m];
  }

  /**
   * An identifier stops at a hyphen, which starts a number token that runs on
   * over letters: `kebab-case` is `kebab` followed by `-case`.
   */
  lemma HyphenSplitsIdentifier(src: string, i: nat, j: nat)
    requires i < j < |src| && InIdentifier(src[i..j]) && src[j] == '-'
    ensures ScanToken(src, i) == Some(Scanned(Identifier, j))
    ensures ScanToken(src, j).Some? && ScanToken(src, j).value.kind == Number
    ensures forall m :: j < m < ScanToken(src, j).value.end ==> IsNumberContinue(src[m])
  {
    IdentifierPrefixes(src, i, j);
    assert !IsIdentifierContinue(src[j]);
  }

  lemma KebabCaseIsTwoTokens()
    ensures ScanToken("kebab-case", 0) == Some(Scanned(Identifier, 5))
    ensures ScanToken("kebab-case", 5) == Some(Scanned(Number, 10))
  {
    var src := "kebab-case";
    assert src[0..5] == "kebab";
    HyphenSplitsIdentifier(src, 0, 5);
    NumberPrefixes(src, 5, 10);
    assert src[5..10] == "-case";
  }

  /** A whole word of the number language is one token. */
  lemma NumberWordIsOneToken(s: string)
    requires InNumber(s)
    ensures Lex(s, 0) == [RawToken(Some(Number), 0, |s|)]
  {
    assert s[0..|s|] == s;
    ClassifyExact(s, Number);
    assert ScannedAt(s, RawToken(Some(Number), 0, |s|));
    LexIsTheTokenization(s, 0, [RawToken(Some(Number), 0, |s|)]);
  }

  /** `+1.e3-42`, `0xdeadbeef` and `+inf` are each one number token. */
  lemma NumberLiteralsAreOneToken(exp: string, hex: string, inf: string)
    requires exp == "+1.e3-42" && hex == "0xdeadbeef" && inf == "+inf"
    ensures Lex(exp, 0) == [RawToken(Some(Number), 0, 8)]
    ensures Lex(hex, 0) == [RawToken(Some(Number), 0, 10)]
    ensures Lex(inf, 0) == [RawToken(Some(Number), 0, 4)]
  {
    assert InNumber(exp) by {
      assert forall m :: 1 <= m < |exp| ==> IsNumberContinue(exp[m]);
    }
    NumberWordIsOneToken(exp);
    assert InNumber(hex) by {
      assert forall m :: 1 <= m < |hex| ==> IsNumberContinue(hex[m]);
    }
    NumberWordIsOneToken(hex);
    assert InNumber(inf) by {
      assert forall m :: 1 <= m < |inf| ==> IsNumberContinue(inf[m]);
    }
    NumberWordIsOneToken(inf);
  }

  /** In a double-quoted string a backslash escapes the next character, so `\"` does not close it. */
  lemma EscapedQuoteDoesNotClose()
    ensures InDoubleQuoted("\"\\\"\"")
    ensures !InDoubleQuoted("\"\\\"")
    ensures Classify("\"\\\"").None?
  {
    var open := "\"\\\"";
    assert open[1..|open| - 1] == "\\";
    var closed := "\"\\\"\"";
    assert closed[1..|closed| - 1] == "\\\"";
    assert closed[1..|closed| - 1][2..] == [];
  }

  /** A backslash before a newline is not an escape: a double-quoted string cannot span lines that way. */
  lemma BackslashNewlineBreaksDoubleQuoted()
    ensures !InDoubleQuoted("\"\\\n\"")
  {
    var s := "\"\\\n\"";
    assert s[1..|s| - 1] == "\\\n";
  }

  /** A single-quoted string may hold any character except `'`, newlines included. */
  lemma SingleQuotedMayHoldNewline()
    ensures InSingleQuoted("'a\nb'")
    ensures !InSingleQuoted("'a'b'")
  {
    var s := "'a'b'";
    assert s[2] == '\'';
  }

  /** A triple-quoted body never holds three of its quote characters in a row. */
  lemma {:induction false} TripleBodyHasNoTriple(b: string, q: char)
    requires TripleBody(b, q)
    ensures forall m :: 0 <= m && m + 2 < |b| ==> !(b[m] == q && b[m + 1] == q && b[m + 2] == q)
    decreases |b|
  {
    if b == [] {
    } else if b[0] != q {
      TripleBodyHasNoTriple(b[1..], q);
      assert forall m :: 1 <= m < |b| ==> b[m] == b[1..][m - 1];
    } else if |b| >= 2 && b[1] != q {
      TripleBodyHasNoTriple(b[2..], q);
      assert forall m :: 2 <= m < |b| ==> b[m] == b[2..][m - 2];
    } else {
      TripleBodyHasNoTriple(b[3..], q);
      assert forall m :: 3 <= m < |b| ==> b[m] == b[3..][m - 3];
    }
  }

  /** ... while one or two quote characters in a row are allowed. */
  lemma TripleBodyAllowsOneOrTwoQuotes()
    ensures InMultiline("\"\"\"a\"b\"\"c\"\"\"", '"')
    ensures !InMultiline("\"\"\"a\"\"\"b\"\"\"", '"')
  {
    var s := "\"\"\"a\"b\"\"c\"\"\"";
    var b := s[3..|s| - 3];
    assert b == "a\"b\"\"c";
    assert TripleBody([], '"');
    assert TripleBody("\"\"c", '"');
    assert TripleBody("\"b\"\"c", '"');
    assert TripleBody(b, '"');
    var t := "\"\"\"a\"\"\"b\"\"\"";
    var c := t[3..|t| - 3];
    assert c == "a\"\"\"b";
    assert c[1..] == "\"\"\"b";
    assert !TripleBody("\"\"\"b", '"');
  }
}
