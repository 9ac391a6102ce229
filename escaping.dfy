/**
  `escapeQuotes`, which prepares a text for the inline handlers of the action
  buttons (`onclick="copyToClipboard('<escaped>', 'quote')"`), and what the
  browser makes of its output: it resolves character references in the
  attribute value, then reads the single-quoted JavaScript string literal.
 */
module Escaping {
  import opened Wrappers

  /** `s.replace(/c/g, rep)` for a pattern that is one character. */
  function ReplaceAll(s: string, c: char, rep: string): (r: string)
    ensures c !in rep ==> c !in r
    ensures c !in s ==> r == s
  {
    if s == [] then []
    else (if s[0] == c then rep else [s[0]]) + ReplaceAll(s[1..], c, rep)
  }

  /** `escapeQuotes(str)` as written: every `'` becomes `\'`, then every `"` becomes `&quot;`. */
  function EscapeQuotes(s: string): (r: string)
    ensures '"' !in r
  {
    ReplaceAll(ReplaceAll(s, '\'', "\\'"), '"', "&quot;")
  }

  /** Every character of `s`, in order, replaced by `f` of it. */
  function Expand(s: string, f: char -> string): string
  {
    if s == [] then [] else f(s[0]) + Expand(s[1..], f)
  }

  /** What `escapeQuotes` does to one character. */
  function EscapeChar(c: char): string
  {
    if c == '\'' then "\\'" else if c == '"' then "&quot;" else [c]
  }

  lemma {:induction false} ReplaceAllAppend(a: string, b: string, c: char, rep: string)
    ensures ReplaceAll(a + b, c, rep) == ReplaceAll(a, c, rep) + ReplaceAll(b, c, rep)
  {
    if a != [] {
      assert (a + b)[1..] == a[1..] + b;
      ReplaceAllAppend(a[1..], b, c, rep);
    } else {
      assert a + b == b;
    }
  }

  /**
    The two global replacements amount to escaping each character on its own:
    `'` becomes the two characters `\'`, `"` becomes `&quot;`, and every other
    character is kept, in order.
   */
  lemma {:induction false} EscapeQuotesPerCharacter(s: string)
    ensures EscapeQuotes(s) == Expand(s, EscapeChar)
  {
    if s != [] {
      var c := s[0];
      var first := if c == '\'' then "\\'" else [c];
      assert ReplaceAll(s, '\'', "\\'") == first + ReplaceAll(s[1..], '\'', "\\'");
      ReplaceAllAppend(first, ReplaceAll(s[1..], '\'', "\\'"), '"', "&quot;");
      EscapeQuotesPerCharacter(s[1..]);
      if c == '\'' {
        assert '"' !in first;
      } else if c == '"' {
        assert ReplaceAll(first, '"', "&quot;") == "&quot;" + ReplaceAll([], '"', "&quot;");
      } else {
        assert '"' !in first;
      }
    }
  }

  /** Resolves the character references `&quot;` and `&amp;` in an attribute value. */
  function AttributeValue(s: string): string
  {
    if s == [] then []
    else if |s| >= 6 && s[..6] == "&quot;" then "\"" + AttributeValue(s[6..])
    else if |s| >= 5 && s[..5] == "&amp;" then "&" + AttributeValue(s[5..])
    else [s[0]] + AttributeValue(s[1..])
  }

  /** A value without `&` holds no character reference. */
  lemma {:induction false} NoReferenceUnchanged(s: string)
    requires '&' !in s
    ensures AttributeValue(s) == s
  {
    if s != [] {
      assert |s| >= 6 ==> s[..6] != "&quot;" by { if |s| >= 6 { assert s[..6][0] == s[0]; } }
      assert |s| >= 5 ==> s[..5] != "&amp;" by { if |s| >= 5 { assert s[..5][0] == s[0]; } }
      NoReferenceUnchanged(s[1..]);
    }
  }

  /** Reading a string literal ends with its value and the text after its closing quote, or fails. */
  datatype Literal = Read(value: string, rest: string) | SyntaxError | Unmodelled

  predicate IsLineTerminator(c: char)
  {
    c == '\n' || c == '\r' || c == '\U{2028}' || c == '\U{2029}'
  }

  /**
    The character `\c` stands for in a string literal: the single-character
    escapes and the characters that stand for themselves. Hexadecimal,
    Unicode, octal and line-continuation escapes are not modelled.
   */
  function EscapeValue(c: char): Option<char>
  {
    if c == 'n' then Some('\n')
    else if c == 'r' then Some('\r')
    else if c == 't' then Some('\t')
    else if c == 'b' then Some('\U{0008}')
    else if c == 'f' then Some('\U{000C}')
    else if c == 'v' then Some('\U{000B}')
    else if c == 'x' || c == 'u' || '0' <= c <= '9' || IsLineTerminator(c) then None
    else Some(c)
  }

  function Prepend(c: char, l: Literal): Literal
  {
    if l.Read? then Read([c] + l.value, l.rest) else l
  }

  /** Reads a single-quoted JavaScript string literal whose opening quote has already been read. */
  function ReadLiteral(s: string): Literal
  {
    if s == [] then SyntaxError
    else if s[0] == '\'' then Read([], s[1..])
    else if s[0] == '\n' || s[0] == '\r' then SyntaxError
    else if s[0] == '\\' then
      if |s| == 1 then SyntaxError
      else match EscapeValue(s[1])
        case None => Unmodelled
        case Some(c) => Prepend(c, ReadLiteral(s[2..]))
    else Prepend(s[0], ReadLiteral(s[1..]))
  }

  /**
    The first argument the handler receives when the attribute holds
    `f('<escaped>` followed by `'` and `tail`.
   */
  function HandlerArgument(escaped: string, tail: string): Literal
  {
    ReadLiteral(AttributeValue(escaped + "'" + tail))
  }

  // ----- The escaping the handlers need -----

  /** Escapes one character for a single-quoted JavaScript string literal. */
  function LiteralChar(c: char): string
  {
    if c == '\\' then "\\\\"
    else if c == '\'' then "\\'"
    else if c == '\n' then "\\n"
    else if c == '\r' then "\\r"
    else [c]
  }

  /** Escapes one character for a double-quoted attribute value. */
  function AttributeChar(c: char): string
  {
    if c == '&' then "&amp;" else if c == '"' then "&quot;" else [c]
  }

  /** The text escaped for the literal, then for the attribute that holds it. */
  function EscapeForHandler(s: string): (r: string)
  {
    Expand(Expand(s, LiteralChar), AttributeChar)
  }

  lemma {:induction false} ExpandAppend(a: string, b: string, f: char -> string)
    ensures Expand(a + b, f) == Expand(a, f) + Expand(b, f)
  {
    if a != [] {
      assert (a + b)[1..] == a[1..] + b;
      ExpandAppend(a[1..], b, f);
    } else {
      assert a + b == b;
    }
  }

  /** No `"` survives attribute escaping, so the text cannot end the attribute early. */
  lemma {:induction false} AttributeEscapeHasNoQuote(s: string)
    ensures '"' !in Expand(s, AttributeChar)
  {
    if s != [] {
      AttributeEscapeHasNoQuote(s[1..]);
    }
  }

  /** Resolving references undoes attribute escaping, whatever follows it. */
  lemma {:induction false} AttributeRoundTrip(s: string, tail: string)
    ensures AttributeValue(Expand(s, AttributeChar) + tail) == s + AttributeValue(tail)
  {
    if s != [] {
      var c := s[0];
      var rest := Expand(s[1..], AttributeChar) + tail;
      var e := Expand(s, AttributeChar) + tail;
      assert e == AttributeChar(c) + rest;
      AttributeRoundTrip(s[1..], tail);
      if c == '&' {
        assert |e| >= 6 ==> e[..6] != "&quot;" by { if |e| >= 6 { assert e[..6][1] == 'a'; } }
        assert e[..5] == "&amp;" && e[5..] == rest;
        assert AttributeValue(e) == "&" + AttributeValue(rest);
      } else if c == '"' {
        assert e[..6] == "&quot;" && e[6..] == rest;
        assert AttributeValue(e) == "\"" + AttributeValue(rest);
      } else {
        assert e[0] == c;
        assert |e| >= 6 ==> e[..6] != "&quot;" by { if |e| >= 6 { assert e[..6][0] == c; } }
        assert |e| >= 5 ==> e[..5] != "&amp;" by { if |e| >= 5 { assert e[..5][0] == c; } }
        assert e[1..] == rest;
        assert AttributeValue(e) == [c] + AttributeValue(rest);
      }
      assert s == [c] + s[1..];
    } else {
      assert Expand(s, AttributeChar) + tail == tail;
    }
  }

  /** Reading the literal undoes literal escaping, and stops at the closing quote. */
  lemma {:induction false} LiteralRoundTrip(s: string, tail: string)
    ensures ReadLiteral(Expand(s, LiteralChar) + "'" + tail) == Read(s, tail)
  {
    var e := Expand(s, LiteralChar) + "'" + tail;
    if s == [] {
      assert e == "'" + tail;
    } else {
      var c := s[0];
      var rest := Expand(s[1..], LiteralChar) + "'" + tail;
      assert e == LiteralChar(c) + rest;
      LiteralRoundTrip(s[1..], tail);
      if c == '\\' || c == '\'' || c == '\n' || c == '\r' {
        assert e[0] == '\\' && e[2..] == rest;
        assert EscapeValue(e[1]) == Some(c);
        assert ReadLiteral(e) == Prepend(c, ReadLiteral(rest));
      } else {
        assert e[0] == c && e[1..] == rest;
        assert ReadLiteral(e) == Prepend(c, ReadLiteral(rest));
      }
      assert s == [c] + s[1..];
    }
  }

  /**
    With both escapes applied, every handler receives exactly the text it was
    given, followed by the rest of its attribute; and the escaped text holds
    no `"`.
   */
  lemma HandlerRoundTrip(s: string, tail: string)
    ensures HandlerArgument(EscapeForHandler(s), tail) == Read(s, AttributeValue(tail))
    ensures '"' !in EscapeForHandler(s)
  {
    var lit := Expand(s, LiteralChar);
    ExpandAppend(lit, "'", AttributeChar);
    assert Expand("'", AttributeChar) == "'";
    AttributeRoundTrip(lit + "'", tail);
    assert EscapeForHandler(s) + "'" + tail == Expand(lit + "'", AttributeChar) + tail;
    LiteralRoundTrip(s, AttributeValue(tail));
    AttributeEscapeHasNoQuote(lit);
  }

  // ----- What `escapeQuotes` as written delivers -----

  /** A text without `\`, `&` or line breaks: the two escapes agree on it character by character. */
  predicate Plain(s: string)
  {
    forall i :: 0 <= i < |s| ==> s[i] != '\\' && s[i] != '&' && s[i] != '\n' && s[i] != '\r'
  }

  lemma {:induction false} PlainEscapesAgree(s: string)
    requires Plain(s)
    ensures Expand(s, EscapeChar) == EscapeForHandler(s)
  {
    if s != [] {
      PlainEscapesAgree(s[1..]);
      var c := s[0];
      ExpandAppend(LiteralChar(c), Expand(s[1..], LiteralChar), AttributeChar);
      if c == '\'' {
        assert Expand("\\'", AttributeChar) == "\\'";
      } else {
        assert Expand([c], AttributeChar) == AttributeChar(c);
      }
    }
  }

  /** `escapeQuotes` hands a plain text to the handler unchanged. */
  lemma EscapeQuotesPlainRoundTrip(s: string, tail: string)
    requires Plain(s)
    ensures HandlerArgument(EscapeQuotes(s), tail) == Read(s, AttributeValue(tail))
  {
    EscapeQuotesPerCharacter(s);
    PlainEscapesAgree(s);
    HandlerRoundTrip(s, tail);
  }

  /** A text without `'` or `"` is left as it is by `escapeQuotes`. */
  lemma QuoteFreeUnchanged(s: string)
    requires '\'' !in s && '"' !in s
    ensures EscapeQuotes(s) == s
  {
  }

  /**
    A fact that is one backslash breaks the fact button's copy handler
    (`copyToClipboard('\', 'fact')`): the first literal runs on through the
    separator and the opening quote of `'fact'`, and what is left, `fact')`,
    opens a literal that is never closed, so the handler does not parse.
   */
  lemma EscapeQuotesBreaksHandler()
    ensures EscapeQuotes("\\") == "\\"
    ensures var h := HandlerArgument(EscapeQuotes("\\"), ", 'fact')");
            h == Read("', ", "fact')") && ReadLiteral(h.rest[5..]) == SyntaxError
  {
    QuoteFreeUnchanged("\\");
    ReadsLoneBackslash();
    ReadsFactArguments();
  }

  /** The fact button's attribute after a lone backslash. */
  lemma ReadsLoneBackslash()
    ensures ReadLiteral(AttributeValue("\\" + "'" + ", 'fact')")) == Prepend('\'', ReadLiteral(", 'fact')"))
  {
    var tail := ", 'fact')";
    var attr := "\\" + "'" + tail;
    NoReferenceUnchanged(attr);
    assert attr[0] == '\\' && attr[1] == '\'' && attr[2..] == tail;
  }

  /** The rest of the fact button's attribute ends a literal holding `, `; a lone `)` opens one never closed. */
  lemma ReadsFactArguments()
    ensures ReadLiteral(", 'fact')") == Read(", ", "fact')")
    ensures ReadLiteral(")") == SyntaxError
  {
  }

  /** A prefix without `&` passes through reference resolution unchanged. */
  lemma {:induction false} NoReferencePrefix(p: string, t: string)
    requires '&' !in p
    ensures AttributeValue(p + t) == p + AttributeValue(t)
  {
    if p != [] {
      var e := p + t;
      assert e[0] == p[0] && e[1..] == p[1..] + t;
      assert |e| >= 6 ==> e[..6] != "&quot;" by { if |e| >= 6 { assert e[..6][0] == p[0]; } }
      assert |e| >= 5 ==> e[..5] != "&amp;" by { if |e| >= 5 { assert e[..5][0] == p[0]; } }
      NoReferencePrefix(p[1..], t);
      assert p == [p[0]] + p[1..];
    } else {
      assert p + t == t;
    }
  }

  /**
    A text that is the two characters `\n` reaches its handler as one line
    feed: `escapeQuotes` leaves the backslash alone and the literal decodes
    the escape. The rest of the attribute is read as usual, so the handler
    runs, with the wrong text.
   */
  lemma EscapeQuotesDecodesEscape(tail: string)
    ensures EscapeQuotes("\\n") == "\\n"
    ensures HandlerArgument(EscapeQuotes("\\n"), tail) == Read("\n", AttributeValue(tail))
  {
    QuoteFreeUnchanged("\\n");
    ReadsEscapedLineFeed(tail);
  }

  lemma ReadsEscapedLineFeed(tail: string)
    ensures ReadLiteral(AttributeValue("\\n" + "'" + tail)) == Read("\n", AttributeValue(tail))
  {
    NoReferencePrefix("\\n'", tail);
    var e := "\\n'" + AttributeValue(tail);
    assert "\\n" + "'" + tail == "\\n'" + tail;
    assert e[0] == '\\' && e[1] == 'n' && e[2..] == "'" + AttributeValue(tail);
    assert ("'" + AttributeValue(tail))[1..] == AttributeValue(tail);
  }

  /**
    A text holding `\'` ends the handler's literal early: `escapeQuotes`
    turns it into `\\'`, which the literal reads as one backslash followed
    by its closing quote, so the rest of the text is read as script.
   */
  lemma EscapeQuotesEndsLiteralEarly(code: string, tail: string)
    requires '\'' !in code && '"' !in code && '&' !in code
    ensures HandlerArgument(EscapeQuotes("\\'" + code), tail) == Read("\\", code + "'" + AttributeValue(tail))
  {
    EscapeLeadingBackslashQuote(code);
    ReadsEarlyEnd(code, tail);
  }

  lemma EscapeLeadingBackslashQuote(code: string)
    requires '\'' !in code && '"' !in code
    ensures EscapeQuotes("\\'" + code) == "\\\\'" + code
  {
    ReplaceAllAppend("\\'", code, '\'', "\\'");
    ReplaceAllAppend(ReplaceAll("\\'", '\'', "\\'"), code, '"', "&quot;");
    EscapeBackslashQuote();
  }

  lemma ReadsEarlyEnd(code: string, tail: string)
    requires '&' !in code
    ensures ReadLiteral(AttributeValue("\\\\'" + code + "'" + tail)) == Read("\\", code + "'" + AttributeValue(tail))
  {
    var p := "\\\\'" + code + "'";
    NoReferencePrefix(p, tail);
    Regroup("\\\\'", code, "'", AttributeValue(tail));
    ReadsBackslashThenQuote(code + "'" + AttributeValue(tail));
  }

  lemma Regroup(a: string, b: string, c: string, d: string)
    ensures a + b + c + d == a + (b + c + d)
  {
  }

  /** `escapeQuotes` turns the two characters `\'` into the three characters `\\'`. */
  lemma EscapeBackslashQuote()
    ensures ReplaceAll(ReplaceAll("\\'", '\'', "\\'"), '"', "&quot;") == "\\\\'"
  {
    var once := ReplaceAll("\\'", '\'', "\\'");
    assert once == "\\" + ReplaceAll("'", '\'', "\\'");
    assert ReplaceAll("'", '\'', "\\'") == "\\'" + ReplaceAll([], '\'', "\\'");
    assert once == "\\\\'";
    assert '"' !in once;
  }

  /** An escaped backslash followed by a quote: the literal holds one backslash and ends there. */
  lemma ReadsBackslashThenQuote(rest: string)
    ensures ReadLiteral("\\\\'" + rest) == Read("\\", rest)
  {
    var e := "\\\\'" + rest;
    assert e[0] == '\\' && e[1] == '\\' && e[2..] == "'" + rest;
    assert ("'" + rest)[1..] == rest;
  }

  /** The text `"` and the text `&quot;` escape to the same string. */
  lemma EscapeQuotesConflates()
    ensures EscapeQuotes("\"") == "&quot;" == EscapeQuotes("&quot;")
  {
    assert '\'' !in "&quot;" && '"' !in "&quot;";
    assert ReplaceAll("\"", '\'', "\\'") == "\"";
    assert ReplaceAll("\"", '"', "&quot;") == "&quot;" + ReplaceAll([], '"', "&quot;");
  }

  /** So a text that is itself `&quot;` reaches its handler as `"`. */
  lemma EscapeQuotesResolvesReference(tail: string)
    ensures HandlerArgument(EscapeQuotes("&quot;"), tail) == Read("\"", AttributeValue(tail))
  {
    EscapeQuotesConflates();
    assert Plain("\"");
    EscapeQuotesPlainRoundTrip("\"", tail);
  }

  /** A text with a line break leaves the literal unterminated: the handler never runs. */
  lemma EscapeQuotesKeepsLineBreak(tail: string)
    ensures EscapeQuotes("\n") == "\n"
    ensures HandlerArgument(EscapeQuotes("\n"), tail) == SyntaxError
  {
    assert ReplaceAll("\n", '\'', "\\'") == "\n" by {
      assert ReplaceAll("\n", '\'', "\\'") == "\n" + ReplaceAll([], '\'', "\\'");
    }
    var e := "\n" + "'" + tail;
    assert |e| >= 6 ==> e[..6] != "&quot;" by { if |e| >= 6 { assert e[..6][0] == '\n'; } }
    assert |e| >= 5 ==> e[..5] != "&amp;" by { if |e| >= 5 { assert e[..5][0] == '\n'; } }
    assert AttributeValue(e)[0] == '\n';
  }
}
