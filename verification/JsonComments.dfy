/** Taking the comments out of a configuration text, which may hold strings with comment
    openers in them. */
module JsonComments {

  // ----- how a text divides into tokens -----

  datatype Token = Str(text: string) | LineComment(text: string) | BlockComment(text: string) | Plain(text: string)

  predicate IsQuote(c: char) { c == '"' || c == '\'' }

  predicate IsComment(t: Token) { t.LineComment? || t.BlockComment? }

  /** How much of `s`, read inside a string opened by `quote`, still belongs to it. */
  function StringRest(s: string, quote: char): (n: nat)
    ensures n <= |s| && (s != "" ==> n > 0)
  {
    if s == "" then 0
    else if s[0] == '\\' && |s| > 1 then 2 + StringRest(s[2..], quote)
    else if s[0] == quote then 1
    else 1 + StringRest(s[1..], quote)
  }

  function LineLength(s: string): (n: nat)
    ensures n <= |s|
  {
    if s == "" || s[0] == '\n' then 0 else 1 + LineLength(s[1..])
  }

  /** Up to and including the closing mark, or everything. */
  function BlockRest(s: string): (n: nat)
    ensures n <= |s|
  {
    if s == "" then 0
    else if s[0] == '*' && |s| > 1 && s[1] == '/' then 2
    else 1 + BlockRest(s[1..])
  }

  predicate Opens(s: string, second: char) { |s| > 1 && s[0] == '/' && s[1] == second }

  function FirstToken(s: string): (t: Token)
    requires s != ""
    ensures t.text != "" && t.text <= s
  {
    if IsQuote(s[0]) then Str(s[..1 + StringRest(s[1..], s[0])])
    else if Opens(s, '/') then LineComment(s[..2 + LineLength(s[2..])])
    else if Opens(s, '*') then BlockComment(s[..2 + BlockRest(s[2..])])
    else Plain(s[..1])
  }

  function Lex(s: string): seq<Token>
    decreases |s|
  {
    if s == "" then [] else [FirstToken(s)] + Lex(s[|FirstToken(s).text|..])
  }

  function Text(tokens: seq<Token>): string {
    if tokens == [] then "" else tokens[0].text + Text(tokens[1..])
  }

  function WithoutComments(tokens: seq<Token>): seq<Token> {
    if tokens == [] then []
    else if IsComment(tokens[0]) then WithoutComments(tokens[1..])
    else [tokens[0]] + WithoutComments(tokens[1..])
  }

  /** What is left of a text. */
  function Stripped(s: string): string {
    Text(WithoutComments(Lex(s)))
  }

  // ----- the one pass over the text -----

  /** What is still to be written from inside a string. */
  function StrippedInString(s: string, quote: char): string {
    s[..StringRest(s, quote)] + Stripped(s[StringRest(s, quote)..])
  }

  lemma TextCons(t: Token, tokens: seq<Token>)
    ensures Text([t] + tokens) == t.text + Text(tokens)
    ensures WithoutComments([t] + tokens)
         == if IsComment(t) then WithoutComments(tokens) else [t] + WithoutComments(tokens)
  {
    assert ([t] + tokens)[1..] == tokens;
  }

  lemma LexCons(s: string, t: Token, rest: string)
    requires s != "" && t == FirstToken(s) && rest == s[|t.text|..]
    ensures Lex(s) == [t] + Lex(rest) && s == t.text + rest
  {
  }

  lemma StrippedStep(s: string)
    requires s != ""
    ensures var t := FirstToken(s); Stripped(s) == (if IsComment(t) then "" else t.text) + Stripped(s[|t.text|..])
  {
    var t := FirstToken(s);
    var rest := s[|t.text|..];
    LexCons(s, t, rest);
    TextCons(t, Lex(rest));
    TextCons(t, WithoutComments(Lex(rest)));
  }

  /** What is still to be written, inside a string or outside. */
  function Remaining(s: string, inString: bool, quote: char): string {
    if inString then StrippedInString(s, quote) else Stripped(s)
  }

  method StripJsoncComments(text: string) returns (result: string)
    ensures result == Stripped(text)
  {
    result := "";
    var i, inString, quote := 0, false, '"';
    assert text[0..] == text;
    while i < |text|
      invariant 0 <= i <= |text| && result + Remaining(text[i..], inString, quote) == Stripped(text)
      decreases |text| - i
    {
      ghost var before := result;
      var chunk;
      chunk, i, inString, quote := Advance(text, i, inString, quote);
      result := result + chunk;
      assert result + Remaining(text[i..], inString, quote) == before + (chunk + Remaining(text[i..], inString, quote));
    }
    assert text[i..] == "" && result + "" == result;
  }

  /** One turn of the loop: what it copies, and the state it leaves. */
  method Advance(text: string, at: nat, wasInString: bool, wasQuote: char)
    returns (chunk: string, i: nat, inString: bool, quote: char)
    requires at < |text|
    ensures at < i <= |text|
    ensures Remaining(text[at..], wasInString, wasQuote) == chunk + Remaining(text[i..], inString, quote)
  {
    quote := wasQuote;
    if wasInString {
      chunk, i, inString := AdvanceInString(text, at, quote);
    } else {
      chunk, i, inString := AdvanceOutside(text, at);
      if inString { quote := text[at]; }
    }
  }

  /** A turn inside a string: one character, or an escape with what it escapes. */
  method AdvanceInString(text: string, at: nat, quote: char) returns (chunk: string, i: nat, inString: bool)
    requires at < |text|
    ensures at < i <= |text|
    ensures StrippedInString(text[at..], quote) == chunk + Remaining(text[i..], inString, quote)
  {
    ghost var rest := text[at..];
    var c := text[at];
    InStringStep(rest, quote);
    if c == '\\' && at + 1 < |text| {
      assert [c, text[at + 1]] == rest[..2] && text[at + 2..] == rest[2..];
      return [c, text[at + 1]], at + 2, true;
    }
    assert [c] == rest[..1] && text[at + 1..] == rest[1..];
    return [c], at + 1, c != quote;
  }

  /** A turn outside: a comment is passed over, anything else copied; a quote opens a
      string. */
  method AdvanceOutside(text: string, at: nat) returns (chunk: string, i: nat, inString: bool)
    requires at < |text|
    ensures at < i <= |text|
    ensures Stripped(text[at..]) == chunk + Remaining(text[i..], inString, text[at])
  {
    ghost var rest := text[at..];
    var c := text[at];
    assert [c] == rest[..1] && text[at + 1..] == rest[1..];
    if IsQuote(c) {
      OpeningStep(rest);
      return [c], at + 1, true;
    }
    if c == '/' && at + 1 < |text| && text[at + 1] == '/' {
      i := SkipLine(text, at);
      CommentPassed(text, at, i);
      return "", i, false;
    }
    if c == '/' && at + 1 < |text| && text[at + 1] == '*' {
      i := SkipBlock(text, at);
      CommentPassed(text, at, i);
      return "", i, false;
    }
    PlainStep(rest);
    return [c], at + 1, false;
  }

  lemma Chunked(s: string, a: nat, n: nat, more: string)
    requires a <= n <= |s|
    ensures s[..n] + more == s[..a] + (s[a..][..n - a] + more) && s[a..][n - a..] == s[n..]
  {
    assert s[..n] == s[..a] + s[a..][..n - a];
  }

  lemma InStringStep(s: string, quote: char)
    requires s != ""
    ensures s[0] == '\\' && |s| > 1 ==> StrippedInString(s, quote) == s[..2] + StrippedInString(s[2..], quote)
    ensures !(s[0] == '\\' && |s| > 1) && s[0] == quote ==> StrippedInString(s, quote) == s[..1] + Stripped(s[1..])
    ensures !(s[0] == '\\' && |s| > 1) && s[0] != quote ==>
              StrippedInString(s, quote) == s[..1] + StrippedInString(s[1..], quote)
  {
    var n := StringRest(s, quote);
    var more := Stripped(s[n..]);
    if s[0] == '\\' && |s| > 1 {
      Chunked(s, 2, n, more);
    } else if s[0] != quote {
      Chunked(s, 1, n, more);
    }
  }

  lemma OpeningStep(s: string)
    requires s != "" && IsQuote(s[0])
    ensures Stripped(s) == s[..1] + StrippedInString(s[1..], s[0])
  {
    var n := 1 + StringRest(s[1..], s[0]);
    StrippedStep(s);
    var more := Stripped(s[n..]);
    assert FirstToken(s).text == s[..n];
    Chunked(s, 1, n, more);
  }

  lemma PlainStep(s: string)
    requires s != "" && !IsQuote(s[0]) && !Opens(s, '/') && !Opens(s, '*')
    ensures Stripped(s) == s[..1] + Stripped(s[1..])
  {
    StrippedStep(s);
  }

  lemma CommentStep(s: string, n: nat)
    requires (Opens(s, '/') && n == 2 + LineLength(s[2..])) || (Opens(s, '*') && n == 2 + BlockRest(s[2..]))
    ensures n <= |s| && Stripped(s) == Stripped(s[n..])
  {
    StrippedStep(s);
    assert FirstToken(s).text == s[..n];
  }

  /** From where a comment opens to where it ends. */
  lemma CommentPassed(text: string, start: nat, i: nat)
    requires start + 1 < |text| && text[start] == '/'
    requires (text[start + 1] == '/' && i == start + 2 + LineLength(text[start + 2..]))
             || (text[start + 1] == '*' && i == start + 2 + BlockRest(text[start + 2..]))
    ensures start < i <= |text| && Stripped(text[start..]) == Stripped(text[i..])
  {
    assert text[start..][2..] == text[start + 2..];
    assert i <= |text| && text[start..][i - start..] == text[i..];
    CommentStep(text[start..], i - start);
  }

  method SkipLine(text: string, start: nat) returns (i: nat)
    requires start + 1 < |text| && text[start] == '/' && text[start + 1] == '/'
    ensures i == start + 2 + LineLength(text[start + 2..])
  {
    i := start;
    while i < |text| && text[i] != '\n'
      invariant start <= i <= |text|
      invariant i <= start + 2 || i + LineLength(text[i..]) == start + 2 + LineLength(text[start + 2..])
    {
      if i >= start + 2 { assert text[i..][1..] == text[i + 1..]; }
      i := i + 1;
    }
  }

  method SkipBlock(text: string, start: nat) returns (i: nat)
    requires start + 1 < |text| && text[start] == '/' && text[start + 1] == '*'
    ensures i == start + 2 + BlockRest(text[start + 2..])
  {
    i := start + 2;
    while i < |text| && !(text[i] == '*' && i + 1 < |text| && text[i + 1] == '/')
      invariant start + 2 <= i <= |text|
      invariant i + BlockRest(text[i..]) == start + 2 + BlockRest(text[start + 2..])
    {
      assert text[i..][1..] == text[i + 1..];
      i := i + 1;
    }
    i := if i + 2 <= |text| then i + 2 else |text|;
  }

  // ----- what stripping guarantees -----

  /** The tokens spell the text. */
  lemma {:induction false} TextOfLex(s: string)
    ensures Text(Lex(s)) == s
    decreases |s|
  {
    if s != "" {
      var t := FirstToken(s);
      var rest := s[|t.text|..];
      TextOfLex(rest);
      LexCons(s, t, rest);
      TextCons(t, Lex(rest));
    }
  }

  /** A string that was closed is closed at the same place whatever follows it. */
  lemma {:induction false} StringRestStays(s: string, quote: char, more: string)
    requires StringRest(s, quote) < |s|
    ensures StringRest(s[..StringRest(s, quote)] + more, quote) == StringRest(s, quote)
    decreases |s|
  {
    var n := StringRest(s, quote);
    var u := s[..n] + more;
    assert u[0] == s[0];
    if s[0] == '\\' && |s| > 1 {
      StringRestStays(s[2..], quote, more);
      assert u[2..] == s[2..][..n - 2] + more;
    } else if s[0] != quote {
      StringRestStays(s[1..], quote, more);
      assert u[1..] == s[1..][..n - 1] + more;
    }
  }

  /** After a slash that opens no comment, what is left of the rest opens none with it. */
  lemma StillNoOpener(s: string)
    requires s != "" && s[0] == '/' && !Opens(s, '/') && !Opens(s, '*')
    ensures Stripped(s[1..]) != "" ==> |s| > 1 && Stripped(s[1..])[0] == s[1]
  {
    var rest := s[1..];
    if rest != "" {
      assert rest[0] == s[1] && !IsComment(FirstToken(rest));
      StrippedStep(rest);
      assert FirstToken(rest).text[0] == rest[0];
    }
  }

  /** A token that is kept reads the same in front of what is left of the rest. */
  lemma FirstTokenStays(s: string)
    requires s != "" && !IsComment(FirstToken(s))
    ensures var t := FirstToken(s); FirstToken(t.text + Stripped(s[|t.text|..])) == t
  {
    var t := FirstToken(s);
    var more := Stripped(s[|t.text|..]);
    var u := t.text + more;
    assert u[0] == s[0];
    if IsQuote(s[0]) {
      var n := StringRest(s[1..], s[0]);
      assert u[1..] == s[1..][..n] + more;
      if n < |s| - 1 {
        StringRestStays(s[1..], s[0], more);
      } else {
        assert more == "" && u == s;
      }
    } else {
      assert more == Stripped(s[1..]);
      if s[0] == '/' { StillNoOpener(s); }
    }
  }

  lemma LexOfKept(s: string, t: Token, rest: string)
    requires s != "" && t == FirstToken(s) && rest == s[|t.text|..] && !IsComment(t)
    ensures Stripped(s) == t.text + Stripped(rest) && Lex(Stripped(s)) == [t] + Lex(Stripped(rest))
  {
    StrippedStep(s);
    FirstTokenStays(s);
    var u := t.text + Stripped(rest);
    assert u[|t.text|..] == Stripped(rest);
    LexCons(u, t, Stripped(rest));
  }

  /** Reading the stripped text again gives exactly the tokens that were kept, strings
      and all. */
  lemma {:induction false} LexOfStripped(s: string)
    ensures Lex(Stripped(s)) == WithoutComments(Lex(s))
    decreases |s|
  {
    if s != "" {
      var t := FirstToken(s);
      var rest := s[|t.text|..];
      LexOfStripped(rest);
      LexCons(s, t, rest);
      TextCons(t, Lex(rest));
      if IsComment(t) {
        StrippedStep(s);
      } else {
        LexOfKept(s, t, rest);
      }
    }
  }

  lemma {:induction false} WithoutCommentsHasNone(tokens: seq<Token>)
    ensures forall t :: t in WithoutComments(tokens) ==> !IsComment(t)
    ensures (forall t :: t in tokens ==> !IsComment(t)) ==> WithoutComments(tokens) == tokens
    ensures forall t :: t in tokens && !IsComment(t) ==> t in WithoutComments(tokens)
  {
    if tokens != [] {
      WithoutCommentsHasNone(tokens[1..]);
      assert tokens == [tokens[0]] + tokens[1..];
    }
  }

  /** The stripped text opens no comment outside a string, and stripping it again changes
      nothing. */
  lemma StrippingIsIdempotent(s: string)
    ensures forall t :: t in Lex(Stripped(s)) ==> !IsComment(t)
    ensures Stripped(Stripped(s)) == Stripped(s)
    ensures forall t :: t in Lex(s) && t.Str? ==> t in Lex(Stripped(s))
  {
    LexOfStripped(s);
    WithoutCommentsHasNone(Lex(s));
    WithoutCommentsHasNone(WithoutComments(Lex(s)));
  }

  lemma {:induction false} StrippingShortens(tokens: seq<Token>)
    requires forall t :: t in tokens ==> t.text != ""
    ensures |Text(WithoutComments(tokens))| <= |Text(tokens)|
    ensures (exists t :: t in tokens && IsComment(t)) ==> |Text(WithoutComments(tokens))| < |Text(tokens)|
  {
    if tokens != [] {
      StrippingShortens(tokens[1..]);
      assert tokens == [tokens[0]] + tokens[1..];
      TextCons(tokens[0], tokens[1..]);
      TextCons(tokens[0], WithoutComments(tokens[1..]));
    }
  }

  lemma {:induction false} TokensHaveText(s: string)
    ensures forall t :: t in Lex(s) ==> t.text != ""
    decreases |s|
  {
    if s != "" { TokensHaveText(s[|FirstToken(s).text|..]); }
  }

  /** A text is left as it is just when it holds no comment. */
  lemma UnchangedExactlyWithoutComments(s: string)
    ensures Stripped(s) == s <==> forall t :: t in Lex(s) ==> !IsComment(t)
  {
    TextOfLex(s);
    TokensHaveText(s);
    StrippingShortens(Lex(s));
    WithoutCommentsHasNone(Lex(s));
  }
}
