/** The argument tokenizer of the IMAP server (_split_imap_args, _parse_login_args and
    _unquote of app/proxies/imap/server.py). */
module ImapArgs {
  import opened Options
  import opened Text

  // ---------------------------------------------------------------- specification

  function Cons(c: char, r: (string, string)): (string, string)
  {
    ([c] + r.0, r.1)
  }

  /** The content of a quoted string, read from after its opening quote, and what follows its
      closing quote. A backslash makes the next character literal; a missing closing quote
      ends the string at the end of the text. */
  function QuotedRest(s: string): (r: (string, string))
    ensures |r.1| <= |s|
    decreases |s|
  {
    if s == "" then ("", "")
    else if s[0] == '\\' && |s| > 1 then Cons(s[1], QuotedRest(s[2..]))
    else if s[0] == '"' then ("", s[1..])
    else Cons(s[0], QuotedRest(s[1..]))
  }

  /** Length of the atom at the front: up to the next space or quote. */
  function AtomLength(s: string): (n: nat)
    ensures n <= |s|
  {
    if s == "" || s[0] == ' ' || s[0] == '"' then 0 else 1 + AtomLength(s[1..])
  }

  function Tokens(s: string): seq<string>
    decreases |s|
  {
    if s == "" then []
    else if s[0] == '"' then
      var (content, rest) := QuotedRest(s[1..]);
      [content] + Tokens(rest)
    else if s[0] == ' ' then Tokens(s[1..])
    else
      var n := AtomLength(s);
      [s[..n]] + Tokens(s[n..])
  }

  function LoginArgs(args: string): Option<(string, string)>
  {
    var parts := Tokens(Strip(args));
    if |parts| >= 2 then Some((parts[0], parts[1])) else None
  }

  /** Surrounding double quotes dropped; a lone quote becomes empty. */
  function Unquote(s: string): string
  {
    var t := Strip(s);
    if t != "" && t[0] == '"' && t[|t| - 1] == '"' then (if |t| == 1 then "" else t[1..|t| - 1]) else t
  }

  // ---------------------------------------------------------------- the index loops

  /** One step of reading a quoted string, at an index. */
  lemma QuotedStep(args: string, j: nat)
    requires j < |args|
    ensures args[j] == '\\' && j + 1 < |args| ==> QuotedRest(args[j..]) == Cons(args[j + 1], QuotedRest(args[j + 2..]))
    ensures args[j] == '"' ==> QuotedRest(args[j..]) == ("", args[j + 1..])
    ensures args[j] != '"' && !(args[j] == '\\' && j + 1 < |args|) ==>
              QuotedRest(args[j..]) == Cons(args[j], QuotedRest(args[j + 1..]))
  {
    var tail := args[j..];
    assert tail[0] == args[j] && tail[1..] == args[j + 1..];
    if j + 1 < |args| {
      assert tail[1] == args[j + 1] && tail[2..] == args[j + 2..];
    }
  }

  /** The inner loop for a quoted string whose opening quote is at i. */
  method ReadQuoted(args: string, i: nat) returns (content: string, j: nat)
    requires i < |args| && args[i] == '"'
    ensures i < j <= |args|
    ensures (content, args[j..]) == QuotedRest(args[i + 1..])
  {
    content := "";
    j := i + 1;
    BeforeNothing(QuotedRest(args[j..]));
    while j < |args|
      invariant i < j <= |args|
      invariant QuotedRest(args[i + 1..]) == Before(content, QuotedRest(args[j..]))
    {
      QuotedStep(args, j);
      if args[j] == '\\' && j + 1 < |args| {
        BeforeCons(content, args[j + 1], QuotedRest(args[j + 2..]));
        content := content + [args[j + 1]];
        j := j + 2;
      } else if args[j] == '"' {
        BeforeEnd(content, args[j + 1..]);
        j := j + 1;
        return;
      } else {
        BeforeCons(content, args[j], QuotedRest(args[j + 1..]));
        content := content + [args[j]];
        j := j + 1;
      }
    }
    assert args[j..] == "";
    BeforeEnd(content, "");
  }

  function Before(content: string, r: (string, string)): (string, string)
  {
    (content + r.0, r.1)
  }

  lemma BeforeCons(content: string, c: char, r: (string, string))
    ensures Before(content, Cons(c, r)) == Before(content + [c], r)
  {
    assert content + ([c] + r.0) == content + [c] + r.0;
  }

  lemma BeforeNothing(r: (string, string))
    ensures Before("", r) == r
  {
    assert "" + r.0 == r.0;
  }

  lemma BeforeEnd(content: string, rest: string)
    ensures Before(content, ("", rest)) == (content, rest)
  {
    assert content + "" == content;
  }

  /** The inner loop for an atom that starts at i. */
  method ReadAtom(args: string, i: nat) returns (j: nat)
    requires i < |args| && args[i] != ' ' && args[i] != '"'
    ensures i < j <= |args|
    ensures j == i + AtomLength(args[i..])
  {
    j := i;
    while j < |args| && args[j] != ' ' && args[j] != '"'
      invariant i <= j <= |args|
      invariant AtomLength(args[i..]) == j - i + AtomLength(args[j..])
      decreases |args| - j
    {
      assert args[j..][1..] == args[j + 1..];
      j := j + 1;
    }
  }

  /** One token at an index. */
  lemma TokenStep(args: string, i: nat, j: nat, content: string)
    requires i < j <= |args|
    ensures args[i] == ' ' ==> Tokens(args[i..]) == Tokens(args[i + 1..])
    ensures args[i] == '"' && (content, args[j..]) == QuotedRest(args[i + 1..]) ==>
              Tokens(args[i..]) == [content] + Tokens(args[j..])
    ensures args[i] != ' ' && args[i] != '"' && j == i + AtomLength(args[i..]) ==>
              Tokens(args[i..]) == [args[i..j]] + Tokens(args[j..])
  {
    var rest := args[i..];
    assert rest[0] == args[i] && rest[1..] == args[i + 1..];
    assert rest[..j - i] == args[i..j] && rest[j - i..] == args[j..];
  }

  method SplitImapArgs(args: string) returns (result: seq<string>)
    ensures result == Tokens(args)
  {
    result := [];
    var i := 0;
    assert args[0..] == args;
    while i < |args|
      invariant 0 <= i <= |args|
      invariant Tokens(args) == result + Tokens(args[i..])
      decreases |args| - i
    {
      if args[i] == '"' {
        var content, j := ReadQuoted(args, i);
        TokenStep(args, i, j, content);
        result := result + [content];
        i := j;
      } else if args[i] == ' ' {
        TokenStep(args, i, i + 1, "");
        i := i + 1;
      } else {
        var j := ReadAtom(args, i);
        TokenStep(args, i, j, "");
        result := result + [args[i..j]];
        i := j;
      }
    }
    assert args[i..] == "";
  }

  method ParseLoginArgs(args: string) returns (credentials: Option<(string, string)>)
    ensures credentials == LoginArgs(args)
  {
    var parts := SplitImapArgs(Strip(args));
    if |parts| >= 2 {
      return Some((parts[0], parts[1]));
    }
    credentials := None;
  }

  // ---------------------------------------------------------------- rendering

  /** An argument as a client writes it. */
  datatype Arg = Atom(text: string) | Quoted(text: string)

  predicate Writable(a: Arg)
  {
    a.Atom? ==> a.text != "" && ' ' !in a.text && '"' !in a.text
  }

  function Escape(text: string): string
  {
    if text == "" then ""
    else (if text[0] == '\\' || text[0] == '"' then ['\\', text[0]] else [text[0]]) + Escape(text[1..])
  }

  function Render(a: Arg): string
  {
    if a.Atom? then a.text else ['"'] + Escape(a.text) + ['"']
  }

  function RenderAll(args: seq<Arg>): string
  {
    if args == [] then ""
    else if |args| == 1 then Render(args[0])
    else Render(args[0]) + [' '] + RenderAll(args[1..])
  }

  function Texts(args: seq<Arg>): seq<string>
  {
    seq(|args|, i requires 0 <= i < |args| => args[i].text)
  }

  lemma {:induction false} QuotedRestOfEscape(text: string, tail: string)
    ensures QuotedRest(Escape(text) + ['"'] + tail) == (text, tail)
  {
    var s := Escape(text) + ['"'] + tail;
    if text == "" {
      assert s[0] == '"' && s[1..] == tail;
    } else {
      var c, more := text[0], Escape(text[1..]) + ['"'] + tail;
      QuotedRestOfEscape(text[1..], tail);
      assert text == [c] + text[1..];
      if c == '\\' || c == '"' {
        EscapedFirst(c, more, s);
      } else {
        PlainFirst(c, more, s);
      }
    }
  }

  lemma EscapedFirst(c: char, more: string, s: string)
    requires s == ['\\', c] + more
    ensures QuotedRest(s) == Cons(c, QuotedRest(more))
  {
    assert s[2..] == more;
  }

  lemma PlainFirst(c: char, more: string, s: string)
    requires s == [c] + more && c != '\\' && c != '"'
    ensures QuotedRest(s) == Cons(c, QuotedRest(more))
  {
    assert s[1..] == more;
  }

  lemma {:induction false} AtomLengthOf(text: string, tail: string)
    requires ' ' !in text && '"' !in text
    requires tail == "" || tail[0] == ' ' || tail[0] == '"'
    ensures AtomLength(text + tail) == |text|
  {
    if text == "" {
      assert text + tail == tail;
    } else {
      assert text[0] in text;
      assert (text + tail)[1..] == text[1..] + tail;
      AtomLengthOf(text[1..], tail);
    }
  }

  lemma QuotedToken(text: string, tail: string)
    ensures Tokens(Render(Quoted(text)) + tail) == [text] + Tokens(tail)
  {
    var s := Render(Quoted(text)) + tail;
    QuotedRestOfEscape(text, tail);
    assert s[0] == '"' && s[1..] == Escape(text) + ['"'] + tail;
  }

  lemma AtomToken(text: string, tail: string)
    requires Writable(Atom(text)) && (tail == "" || tail[0] == ' ' || tail[0] == '"')
    ensures Tokens(text + tail) == [text] + Tokens(tail)
  {
    var s := text + tail;
    assert text[0] in text;
    AtomLengthOf(text, tail);
    assert s[0] == text[0] && s[..|text|] == text && s[|text|..] == tail;
  }

  /** A rendered argument in front of a separator, or of nothing, is one token. */
  lemma FirstToken(a: Arg, tail: string)
    requires Writable(a) && (tail == "" || tail[0] == ' ')
    ensures Tokens(Render(a) + tail) == [a.text] + Tokens(tail)
  {
    if a.Quoted? {
      QuotedToken(a.text, tail);
    } else {
      AtomToken(a.text, tail);
    }
  }

  /** An atom also ends at a quote, and what follows a closing quote starts a new token. */
  lemma {:induction false} AdjacentTokens(text: string, content: string, tail: string)
    requires Writable(Atom(text))
    ensures Tokens(text + (Render(Quoted(content)) + tail)) == [text, content] + Tokens(tail)
  {
    AtomToken(text, Render(Quoted(content)) + tail);
    QuotedToken(content, tail);
  }

  lemma PlainEnd(s: string)
    requires s == "\\"
    ensures QuotedRest(s) == (s, "")
  {
    assert s[1..] == "" && QuotedRest("") == ("", "");
    assert QuotedRest(s) == Cons(s[0], QuotedRest(s[1..]));
    assert [s[0]] + "" == s;
  }

  /** A quoted string that is never closed ends with the text; a backslash at its very end stands
      for itself. */
  lemma {:induction false} UnclosedQuote(text: string, slash: string)
    requires slash == "" || slash == "\\"
    ensures QuotedRest(Escape(text) + slash) == (text + slash, "")
  {
    var s := Escape(text) + slash;
    if text == "" {
      assert s == slash;
      if slash != "" {
        PlainEnd(s);
      }
    } else {
      var c, more := text[0], Escape(text[1..]) + slash;
      UnclosedQuote(text[1..], slash);
      assert text + slash == [c] + (text[1..] + slash);
      if c == '\\' || c == '"' {
        EscapedFirst(c, more, s);
      } else {
        PlainFirst(c, more, s);
      }
    }
  }

  lemma FirstOfMany(a: Arg, more: string)
    requires Writable(a)
    ensures Tokens(Render(a) + [' '] + more) == [a.text] + Tokens(more)
  {
    var tail := [' '] + more;
    FirstToken(a, tail);
    assert Render(a) + tail == Render(a) + [' '] + more;
    assert tail[1..] == more;
  }

  /** Tokenizing undoes rendering, for every list of writable arguments. */
  lemma {:induction false} TokensOfRendered(args: seq<Arg>)
    requires forall a | a in args :: Writable(a)
    ensures Tokens(RenderAll(args)) == Texts(args)
  {
    if args != [] {
      var a := args[0];
      assert a in args;
      assert Texts(args) == [a.text] + Texts(args[1..]);
      if |args| == 1 {
        FirstToken(a, "");
        assert Render(a) + "" == Render(a);
      } else {
        TokensOfRendered(args[1..]);
        FirstOfMany(a, RenderAll(args[1..]));
      }
    }
  }

  /** LOGIN with quoted credentials reads back any user name and password. */
  lemma LoginReadsQuotedCredentials(username: string, password: string)
    ensures LoginArgs(RenderAll([Quoted(username), Quoted(password)])) == Some((username, password))
  {
    var args := [Quoted(username), Quoted(password)];
    TokensOfRendered(args);
    QuotedPair(args);
  }

  lemma QuotedPair(args: seq<Arg>)
    requires |args| == 2 && args[0].Quoted? && args[1].Quoted?
    ensures Strip(RenderAll(args)) == RenderAll(args)
  {
    var s := RenderAll(args);
    assert RenderAll(args[1..]) == Render(args[1]);
    assert s == Render(args[0]) + [' '] + Render(args[1]);
    assert s[0] == '"' && s[|s| - 1] == '"';
    StripKeeps(s);
  }
}
