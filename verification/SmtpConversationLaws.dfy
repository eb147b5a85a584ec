/** What the submission connection does with the commands and the octets a client sends. */
module SmtpConversationLaws {
  import opened Options
  import opened Text
  import opened LineStream
  import opened SmtpData
  import opened SmtpConnection

  // ---------------------------------------------------------------- the verbs

  /** The commands the server knows, by the verbs of section 4.1.1 of RFC 5321; any other verb
      is unknown. */
  lemma Verbs(args: string)
    ensures CommandOf("EHLO", args) == Ehlo && CommandOf("HELO", args) == Helo
    ensures CommandOf("RSET", args) == Rset && CommandOf("NOOP", args) == Noop
    ensures CommandOf("QUIT", args) == Quit && CommandOf("DATA", args) == Data
    ensures CommandOf("MAIL", args) == Mail(ExtractAddress(args))
    ensures CommandOf("RCPT", args) == Rcpt(ExtractAddress(args))
  {
  }

  lemma UnknownVerb(verb: string, args: string)
    requires verb !in {"EHLO", "HELO", "RSET", "NOOP", "QUIT", "DATA", "MAIL", "RCPT", "AUTH"}
    ensures CommandOf(verb, args) == Unknown
  {
  }

  /** The mechanism of AUTH, in any case, and the initial response of PLAIN. */
  lemma {:induction false} AuthVerb(mechanism: string, initial: string)
    requires ' ' !in mechanism
    ensures Upper(mechanism) == "PLAIN" ==>
              && CommandOf("AUTH", mechanism + [' '] + initial) == AuthPlain(initial)
              && CommandOf("AUTH", mechanism) == AuthPlain("")
    ensures Upper(mechanism) == "LOGIN" ==> CommandOf("AUTH", mechanism) == AuthLogin
    ensures Upper(mechanism) !in {"PLAIN", "LOGIN"} ==> CommandOf("AUTH", mechanism) == AuthOther
  {
    var args := mechanism + [' '] + initial;
    IndexOfAppend(mechanism, ' ', initial);
    assert args[..|mechanism|] == mechanism && args[|mechanism| + 1..] == initial;
    assert IndexOf(mechanism, ' ') == |mechanism| && mechanism[..|mechanism|] == mechanism;
  }

  /** Without angle brackets the address is what follows the colon, or all there is. */
  lemma {:induction false} PlainAddress(keyword: string, address: string)
    requires '<' !in keyword && '<' !in address && ':' !in keyword
    ensures ExtractAddress(keyword + [':'] + address) == Strip(address)
    ensures ExtractAddress(keyword) == Strip(keyword)
  {
    var arg := keyword + [':'] + address;
    IndexOfAppend(keyword, ':', address);
    assert arg[|keyword| + 1..] == address;
    assert '<' !in arg;
  }

  // ---------------------------------------------------------------- replies belong to commands

  /** MAIL is accepted exactly from a logged-in client with no transaction open, RCPT from one
      with a transaction open; what is recorded is what the command names. */
  lemma EnvelopeAccepted(env: Environment, h: seq<Exchange>, address: string, stream: string)
    ensures var (e, rest) := Respond(env, h, Mail(address), stream);
            && rest == stream && e.command == Mail(address) && e.delivery == None
            && (e.reply == MailOk250(address) <==> SessionOf(h).Some? && Sender(h).None?)
            && (e.reply != MailOk250(address) ==>
                  e.reply == if SessionOf(h).None? then AuthRequired530 else BadSequence503)
    ensures var (e, rest) := Respond(env, h, Rcpt(address), stream);
            && rest == stream && e.command == Rcpt(address) && e.delivery == None
            && (e.reply == RcptOk250(address) <==> SessionOf(h).Some? && Sender(h).Some?)
            && (e.reply != RcptOk250(address) ==>
                  e.reply == if SessionOf(h).None? then AuthRequired530 else MailFirst503)
  {
  }

  /** EHLO and HELO, and RSET of a logged-in client, end any transaction; NOOP, QUIT and unknown
      commands change nothing; what needs a login is refused without one, and changes nothing. */
  lemma {:induction false} TransactionEnds(env: Environment, h: seq<Exchange>, c: Command, stream: string)
    requires c in {Ehlo, Helo, Rset, Noop, Quit, Unknown}
    ensures var (e, rest) := Respond(env, h, c, stream);
            var h' := h + [e];
            && rest == stream && e.command == c && e.delivery == None && SessionOf(h') == SessionOf(h)
            && (c in {Ehlo, Helo} || (c == Rset && SessionOf(h).Some?) ==> Sender(h') == None && Recipients(h') == [])
            && (c in {Noop, Quit, Unknown} || (c == Rset && SessionOf(h).None?) ==>
                  Sender(h') == Sender(h) && Recipients(h') == Recipients(h))
            && (Greeted(h') <==> Greeted(h) || c in {Ehlo, Helo})
            && e.reply == (if c == Ehlo || c == Helo then HelloOk250
                           else if c == Noop then NoopOk250 else if c == Quit then Bye221
                           else if SessionOf(h).None? then AuthRequired530
                           else if c == Rset then ResetOk250 else NotImplemented502)
  {
    var e := Respond(env, h, c, stream).0;
    AppendExchange(h, e);
    if c in {Noop, Quit, Unknown} || SessionOf(h).None? {
      assert Recipients(h) + [] == Recipients(h);
    }
  }

  /** AUTH PLAIN with an initial response succeeds exactly after a greeting, before any success,
      on credentials that decode and are valid; then the session is theirs. */
  lemma AuthPlainSucceedsIff(env: Environment, h: seq<Exchange>, blob: string, stream: string, s: Session)
    requires blob != ""
    ensures var (e, rest) := Respond(env, h, AuthPlain(blob), stream);
            && rest == stream && e.delivery == None
            && (e.reply == AuthOk235(s)
                <==> && Greeted(h) && SessionOf(h).None?
                     && exists username, password :: env.plain(blob) == Some((username, password))
                                                     && env.authenticate(|h|, username, password) == Some(s))
            && (!e.reply.AuthOk235? ==>
                  e.reply == if !Greeted(h) then HelloFirst503
                             else if SessionOf(h).Some? then AlreadyAuthenticated503 else AuthFailed535)
  {
    if env.plain(blob).Some? {
      var (username, password) := env.plain(blob).value;
      assert env.plain(blob) == Some((username, password));
    }
  }

  /** A line as a client sends it. */
  predicate Sendable(line: string)
  {
    '\n' !in line && (line != "" ==> line[|line| - 1] != '\r') && |line| + 2 <= 8192
  }

  lemma EndOfLine(line: string)
    requires line != "" ==> line[|line| - 1] !in {'\r', '\n'}
    ensures StripLineEnd(line + "\r\n") == line
  {
    var s := line + "\r\n";
    assert s[..|s| - 1] == line + "\r" && (line + "\r")[..|line|] == line;
    assert StripLineEnd(s) == StripLineEnd(line + "\r");
    assert StripLineEnd(line + "\r") == StripLineEnd(line);
  }

  /** A line is read back without its ending, and nothing of what follows it is touched. */
  lemma NextLineReads(line: string, rest: string)
    requires Sendable(line)
    ensures NextLine(line + "\r\n" + rest) == (Some(line), rest)
  {
    var raw := line + "\r\n";
    assert forall i | 0 <= i < |raw| - 1 :: raw[i] != '\n';
    LineAppend(raw, rest);
    assert line != "" ==> line[|line| - 1] in line;
    EndOfLine(line);
  }

  /** A line of more than 8192 octets, or an exhausted stream, ends the conversation. */
  lemma OverlongLineEnds(env: Environment, h: seq<Exchange>, stream: string)
    requires stream == "" || |Line(stream)| > 8192
    ensures NextLine(stream).0 == None && Converse(env, h, stream) == h
  {
  }

  /** AUTH PLAIN without an initial response reads the next line for it. */
  lemma {:induction false} AuthPlainPrompted(env: Environment, h: seq<Exchange>, blob: string, rest: string)
    requires Greeted(h) && SessionOf(h).None? && Sendable(blob) && Strip(blob) == blob
    ensures var (e, rest') := Respond(env, h, AuthPlain(""), blob + "\r\n" + rest);
            && rest' == rest
            && (forall s :: e.reply == AuthOk235(s)
                       <==> exists username, password :: env.plain(blob) == Some((username, password))
                                                         && env.authenticate(|h|, username, password) == Some(s))
  {
    NextLineReads(blob, rest);
    if env.plain(blob).Some? {
      var (username, password) := env.plain(blob).value;
      assert env.plain(blob) == Some((username, password));
    }
  }

  /** AUTH LOGIN reads the user name, then the password, each on its line. */
  lemma {:induction false} AuthLoginPrompted(env: Environment, h: seq<Exchange>, first: string, second: string,
                                             rest: string)
    requires Greeted(h) && SessionOf(h).None?
    requires Sendable(first) && Sendable(second) && Strip(first) == first && Strip(second) == second
    requires env.text(first).Some? && env.text(second).Some?
    ensures var (e, rest') := Respond(env, h, AuthLogin, first + "\r\n" + (second + "\r\n" + rest));
            && rest' == rest
            && (forall s :: e.reply == AuthOk235(s)
                       <==> env.authenticate(|h|, env.text(first).value, env.text(second).value) == Some(s))
  {
    NextLineReads(first, second + "\r\n" + rest);
    NextLineReads(second, rest);
  }

  // ---------------------------------------------------------------- deliveries and what the client sent

  /** What each reply says about its command. */
  ghost predicate Fits(e: Exchange)
  {
    && (e.reply.MailOk250? ==> e.command == Mail(e.reply.sender))
    && (e.reply.RcptOk250? ==> e.command == Rcpt(e.reply.recipient))
    && (e.delivery.Some? ==> e.command == Data)
    && (e.reply.HelloOk250? <==> e.command == Ehlo || e.command == Helo)
    && (e.reply.AuthOk235? ==> e.command.AuthPlain? || e.command.AuthLogin?)
    && (e.reply.ResetOk250? ==> e.command == Rset)
  }

  lemma RepliesFit(env: Environment, h: seq<Exchange>, c: Command, stream: string)
    ensures Fits(Respond(env, h, c, stream).0)
  {
  }

  /** The addresses of the RCPT commands of a history, accepted or not. */
  function Named(h: seq<Exchange>): seq<string>
  {
    if h == [] then []
    else Named(h[..|h| - 1]) + if h[|h| - 1].command.Rcpt? then [h[|h| - 1].command.recipient] else []
  }

  /** While a transaction is open every RCPT is accepted, and no greeting, RSET or DATA with a
      recipient comes in between. */
  ghost predicate Continues(e: Exchange)
  {
    && (e.command.Rcpt? ==> e.reply == RcptOk250(e.command.recipient))
    && !e.reply.MailOk250? && !Ends(e.reply)
    && e.command !in {Ehlo, Helo, Rset}
  }

  lemma {:induction false} NamedAreAccepted(h: seq<Exchange>)
    requires forall i | 0 <= i < |h| :: Fits(h[i]) && Continues(h[i])
    ensures AcceptedRecipients(h) == Named(h)
  {
    if h != [] {
      NamedAreAccepted(h[..|h| - 1]);
    }
  }

  lemma OpenContinues(env: Environment, h: seq<Exchange>, m: nat, j: nat)
    requires Legitimate(env, h) && OpenSince(h, m) && m < j < |h| && SessionOf(h[..m]).Some?
    ensures Fits(h[j]) && Continues(h[j])
  {
    assert Answered(env, h, j);
    var stream :| h[j] == Respond(env, h[..j], h[j].command, stream).0;
    RepliesFit(env, h[..j], h[j].command, stream);
    assert OpenSince(h[..j], m);
    OpenEnvelope(h[..j], m);
    assert h[..j][..m] == h[..m];
    SessionOfPrefix(h[..j], m);
  }

  /** The delivery of exchange i goes from the address its MAIL command named to precisely the
      addresses of the RCPT commands sent since, in order. */
  ghost predicate AsNamed(h: seq<Exchange>, i: nat, m: nat)
    requires i < |h| && h[i].delivery.Some?
  {
    var d := h[i].delivery.value;
    && m < i
    && h[m].command == Mail(d.sender) && h[m].reply == MailOk250(d.sender)
    && d.recipients == Named(h[m + 1..i]) != []
    && h[i].command == Data
    && forall j | m < j < i :: Continues(h[j])
  }

  lemma {:induction false} DeliveryAsNamed(env: Environment, stream: string)
    ensures var h := Converse(env, [], stream);
            forall i | 0 <= i < |h| && h[i].delivery.Some? :: exists m: nat :: AsNamed(h, i, m)
  {
    var h := Converse(env, [], stream);
    ConversationsAreLegitimate(env, [], stream);
    forall i | 0 <= i < |h| && h[i].delivery.Some?
      ensures exists m: nat :: AsNamed(h, i, m)
    {
      var m, k := DeliveryJustified(env, h, i);
      LegitimateNamed(env, h, i, m, k);
    }
  }

  lemma LegitimateNamed(env: Environment, h: seq<Exchange>, i: nat, m: nat, k: nat)
    requires Legitimate(env, h) && i < |h| && h[i].delivery.Some? && Justified(h, i, m, k)
    ensures AsNamed(h, i, m)
  {
    LegitimatePrefix(env, h, i);
    AnsweredFits(env, h, m);
    AnsweredFits(env, h, i);
    assert h[..m][k].reply.AuthOk235?;
    SessionMeaning(h[..m]);
    assert h[..i][..m] == h[..m];
    forall j | m < j < i
      ensures Fits(h[j]) && Continues(h[j])
    {
      OpenContinues(env, h[..i], m, j);
    }
    NamedAreAccepted(h[m + 1..i]);
  }

  lemma AnsweredFits(env: Environment, h: seq<Exchange>, i: nat)
    requires Legitimate(env, h) && i < |h|
    ensures Fits(h[i])
  {
    assert Answered(env, h, i);
    var stream :| h[i] == Respond(env, h[..i], h[i].command, stream).0;
    RepliesFit(env, h[..i], h[i].command, stream);
  }

  lemma LegitimatePrefix(env: Environment, h: seq<Exchange>, n: nat)
    requires n <= |h| && Legitimate(env, h)
    ensures Legitimate(env, h[..n])
  {
    forall i | 0 <= i < n
      ensures Answered(env, h[..n], i)
    {
      assert Answered(env, h, i);
      var s :| h[i] == Respond(env, h[..i], h[i].command, s).0;
      assert h[..n][..i] == h[..i];
      assert h[..n][i] == Respond(env, h[..n][..i], h[..n][i].command, s).0;
    }
  }

  // ---------------------------------------------------------------- the octets of a message

  lemma {:induction false} CollectSuffix(stream: string, budget: int) returns (before: string)
    ensures stream == before + Collect(stream, budget).1
    decreases |stream|
  {
    var line := Line(stream);
    if line == "" {
      before := stream;
    } else if line == TERMINATOR || |UnstuffLine(line)| > budget {
      before := line;
    } else {
      var b := CollectSuffix(Rest(stream), budget - |UnstuffLine(line)|);
      before := line + b;
      assert line + (b + Collect(stream, budget).1) == line + b + Collect(stream, budget).1;
    }
  }

  lemma {:induction false} RespondSuffix(env: Environment, h: seq<Exchange>, c: Command, stream: string)
      returns (before: string)
    ensures stream == before + Respond(env, h, c, stream).1
  {
    if c == Data && SessionOf(h).Some? && Sender(h).Some? && Recipients(h) != [] {
      before := CollectSuffix(stream, env.maxMessageBytes);
    } else if (c.AuthPlain? || c.AuthLogin?) && Greeted(h) && SessionOf(h).None? {
      before := AuthSuffix(env, h, c, stream);
    } else {
      before := "";
    }
  }

  lemma AuthSuffix(env: Environment, h: seq<Exchange>, c: Command, stream: string) returns (before: string)
    requires (c.AuthPlain? || c.AuthLogin?) && Greeted(h) && SessionOf(h).None?
    ensures stream == before + Respond(env, h, c, stream).1
  {
    var first, rest := Line(stream), Rest(stream);
    var second, rest' := Line(rest), Rest(rest);
    assert stream == first + rest && stream == (first + second) + rest';
    var left := Respond(env, h, c, stream).1;
    assert left == stream || left == rest || left == rest';
    before := if left == stream then "" else if left == rest then first else first + second;
  }

  /** Where in the stream the message of a delivery stands: a line with the DATA command, then
      the dot-stuffed message and its terminator. */
  ghost predicate Sent(env: Environment, stream: string, message: string, before: string, line: string, rest: string)
  {
    && stream == before + (line + rest)
    && Line(line + rest) == line && ParseCommand(StripLineEnd(line)) == Data
    && Terminated(rest) && message == Unstuff(Body(rest)) && |message| <= env.maxMessageBytes
  }

  lemma SentLater(env: Environment, stream: string, message: string, skipped: string, later: string,
                  before: string, line: string, rest: string)
    ensures stream == skipped + later && Sent(env, later, message, before, line, rest) ==>
              Sent(env, stream, message, skipped + before, line, rest)
  {
    assert skipped + (before + (line + rest)) == (skipped + before) + (line + rest);
  }

  lemma {:induction false} ConverseGrows(env: Environment, h: seq<Exchange>, stream: string)
    ensures h <= Converse(env, h, stream)
    decreases |stream|
  {
    if NextLine(stream).0.Some? {
      var c := ParseCommand(NextLine(stream).0.value);
      ConverseStep(env, h, stream);
      var (e, rest) := Respond(env, h, c, NextLine(stream).1);
      ConverseGrows(env, h + [e], rest);
    }
  }

  /** The message of every delivery is what followed the line of its DATA command in the stream,
      up to its terminator, with the dot-stuffing undone, and within the limit. */
  lemma {:induction false} DeliveredIsSent(env: Environment, h: seq<Exchange>, stream: string, i: nat)
    returns (before: string, line: string, rest: string)
    ensures |h| <= i < |Converse(env, h, stream)| && Converse(env, h, stream)[i].delivery.Some? ==>
              Sent(env, stream, Converse(env, h, stream)[i].delivery.value.message, before, line, rest)
    decreases |stream|
  {
    before, line, rest := "", "", "";
    var (text, more) := NextLine(stream);
    if text.None? || !(|h| <= i < |Converse(env, h, stream)|) || Converse(env, h, stream)[i].delivery.None? {
      return;
    }
    var c := ParseCommand(text.value);
    var (e, left) := Respond(env, h, c, more);
    ConverseStep(env, h, stream);
    ConverseGrows(env, h + [e], left);
    if i == |h| {
      assert Converse(env, h, stream)[i] == e;
      before, line, rest := "", Line(stream), more;
      RepliesFit(env, h, c, more);
      DataSends(env, h, more);
      assert "" + (line + rest) == line + rest == stream;
    } else {
      var skipped := CommandSuffix(env, h, stream);
      var b;
      b, line, rest := DeliveredIsSent(env, h + [e], left, i);
      SentLater(env, stream, Converse(env, h, stream)[i].delivery.value.message, skipped, left, b, line, rest);
      before := skipped + b;
    }
  }

  lemma CommandSuffix(env: Environment, h: seq<Exchange>, stream: string) returns (skipped: string)
    requires NextLine(stream).0.Some?
    ensures stream == skipped + Respond(env, h, ParseCommand(NextLine(stream).0.value), NextLine(stream).1).1
  {
    var more := NextLine(stream).1;
    var s := RespondSuffix(env, h, ParseCommand(NextLine(stream).0.value), more);
    skipped := Line(stream) + s;
  }

  lemma DataSends(env: Environment, h: seq<Exchange>, stream: string)
    ensures var (e, rest) := Respond(env, h, Data, stream);
            e.delivery.Some? ==>
              Terminated(stream) && e.delivery.value.message == Unstuff(Body(stream))
              && |e.delivery.value.message| <= env.maxMessageBytes
  {
    var e := Respond(env, h, Data, stream).0;
    if e.delivery.Some? {
      DataCollects(env, h, stream);
      CollectMeaning(stream, env.maxMessageBytes);
    }
  }

  lemma DataCollects(env: Environment, h: seq<Exchange>, stream: string)
    requires Respond(env, h, Data, stream).0.delivery.Some?
    ensures Collect(stream, env.maxMessageBytes).0 == Some(Respond(env, h, Data, stream).0.delivery.value.message)
  {
  }

  // ---------------------------------------------------------------- a whole submission

  /** DATA with a transaction that has recipients, followed by a stuffed message within the limit:
      exactly that message is delivered, and the reply tells what became of it. */
  lemma {:induction false} DataDelivers(env: Environment, h: seq<Exchange>, message: string, rest: string)
    requires SessionOf(h).Some? && Sender(h).Some? && Recipients(h) != []
    requires MadeOfLines(message) && |message| <= env.maxMessageBytes
    ensures var d := Delivery(SessionOf(h).value, Sender(h).value, Recipients(h), message);
            var (e, rest') := Respond(env, h, Data, Stuff(message) + ".\r\n" + rest);
            && rest' == rest && e.command == Data && e.delivery == Some(d)
            && (e.reply == Delivered250 <==> env.deliver(|h|, d) == Accepted)
            && (e.reply == DeliveryFailed550 <==> env.deliver(|h|, d) == Failed)
            && (e.reply == DeliveryError451 <==> env.deliver(|h|, d) == Raised)
            && Sender(h + [e]) == None
  {
    DataRoundTrip(message, rest, env.maxMessageBytes);
    AppendExchange(h, Respond(env, h, Data, Stuff(message) + ".\r\n" + rest).0);
  }

  /** DATA without a recipient reads nothing; an oversize message is refused and ends the transaction. */
  lemma {:induction false} DataRefused(env: Environment, h: seq<Exchange>, stream: string)
    ensures var (e, rest) := Respond(env, h, Data, stream);
            && (e.reply == AuthRequired530 <==> SessionOf(h).None?)
            && (e.reply == RcptFirst503 <==> SessionOf(h).Some? && (Sender(h).None? || Recipients(h) == []))
            && (e.reply == TooLargeOrLost552
                <==> && SessionOf(h).Some? && Sender(h).Some? && Recipients(h) != []
                     && !(Terminated(stream) && |Unstuff(Body(stream))| <= env.maxMessageBytes))
            && (e.reply in {AuthRequired530, RcptFirst503} ==> rest == stream)
            && (e.reply == TooLargeOrLost552 ==> Sender(h + [e]) == None)
            && (e.delivery.None? <==> e.reply in {AuthRequired530, RcptFirst503, TooLargeOrLost552})
  {
    var e := Respond(env, h, Data, stream).0;
    AppendExchange(h, e);
    if SessionOf(h).Some? && Sender(h).Some? && Recipients(h) != [] {
      DataCollected(env, h, stream);
      CollectMeaning(stream, env.maxMessageBytes);
    }
  }

  lemma DataCollected(env: Environment, h: seq<Exchange>, stream: string)
    requires SessionOf(h).Some? && Sender(h).Some? && Recipients(h) != []
    ensures var e, collected := Respond(env, h, Data, stream).0, Collect(stream, env.maxMessageBytes).0;
            && (collected.None? <==> e.reply == TooLargeOrLost552)
            && (collected.None? <==> e.delivery.None?)
            && e.reply !in {AuthRequired530, RcptFirst503}
  {
    DataResponded(env, h, stream);
    var collected := Collect(stream, env.maxMessageBytes).0;
    if collected.Some? {
      StatusReplies(env.deliver(|h|, Delivery(SessionOf(h).value, Sender(h).value, Recipients(h), collected.value)));
    }
  }

  lemma DataResponded(env: Environment, h: seq<Exchange>, stream: string)
    requires SessionOf(h).Some?
    ensures Respond(env, h, Data, stream) == RespondData(env, h, SessionOf(h).value, stream)
  {
  }

  lemma StatusReplies(status: DeliveryStatus)
    ensures StatusReply(status) in {Delivered250, DeliveryFailed550, DeliveryError451}
  {
  }

  /** An address a client can name between angle brackets. */
  predicate Nameable(address: string)
  {
    && '<' !in address && '>' !in address && '\n' !in address && '\r' !in address
    && Strip(address) == address && |address| < 8000
  }

  function EnvelopeText(verb: string, keyword: string, address: string): string
  {
    verb + [' '] + (keyword + "<" + address + ">")
  }

  function MailLine(address: string): string { EnvelopeText("MAIL", "FROM:", address) }

  function RcptLine(address: string): string { EnvelopeText("RCPT", "TO:", address) }

  predicate Keyword(s: string)
  {
    && 0 < |s| < 10 && !IsSpace(s[0])
    && '<' !in s && '>' !in s && '\n' !in s && '\r' !in s && ' ' !in s
  }

  lemma EnvelopeTextParses(verb: string, keyword: string, address: string)
    requires Keyword(verb) && Strip(Upper(verb)) == Upper(verb) && Keyword(keyword) && Nameable(address)
    ensures Sendable(EnvelopeText(verb, keyword, address))
    ensures Upper(verb) == "MAIL" ==> ParseCommand(EnvelopeText(verb, keyword, address)) == Mail(address)
    ensures Upper(verb) == "RCPT" ==> ParseCommand(EnvelopeText(verb, keyword, address)) == Rcpt(address)
  {
    var arg := keyword + "<" + address + ">";
    assert arg[0] == keyword[0] && arg[|arg| - 1] == '>';
    StripKeeps(arg);
    EnvelopeLine(verb, keyword, address);
  }

  lemma MailLineParses(address: string)
    requires Nameable(address)
    ensures ParseCommand(MailLine(address)) == Mail(address) && Sendable(MailLine(address))
  {
    UpperVerb("MAIL");
    EnvelopeTextParses("MAIL", "FROM:", address);
  }

  lemma RcptLineParses(address: string)
    requires Nameable(address)
    ensures ParseCommand(RcptLine(address)) == Rcpt(address) && Sendable(RcptLine(address))
  {
    UpperVerb("RCPT");
    EnvelopeTextParses("RCPT", "TO:", address);
  }

  lemma DataLineParses()
    ensures ParseCommand("DATA") == Data && Sendable("DATA")
  {
    UpperVerb("DATA");
    CommandLine("DATA", "");
    Verbs("");
  }

  lemma UpperVerb(verb: string)
    requires verb != "" && forall i | 0 <= i < |verb| :: 'A' <= verb[i] <= 'Z'
    ensures Upper(verb) == verb && Strip(Upper(verb)) == Upper(verb)
  {
    assert Upper(verb) == verb;
    StripKeeps(verb);
  }

  /** One command line of a conversation. */
  lemma {:induction false} ConverseLine(env: Environment, h: seq<Exchange>, line: string, rest: string)
    requires Sendable(line) && ParseCommand(line) != Quit
    ensures var (e, left) := Respond(env, h, ParseCommand(line), rest);
            Converse(env, h, line + "\r\n" + rest) == Converse(env, h + [e], left)
  {
    NextLineReads(line, rest);
    ConverseStep(env, h, line + "\r\n" + rest);
  }

  function RcptLines(addresses: seq<string>): string
  {
    if addresses == [] then "" else RcptLine(addresses[0]) + "\r\n" + RcptLines(addresses[1..])
  }

  function RcptExchanges(addresses: seq<string>): seq<Exchange>
  {
    seq(|addresses|, i requires 0 <= i < |addresses| => Exchange(Rcpt(addresses[i]), RcptOk250(addresses[i]), None))
  }

  lemma RcptLinesFirst(addresses: seq<string>, rest: string)
    requires addresses != []
    ensures RcptLines(addresses) + rest == RcptLine(addresses[0]) + "\r\n" + (RcptLines(addresses[1..]) + rest)
  {
  }

  lemma RecipientNamed(env: Environment, h: seq<Exchange>, a: string, rest: string)
    requires SessionOf(h).Some? && Sender(h).Some? && Nameable(a)
    ensures var h' := h + [Exchange(Rcpt(a), RcptOk250(a), None)];
            Converse(env, h, RcptLine(a) + "\r\n" + rest) == Converse(env, h', rest) && Adds(h, h', [a])
  {
    RcptLineParses(a);
    ConverseLine(env, h, RcptLine(a), rest);
    EnvelopeAccepted(env, h, a, rest);
    AppendExchange(h, Exchange(Rcpt(a), RcptOk250(a), None));
  }

  /** From h to h' only these recipients were added to the open transaction. */
  ghost predicate Adds(h: seq<Exchange>, h': seq<Exchange>, addresses: seq<string>)
  {
    SessionOf(h') == SessionOf(h) && Sender(h') == Sender(h) && Recipients(h') == Recipients(h) + addresses
  }

  lemma AddsMore(h: seq<Exchange>, h1: seq<Exchange>, h2: seq<Exchange>, a: string, more: seq<string>)
    requires Adds(h, h1, [a]) && Adds(h1, h2, more)
    ensures Adds(h, h2, [a] + more)
  {
    assert Recipients(h) + [a] + more == Recipients(h) + ([a] + more);
  }

  lemma RcptExchangesFirst(h: seq<Exchange>, a: string, more: seq<string>)
    ensures h + RcptExchanges([a] + more) == h + [Exchange(Rcpt(a), RcptOk250(a), None)] + RcptExchanges(more)
  {
  }

  lemma {:induction false} RecipientsNamed(env: Environment, h: seq<Exchange>, addresses: seq<string>, rest: string)
    requires SessionOf(h).Some? && Sender(h).Some? && forall a | a in addresses :: Nameable(a)
    ensures Converse(env, h, RcptLines(addresses) + rest) == Converse(env, h + RcptExchanges(addresses), rest)
    ensures Adds(h, h + RcptExchanges(addresses), addresses)
    decreases |addresses|
  {
    if addresses == [] {
      assert RcptLines(addresses) + rest == rest && h + RcptExchanges(addresses) == h;
      assert Recipients(h) + addresses == Recipients(h);
    } else {
      var a, more := addresses[0], addresses[1..];
      var h1 := h + [Exchange(Rcpt(a), RcptOk250(a), None)];
      assert addresses == [a] + more;
      RcptLinesFirst(addresses, rest);
      RecipientNamed(env, h, a, RcptLines(more) + rest);
      RecipientsNamed(env, h1, more, rest);
      RcptExchangesFirst(h, a, more);
      AddsMore(h, h1, h1 + RcptExchanges(more), a, more);
    }
  }

  /** Everything a logged-in client sends to submit a message. */
  function Submission(sender: string, recipients: seq<string>, message: string): string
  {
    MailLine(sender) + "\r\n" + (RcptLines(recipients) + ("DATA" + "\r\n" + (Stuff(message) + ".\r\n")))
  }

  /** End to end: a logged-in client with no transaction open that names any sender and any
      recipients, and sends any message within the limit, has exactly that message delivered
      from exactly that sender to exactly those recipients, and the conversation goes on with
      whatever it sends next. */
  lemma {:induction false} SubmissionDelivers(env: Environment, h: seq<Exchange>, sender: string,
                                              recipients: seq<string>,
                                              message: string, rest: string) returns (e: Exchange)
    requires SessionOf(h).Some? && Sender(h).None?
    requires Nameable(sender) && recipients != [] && forall a | a in recipients :: Nameable(a)
    requires MadeOfLines(message) && |message| <= env.maxMessageBytes
    ensures e.delivery == Some(Delivery(SessionOf(h).value, sender, recipients, message))
    ensures Converse(env, h, Submission(sender, recipients, message) + rest)
         == Converse(env, h + [Exchange(Mail(sender), MailOk250(sender), None)] + RcptExchanges(recipients) + [e], rest)
  {
    var data := Stuff(message) + ".\r\n" + rest;
    var afterMail := RcptLines(recipients) + ("DATA" + "\r\n" + data);
    SubmissionParts(sender, recipients, message, rest);
    MailLineParses(sender);
    ConverseLine(env, h, MailLine(sender), afterMail);
    EnvelopeAccepted(env, h, sender, afterMail);
    var mail := Exchange(Mail(sender), MailOk250(sender), None);
    AppendExchange(h, mail);
    var h1 := h + [mail];
    RecipientsNamed(env, h1, recipients, "DATA" + "\r\n" + data);
    assert [] + recipients == recipients;
    var h2 := h1 + RcptExchanges(recipients);
    DataLineParses();
    ConverseLine(env, h2, "DATA", data);
    DataDelivers(env, h2, message, rest);
    e := Respond(env, h2, Data, data).0;
  }

  lemma SubmissionParts(sender: string, recipients: seq<string>, message: string, rest: string)
    ensures Submission(sender, recipients, message) + rest
         == MailLine(sender) + "\r\n" + (RcptLines(recipients) + ("DATA" + "\r\n" + (Stuff(message) + ".\r\n" + rest)))
  {
    Regroup3(MailLine(sender) + "\r\n", RcptLines(recipients), "DATA" + "\r\n", Stuff(message) + ".\r\n", rest);
  }

  lemma Regroup3(a: string, b: string, c: string, d: string, e: string)
    ensures a + (b + (c + d)) + e == a + (b + (c + (d + e)))
  {
  }

  // ---------------------------------------------------------------- refused logins

  /** AUTH before a greeting, after a success, or with another mechanism is refused without
      reading anything. */
  lemma AuthRefused(env: Environment, h: seq<Exchange>, c: Command, stream: string)
    requires c.AuthPlain? || c.AuthLogin? || c.AuthOther?
    ensures !Greeted(h) ==> Respond(env, h, c, stream) == (Exchange(c, HelloFirst503, None), stream)
    ensures Greeted(h) && SessionOf(h).Some? ==>
              Respond(env, h, c, stream) == (Exchange(c, AlreadyAuthenticated503, None), stream)
    ensures Greeted(h) && SessionOf(h).None? && c == AuthOther ==>
              Respond(env, h, c, stream) == (Exchange(c, BadMechanism504, None), stream)
  {
  }

  /** A user name that does not decode fails AUTH LOGIN before the password is asked for. */
  lemma {:induction false} UnreadableUsername(env: Environment, h: seq<Exchange>, first: string, rest: string)
    requires Greeted(h) && SessionOf(h).None? && Sendable(first) && Strip(first) == first && env.text(first).None?
    ensures Respond(env, h, AuthLogin, first + "\r\n" + rest) == (Exchange(AuthLogin, AuthFailed535, None), rest)
  {
    NextLineReads(first, rest);
  }

  /** A client that hangs up at the prompt fails. */
  lemma NoCredentials(env: Environment, h: seq<Exchange>)
    requires Greeted(h) && SessionOf(h).None?
    ensures Respond(env, h, AuthPlain(""), "").0.reply == AuthFailed535
    ensures Respond(env, h, AuthLogin, "").0.reply == AuthFailed535
  {
  }

  /** QUIT is answered and ends the conversation, whatever follows. */
  lemma {:induction false} QuitEnds(env: Environment, h: seq<Exchange>, rest: string)
    ensures Converse(env, h, "QUIT" + "\r\n" + rest) == h + [Exchange(Quit, Bye221, None)]
  {
    QuitLineParses();
    NextLineReads("QUIT", rest);
    ConverseStep(env, h, "QUIT" + "\r\n" + rest);
  }

  lemma QuitLineParses()
    ensures ParseCommand("QUIT") == Quit && Sendable("QUIT")
  {
    UpperVerb("QUIT");
    CommandLine("QUIT", "");
    Verbs("");
  }
}
