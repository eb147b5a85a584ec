/** The SMTP submission connection (SmtpConnection in app/proxies/smtp/server.py).

    The connection keeps a handful of mutable fields. The reference below keeps nothing but
    the history of exchanges and recomputes from it who is logged in and which envelope is
    open. The class is proved to give the reference's replies and deliveries for every
    client stream. */
module SmtpConnection {
  import opened Options
  import opened Text
  import opened LineStream
  import opened SmtpData

  datatype Session = Session(profileId: int, ownerUserId: int, username: string, email: string)

  datatype Delivery = Delivery(session: Session, sender: string, recipients: seq<string>, message: string)

  datatype DeliveryStatus = Accepted | Failed | Raised

  /** What the connection cannot decide itself: base64 decoding, the credential check and the
      delivery service. The number is the position in the conversation, so that equal
      requests may be answered differently over time. */
  datatype Environment = Environment(
    plain: string -> Option<(string, string)>,
    text: string -> Option<string>,
    authenticate: (nat, string, string) -> Option<Session>,
    deliver: (nat, Delivery) -> DeliveryStatus,
    maxMessageBytes: nat)

  datatype Command =
    | Quit | Noop | Ehlo | Helo
    | AuthPlain(initial: string) | AuthLogin | AuthOther
    | Rset | Mail(sender: string) | Rcpt(recipient: string) | Data | Unknown

  /** The final reply to a command; prompts (334, 354) are not replies. */
  datatype Reply =
    | Bye221 | NoopOk250 | HelloOk250
    | HelloFirst503 | AlreadyAuthenticated503 | BadMechanism504
    | AuthOk235(session: Session) | AuthFailed535 | AuthRequired530
    | ResetOk250 | MailOk250(sender: string) | BadSequence503
    | RcptOk250(recipient: string) | MailFirst503 | RcptFirst503
    | TooLargeOrLost552 | Delivered250 | DeliveryFailed550 | DeliveryError451
    | NotImplemented502

  /** A command's final reply and, for DATA handed to the delivery service, the delivery. */
  datatype Exchange = Exchange(command: Command, reply: Reply, delivery: Option<Delivery>)

  // ---------------------------------------------------------------- parsing

  /** The address of 'FROM:<addr>' or 'TO:<addr>'. */
  function ExtractAddress(arg: string): string
  {
    var open, close, colon := IndexOf(arg, '<'), IndexOf(arg, '>'), IndexOf(arg, ':');
    if open < |arg| && close < |arg| && close > open then Strip(arg[open + 1..close])
    else if colon < |arg| then Strip(arg[colon + 1..])
    else Strip(arg)
  }

  function ParseCommand(line: string): Command
  {
    var i := IndexOf(line, ' ');
    CommandOf(Strip(Upper(line[..i])), if i < |line| then Strip(line[i + 1..]) else "")
  }

  function CommandOf(cmd: string, args: string): Command
  {
    if cmd == "QUIT" then Quit
    else if cmd == "NOOP" then Noop
    else if cmd == "EHLO" then Ehlo
    else if cmd == "HELO" then Helo
    else if cmd == "AUTH" then
      var j := IndexOf(args, ' ');
      var mechanism := Upper(args[..j]);
      if mechanism == "PLAIN" then AuthPlain(if j < |args| then args[j + 1..] else "")
      else if mechanism == "LOGIN" then AuthLogin
      else AuthOther
    else if cmd == "RSET" then Rset
    else if cmd == "MAIL" then Mail(ExtractAddress(args))
    else if cmd == "RCPT" then Rcpt(ExtractAddress(args))
    else if cmd == "DATA" then Data
    else Unknown
  }

  /** An address in angle brackets is read back, whatever stands before it. */
  lemma BracketedAddress(before: string, address: string)
    requires '<' !in before && '>' !in before && '>' !in address
    ensures ExtractAddress(before + "<" + address + ">") == Strip(address)
  {
    var arg := before + ['<'] + address + ['>'];
    assert arg == before + "<" + address + ">";
    assert arg == before + ['<'] + (address + ['>']);
    IndexOfAppend(before, '<', address + ['>']);
    var front := before + ['<'] + address;
    assert arg == front + ['>'] + [];
    IndexOfAppend(front, '>', []);
    assert arg[|before| + 1..|front|] == address;
  }

  /** A verb and its argument, or a verb alone, are read back from their line, for every verb in
      any case and however the argument is padded. */
  lemma {:induction false} CommandLine(verb: string, arg: string)
    requires ' ' !in verb && Strip(Upper(verb)) == Upper(verb)
    ensures ParseCommand(verb + [' '] + arg) == CommandOf(Upper(verb), Strip(arg))
    ensures ParseCommand(verb) == CommandOf(Upper(verb), "")
  {
    var line := verb + [' '] + arg;
    IndexOfAppend(verb, ' ', arg);
    assert line[..|verb|] == verb && line[|verb| + 1..] == arg;
    assert IndexOf(verb, ' ') == |verb| && verb[..|verb|] == verb;
  }

  /** A MAIL or RCPT line, in any case of the verb, names its bracketed address. */
  lemma {:induction false} EnvelopeLine(verb: string, before: string, address: string)
    requires ' ' !in verb && Strip(Upper(verb)) == Upper(verb)
    requires '<' !in before && '>' !in before && '>' !in address
    requires var arg := before + "<" + address + ">"; Strip(arg) == arg
    ensures var line := verb + [' '] + (before + "<" + address + ">");
            && (Upper(verb) == "MAIL" ==> ParseCommand(line) == Mail(Strip(address)))
            && (Upper(verb) == "RCPT" ==> ParseCommand(line) == Rcpt(Strip(address)))
  {
    var arg := before + "<" + address + ">";
    CommandLine(verb, arg);
    BracketedAddress(before, address);
    EnvelopeCommand(arg);
  }

  lemma EnvelopeCommand(arg: string)
    ensures CommandOf("MAIL", arg) == Mail(ExtractAddress(arg)) && CommandOf("RCPT", arg) == Rcpt(ExtractAddress(arg))
  {
  }

  // ---------------------------------------------------------------- meaning of a history

  /** Whether EHLO or HELO was accepted. */
  predicate Greeted(h: seq<Exchange>)
  {
    exists i | 0 <= i < |h| :: h[i].reply.HelloOk250?
  }

  /** The session of the first successful AUTH. */
  function SessionOf(h: seq<Exchange>): Option<Session>
  {
    if h == [] then None
    else if h[0].reply.AuthOk235? then Some(h[0].reply.session)
    else SessionOf(h[1..])
  }

  /** Replies that end a mail transaction. */
  predicate Ends(r: Reply)
  {
    r.HelloOk250? || r.ResetOk250? || r.TooLargeOrLost552? || r.Delivered250? || r.DeliveryFailed550?
        || r.DeliveryError451?
  }

  /** The sender of the open transaction: of the last accepted MAIL, unless it was ended. */
  function Sender(h: seq<Exchange>): Option<string>
  {
    if h == [] then None
    else
      var r := h[|h| - 1].reply;
      if r.MailOk250? then Some(r.sender)
      else if Ends(r) then None
      else Sender(h[..|h| - 1])
  }

  /** The recipients accepted in the open transaction, in order. */
  function Recipients(h: seq<Exchange>): seq<string>
  {
    if h == [] then []
    else
      var r := h[|h| - 1].reply;
      if r.MailOk250? || Ends(r) then []
      else Recipients(h[..|h| - 1]) + if r.RcptOk250? then [r.recipient] else []
  }

  // ---------------------------------------------------------------- the reference server

  function Credentials(env: Environment, now: nat, decoded: Option<(string, string)>): Option<Session>
  {
    if decoded.None? then None else env.authenticate(now, decoded.value.0, decoded.value.1)
  }

  /** AUTH PLAIN with or without an initial response, and what is left of the stream. */
  function PlainOutcome(env: Environment, now: nat, initial: string, stream: string): (Option<Session>, string)
  {
    if initial != "" then (Credentials(env, now, env.plain(initial)), stream)
    else
      var (line, rest) := NextLine(stream);
      (if line.None? then None else Credentials(env, now, env.plain(Strip(line.value))), rest)
  }

  /** AUTH LOGIN: two prompts; the second one only after a readable user name. */
  function LoginOutcome(env: Environment, now: nat, stream: string): (Option<Session>, string)
  {
    var (line, rest) := NextLine(stream);
    if line.None? then (None, rest)
    else
      var username := env.text(Strip(line.value));
      if username.None? then (None, rest)
      else
        var (line', rest') := NextLine(rest);
        if line'.None? then (None, rest')
        else
          var password := env.text(Strip(line'.value));
          (if password.None? then None else env.authenticate(now, username.value, password.value), rest')
  }

  function AuthReply(session: Option<Session>): Reply
  {
    if session.Some? then AuthOk235(session.value) else AuthFailed535
  }

  function StatusReply(status: DeliveryStatus): Reply
  {
    match status
    case Accepted => Delivered250
    case Failed => DeliveryFailed550
    case Raised => DeliveryError451
  }

  /** AUTH after a history: refused before a greeting and after a success. */
  function RespondAuth(env: Environment, h: seq<Exchange>, c: Command, stream: string): (Reply, string)
  {
    if !Greeted(h) then (HelloFirst503, stream)
    else if SessionOf(h).Some? then (AlreadyAuthenticated503, stream)
    else match c
      case AuthPlain(initial) =>
        var (s, rest) := PlainOutcome(env, |h|, initial, stream);
        (AuthReply(s), rest)
      case AuthLogin =>
        var (s, rest) := LoginOutcome(env, |h|, stream);
        (AuthReply(s), rest)
      case _ => (BadMechanism504, stream)
  }

  /** DATA of an authenticated client: needs a recipient; what is collected is delivered with
      the open transaction's sender and recipients. */
  function RespondData(env: Environment, h: seq<Exchange>, session: Session, stream: string): (Exchange, string)
  {
    if Sender(h).None? || Recipients(h) == [] then (Exchange(Data, RcptFirst503, None), stream)
    else
      var (message, rest) := Collect(stream, env.maxMessageBytes);
      if message.None? then (Exchange(Data, TooLargeOrLost552, None), rest)
      else
        var d := Delivery(session, Sender(h).value, Recipients(h), message.value);
        (Exchange(Data, StatusReply(env.deliver(|h|, d)), Some(d)), rest)
  }

  /** The reply to the commands that read nothing more from the stream. */
  function RespondPlainly(h: seq<Exchange>, c: Command): Reply
    requires !c.AuthPlain? && !c.AuthLogin? && !c.AuthOther?
  {
    if c == Quit then Bye221
    else if c == Noop then NoopOk250
    else if c == Ehlo || c == Helo then HelloOk250
    else if SessionOf(h).None? then AuthRequired530
    else if c == Rset then ResetOk250
    else if c.Mail? then (if Sender(h).Some? then BadSequence503 else MailOk250(c.sender))
    else if c.Rcpt? then (if Sender(h).None? then MailFirst503 else RcptOk250(c.recipient))
    else NotImplemented502
  }

  /** The exchange a command leads to after a history, and what is left of the stream. It
      depends on the history alone: a command that needs a session is refused unless some
      AUTH succeeded, MAIL needs that no transaction is open, RCPT that one is, DATA that it
      has a recipient. */
  function Respond(env: Environment, h: seq<Exchange>, c: Command, stream: string): (Exchange, string)
  {
    if c.AuthPlain? || c.AuthLogin? || c.AuthOther? then
      var (reply, rest) := RespondAuth(env, h, c, stream);
      (Exchange(c, reply, None), rest)
    else if c == Data && SessionOf(h).Some? then RespondData(env, h, SessionOf(h).value, stream)
    else (Exchange(c, RespondPlainly(h, c), None), stream)
  }

  lemma RespondConsumes(env: Environment, h: seq<Exchange>, c: Command, stream: string)
    ensures |Respond(env, h, c, stream).1| <= |stream|
  {
    CollectShrinks(stream, env.maxMessageBytes);
  }

  lemma CollectShrinks(stream: string, budget: int)
    ensures |Collect(stream, budget).1| <= |stream|
    decreases |stream|
  {
    var line := Line(stream);
    if line != "" && line != TERMINATOR && |UnstuffLine(line)| <= budget {
      CollectShrinks(Rest(stream), budget - |UnstuffLine(line)|);
    }
  }

  /** The whole conversation on a client stream, starting after a history. */
  function Converse(env: Environment, h: seq<Exchange>, stream: string): seq<Exchange>
    decreases |stream|
  {
    var (line, rest) := NextLine(stream);
    if line.None? then h
    else
      var c := ParseCommand(line.value);
      var (e, rest') := Respond(env, h, c, rest);
      if c == Quit then h + [e]
      else
        RespondConsumes(env, h, c, rest);
        Converse(env, h + [e], rest')
  }

  lemma ConverseStep(env: Environment, h: seq<Exchange>, stream: string)
    requires NextLine(stream).0.Some?
    ensures var (line, rest) := NextLine(stream);
            var c := ParseCommand(line.value);
            var (e, rest') := Respond(env, h, c, rest);
            && |rest'| < |stream|
            && Converse(env, h, stream) == if c == Quit then h + [e] else Converse(env, h + [e], rest')
  {
    var (line, rest) := NextLine(stream);
    RespondConsumes(env, h, ParseCommand(line.value), rest);
  }

  function Deliveries(h: seq<Exchange>): seq<Delivery>
  {
    if h == [] then []
    else
      var last := h[|h| - 1];
      Deliveries(h[..|h| - 1]) + if last.delivery.Some? then [last.delivery.value] else []
  }

  function Replies(h: seq<Exchange>): seq<Reply>
  {
    seq(|h|, i requires 0 <= i < |h| => h[i].reply)
  }

  // ---------------------------------------------------------------- the connection

  datatype State = GREETING | EHLO | AUTH | MAIL | RCPT

  class Connection {
    const env: Environment
    const reader: LineReader
    var state: State
    var session: Option<Session>
    var envelopeFrom: Option<string>
    var envelopeTo: seq<string>
    var sent: seq<Reply>
    var delivered: seq<Delivery>
    ghost var history: seq<Exchange>

    /** The fields say about the conversation what its history says. */
    ghost predicate Tracks(h: seq<Exchange>)
      reads this
    {
      && session == SessionOf(h)
      && (state == GREETING <==> !Greeted(h))
      && (session.None? <==> state in {GREETING, EHLO})
      && (state in {MAIL, RCPT} <==> Sender(h).Some?)
      && (state == RCPT <==> Recipients(h) != [])
      && (state in {MAIL, RCPT} ==> envelopeFrom == Sender(h) && envelopeTo == Recipients(h))
    }

    ghost predicate Valid()
      reads this
    {
      Tracks(history) && sent == Replies(history) && delivered == Deliveries(history)
    }

    constructor (env: Environment, stream: string)
      ensures Valid() && fresh(this) && fresh(reader)
      ensures this.env == env && reader.rest == stream && history == []
      ensures state == GREETING && session == None && envelopeFrom == None && envelopeTo == []
    {
      this.env := env;
      reader := new LineReader(stream);
      state, session := GREETING, None;
      envelopeFrom, envelopeTo := None, [];
      sent, delivered, history := [], [], [];
    }

    method ResetEnvelope()
      modifies `envelopeFrom, `envelopeTo, `state
      ensures envelopeFrom == None && envelopeTo == []
      ensures state == if session.Some? then AUTH else EHLO
    {
      envelopeFrom := None;
      envelopeTo := [];
      if session.Some? {
        state := AUTH;
      } else {
        state := EHLO;
      }
    }

    /** Tries the credentials of an AUTH command; a success sets the session. */
    method HandleAuthPlain(initial: string) returns (ok: bool)
      modifies `session, reader
      ensures var (s, rest) := PlainOutcome(env, |old(sent)|, initial, old(reader.rest));
              reader.rest == rest && ok == s.Some? && session == if ok then s else old(session)
    {
      var blob := initial;
      if initial == "" {
        var line := reader.ReadLine();
        if line.None? {
          return false;
        }
        blob := Strip(line.value);
      }
      var decoded := env.plain(blob);
      if decoded.None? {
        return false;
      }
      var s := env.authenticate(|sent|, decoded.value.0, decoded.value.1);
      if s.None? {
        return false;
      }
      session := s;
      ok := true;
    }

    method HandleAuthLogin() returns (ok: bool)
      modifies `session, reader
      ensures var (s, rest) := LoginOutcome(env, |old(sent)|, old(reader.rest));
              reader.rest == rest && ok == s.Some? && session == if ok then s else old(session)
    {
      var line := reader.ReadLine();
      if line.None? {
        return false;
      }
      var username := env.text(Strip(line.value));
      if username.None? {
        return false;
      }
      line := reader.ReadLine();
      if line.None? {
        return false;
      }
      var password := env.text(Strip(line.value));
      if password.None? {
        return false;
      }
      var s := env.authenticate(|sent|, username.value, password.value);
      if s.None? {
        return false;
      }
      session := s;
      ok := true;
    }

    method HandleHello(c: Command) returns (reply: Reply)
      requires Valid() && (c == Ehlo || c == Helo)
      modifies `state
      ensures Respond(env, history, c, reader.rest) == (Exchange(c, reply, None), reader.rest)
      ensures Tracks(history + [Exchange(c, reply, None)])
    {
      AppendExchange(history, Exchange(c, HelloOk250, None));
      if session.Some? {
        state := AUTH;
      } else {
        state := EHLO;
      }
      reply := HelloOk250;
    }

    /** AUTH: refused before EHLO and after a success. */
    method HandleAuth(c: Command) returns (reply: Reply)
      requires Valid() && (c.AuthPlain? || c.AuthLogin? || c.AuthOther?)
      modifies `session, `state, reader
      ensures Respond(env, history, c, old(reader.rest)) == (Exchange(c, reply, None), reader.rest)
      ensures Tracks(history + [Exchange(c, reply, None)])
    {
      if state == GREETING {
        reply := HelloFirst503;
      } else if session.Some? {
        reply := AlreadyAuthenticated503;
      } else if c == AuthOther {
        reply := BadMechanism504;
      } else {
        var ok: bool;
        if c.AuthPlain? {
          ok := HandleAuthPlain(c.initial);
        } else {
          ok := HandleAuthLogin();
        }
        if ok {
          state := AUTH;
          reply := AuthOk235(session.value);
        } else {
          reply := AuthFailed535;
        }
      }
      AppendExchange(history, Exchange(c, reply, None));
    }

    /** RSET, MAIL and RCPT of an authenticated client. */
    method HandleTransaction(c: Command) returns (reply: Reply)
      requires Valid() && session.Some? && (c == Rset || c.Mail? || c.Rcpt?)
      modifies `envelopeFrom, `envelopeTo, `state
      ensures Respond(env, history, c, reader.rest) == (Exchange(c, reply, None), reader.rest)
      ensures Tracks(history + [Exchange(c, reply, None)])
    {
      match c {
        case Rset =>
          ResetEnvelope();
          reply := ResetOk250;
        case Mail(sender) =>
          if state !in {AUTH, EHLO} {
            reply := BadSequence503;
          } else {
            envelopeFrom := Some(sender);
            envelopeTo := [];
            state := MAIL;
            reply := MailOk250(sender);
          }
        case Rcpt(recipient) =>
          if state !in {MAIL, RCPT} {
            reply := MailFirst503;
          } else {
            envelopeTo := envelopeTo + [recipient];
            state := RCPT;
            reply := RcptOk250(recipient);
          }
      }
      AppendExchange(history, Exchange(c, reply, None));
    }

    /** DATA: collects the message and hands it to the delivery service. */
    method HandleData() returns (reply: Reply, delivery: Option<Delivery>)
      requires Valid() && session.Some?
      modifies `envelopeFrom, `envelopeTo, `state, reader
      ensures Respond(env, history, Data, old(reader.rest)) == (Exchange(Data, reply, delivery), reader.rest)
      ensures Tracks(history + [Exchange(Data, reply, delivery)])
    {
      delivery := None;
      if state != RCPT {
        reply := RcptFirst503;
      } else {
        var raw := CollectData(reader, env.maxMessageBytes);
        if raw.None? {
          reply := TooLargeOrLost552;
        } else {
          assert envelopeFrom.Some?;  // the assertion of the original: the state machine guarantees a sender
          var d := Delivery(session.value, envelopeFrom.value, envelopeTo, raw.value);
          delivery := Some(d);
          var status := env.deliver(|sent|, d);
          match status {
            case Accepted => reply := Delivered250;
            case Failed => reply := DeliveryFailed550;
            case Raised => reply := DeliveryError451;
          }
        }
        ResetEnvelope();
      }
      AppendExchange(history, Exchange(Data, reply, delivery));
    }

    lemma NeutralTracks(e: Exchange)
      requires Valid() && Neutral(e.reply)
      ensures Tracks(history + [e])
    {
      NeutralReply(history, e);
    }

    /** Commands and refusals that leave the fields alone. */
    method HandlePlainly(c: Command) returns (reply: Reply)
      requires Valid() && PlainFor(c, session.Some?)
      ensures Respond(env, history, c, reader.rest) == (Exchange(c, reply, None), reader.rest)
      ensures Tracks(history + [Exchange(c, reply, None)])
    {
      if c == Quit {
        reply := Bye221;
      } else if c == Noop {
        reply := NoopOk250;
      } else if session.None? {
        reply := AuthRequired530;
      } else {
        reply := NotImplemented502;
      }
      NeutralTracks(Exchange(c, reply, None));
    }

    /** One pass of the command loop. */
    method Dispatch(c: Command)
      requires Valid()
      modifies this, reader
      ensures Valid()
      ensures var (e, rest) := Respond(env, old(history), c, old(reader.rest));
              history == old(history) + [e] && reader.rest == rest
    {
      var reply, delivery := NotImplemented502, None;
      if c == Quit || c == Noop {
        reply := HandlePlainly(c);
      } else if c == Ehlo || c == Helo {
        reply := HandleHello(c);
      } else if c.AuthPlain? || c.AuthLogin? || c.AuthOther? {
        reply := HandleAuth(c);
      } else if session.None? || c == Unknown {
        reply := HandlePlainly(c);
      } else if c == Data {
        reply, delivery := HandleData();
      } else {
        reply := HandleTransaction(c);
      }
      Send(c, reply, delivery);
    }

    /** Serves the client stream until QUIT, its end, or an overlong line. */
    method Handle()
      requires Valid()
      modifies this, reader
      ensures Valid()
      ensures history == Converse(env, old(history), old(reader.rest))
    {
      ghost var all := Converse(env, history, reader.rest);
      while true
        invariant Valid()
        invariant Converse(env, history, reader.rest) == all
        decreases |reader.rest|
      {
        ghost var stream := reader.rest;
        var line := reader.ReadLine();
        if line.None? {
          return;
        }
        var c := ParseCommand(line.value);
        ConverseStep(env, history, stream);
        Dispatch(c);
        if c == Quit {
          return;
        }
      }
    }

    /** Sends the final reply of a command. */
    method Send(ghost c: Command, reply: Reply, delivery: Option<Delivery>)
      requires Tracks(history + [Exchange(c, reply, delivery)])
      requires sent == Replies(history) && delivered == Deliveries(history)
      modifies `sent, `delivered, `history
      ensures Valid()
      ensures history == old(history) + [Exchange(c, reply, delivery)]
    {
      AppendOutput(history, Exchange(c, reply, delivery));
      sent := sent + [reply];
      if delivery.Some? {
        delivered := delivered + [delivery.value];
      }
      history := history + [Exchange(c, reply, delivery)];
    }
  }

  /** How one more exchange changes what a history means. */
  lemma AppendExchange(h: seq<Exchange>, e: Exchange)
    ensures var h' := h + [e];
            && (Greeted(h') <==> Greeted(h) || e.reply.HelloOk250?)
            && SessionOf(h') == (if SessionOf(h).Some? then SessionOf(h)
                                 else if e.reply.AuthOk235? then Some(e.reply.session) else None)
            && Sender(h') == (if e.reply.MailOk250? then Some(e.reply.sender)
                              else if Ends(e.reply) then None else Sender(h))
            && Recipients(h') == (if e.reply.MailOk250? || Ends(e.reply) then []
                                  else Recipients(h) + if e.reply.RcptOk250? then [e.reply.recipient] else [])
  {
    var h' := h + [e];
    assert h'[..|h|] == h;
    SessionAppend(h, e);
    if Greeted(h) {
      var i :| 0 <= i < |h| && h[i].reply.HelloOk250?;
      assert h'[i].reply.HelloOk250?;
    }
    if e.reply.HelloOk250? {
      assert h'[|h|].reply.HelloOk250?;
    }
  }

  /** Commands answered without touching the fields: QUIT, NOOP, unknown ones, and before a
      login everything but a greeting and AUTH. */
  predicate PlainFor(c: Command, authenticated: bool)
  {
    || c == Quit || c == Noop || c == Unknown
    || (!authenticated && (c == Rset || c.Mail? || c.Rcpt? || c == Data))
  }

  /** Replies that change nothing about the conversation's meaning. */
  predicate Neutral(r: Reply)
  {
    !r.HelloOk250? && !r.AuthOk235? && !r.MailOk250? && !r.RcptOk250? && !Ends(r)
  }

  lemma NeutralReply(h: seq<Exchange>, e: Exchange)
    requires Neutral(e.reply)
    ensures Greeted(h + [e]) == Greeted(h) && SessionOf(h + [e]) == SessionOf(h)
    ensures Sender(h + [e]) == Sender(h) && Recipients(h + [e]) == Recipients(h)
  {
    AppendExchange(h, e);
    assert Recipients(h) + [] == Recipients(h);
  }

  lemma AppendOutput(h: seq<Exchange>, e: Exchange)
    ensures Deliveries(h + [e]) == Deliveries(h) + (if e.delivery.Some? then [e.delivery.value] else [])
    ensures Replies(h + [e]) == Replies(h) + [e.reply]
  {
    assert (h + [e])[..|h|] == h;
  }

  lemma {:induction false} SessionAppend(h: seq<Exchange>, e: Exchange)
    ensures SessionOf(h + [e]) == if SessionOf(h).Some? then SessionOf(h)
                                  else if e.reply.AuthOk235? then Some(e.reply.session) else None
  {
    if h != [] {
      SessionAppend(h[1..], e);
      assert (h + [e])[1..] == h[1..] + [e];
    }
  }

  // ---------------------------------------------------------------- laws of conversations

  ghost predicate Answered(env: Environment, h: seq<Exchange>, i: nat)
    requires i < |h|
  {
    exists stream :: h[i] == Respond(env, h[..i], h[i].command, stream).0
  }

  /** Every exchange answers its command after the exchanges before it. */
  ghost predicate Legitimate(env: Environment, h: seq<Exchange>)
  {
    forall i | 0 <= i < |h| :: Answered(env, h, i)
  }

  lemma AppendAnswered(env: Environment, h: seq<Exchange>, c: Command, stream: string)
    requires Legitimate(env, h)
    ensures Legitimate(env, h + [Respond(env, h, c, stream).0])
  {
    var e := Respond(env, h, c, stream).0;
    var h' := h + [e];
    assert e.command == c;
    forall i | 0 <= i < |h'|
      ensures Answered(env, h', i)
    {
      if i < |h| {
        assert Answered(env, h, i);
        var s :| h[i] == Respond(env, h[..i], h[i].command, s).0;
        assert h'[..i] == h[..i];
        assert h'[i] == Respond(env, h'[..i], h'[i].command, s).0;
      } else {
        assert h'[..i] == h;
        assert h'[i] == Respond(env, h'[..i], h'[i].command, stream).0;
      }
    }
  }

  lemma {:induction false} ConversationsAreLegitimate(env: Environment, h: seq<Exchange>, stream: string)
    requires Legitimate(env, h)
    ensures Legitimate(env, Converse(env, h, stream))
    decreases |stream|
  {
    if NextLine(stream).0.Some? {
      var c, more := ParseCommand(NextLine(stream).0.value), NextLine(stream).1;
      ConverseStep(env, h, stream);
      AppendAnswered(env, h, c, more);
      var (e, rest) := Respond(env, h, c, more);
      ConversationsAreLegitimate(env, h + [e], rest);
    }
  }

  /** What an answer says about the history it follows. */
  lemma AnswerImplies(env: Environment, h: seq<Exchange>, i: nat)
    requires i < |h| && Answered(env, h, i)
    ensures h[i].reply.AuthOk235? ==> SessionOf(h[..i]).None?
    ensures h[i].reply.MailOk250? ==> SessionOf(h[..i]).Some?
    ensures h[i].delivery.Some? ==>
              var d := h[i].delivery.value;
              && SessionOf(h[..i]) == Some(d.session)
              && Sender(h[..i]) == Some(d.sender)
              && Recipients(h[..i]) == d.recipients != []
  {
  }

  function AcceptedRecipients(h: seq<Exchange>): seq<string>
  {
    if h == [] then []
    else AcceptedRecipients(h[..|h| - 1])
         + if h[|h| - 1].reply.RcptOk250? then [h[|h| - 1].reply.recipient] else []
  }

  /** Exchange m is the accepted MAIL of a transaction still open at the end of h. */
  predicate OpenSince(h: seq<Exchange>, m: nat)
  {
    && m < |h|
    && h[m].reply.MailOk250?
    && forall j | m < j < |h| :: !h[j].reply.MailOk250? && !Ends(h[j].reply)
  }

  lemma {:induction false} OpenEnvelope(h: seq<Exchange>, m: nat)
    requires OpenSince(h, m)
    ensures Sender(h) == Some(h[m].reply.sender) && Recipients(h) == AcceptedRecipients(h[m + 1..])
  {
    if m < |h| - 1 {
      var front := h[..|h| - 1];
      assert OpenSince(front, m);
      OpenEnvelope(front, m);
      var since := h[m + 1..];
      assert since[..|since| - 1] == front[m + 1..] && since[|since| - 1] == h[|h| - 1];
    }
  }

  lemma {:induction false} OpenTransactionFound(h: seq<Exchange>) returns (m: nat)
    requires Sender(h).Some?
    ensures OpenSince(h, m)
  {
    if h[|h| - 1].reply.MailOk250? {
      m := |h| - 1;
    } else {
      m := OpenTransactionFound(h[..|h| - 1]);
    }
  }

  /** A transaction is open exactly when some accepted MAIL was followed by no other and by
      nothing that ends it; its sender and recipients are those accepted from there on. */
  lemma EnvelopeMeaning(h: seq<Exchange>)
    ensures Sender(h).Some? <==> exists m: nat :: OpenSince(h, m)
    ensures forall m: nat | OpenSince(h, m) :: Sender(h) == Some(h[m].reply.sender)
                                               && Recipients(h) == AcceptedRecipients(h[m + 1..])
  {
    forall m: nat | OpenSince(h, m)
      ensures Sender(h) == Some(h[m].reply.sender) && Recipients(h) == AcceptedRecipients(h[m + 1..])
    {
      OpenEnvelope(h, m);
    }
    if Sender(h).Some? {
      var m := OpenTransactionFound(h);
    }
  }

  /** The session is the one of the first successful AUTH. */
  lemma {:induction false} SessionMeaning(h: seq<Exchange>)
    ensures SessionOf(h).Some? <==> exists k :: 0 <= k < |h| && h[k].reply.AuthOk235?
    ensures forall k | 0 <= k < |h| && h[k].reply.AuthOk235? && (forall j | 0 <= j < k :: !h[j].reply.AuthOk235?) ::
              SessionOf(h) == Some(h[k].reply.session)
  {
    if h != [] {
      SessionMeaning(h[1..]);
      assert forall k | 1 <= k < |h| :: h[k] == h[1..][k - 1];
      if SessionOf(h[1..]).Some? {
        var k :| 0 <= k < |h[1..]| && h[1..][k].reply.AuthOk235?;
        assert h[k + 1].reply.AuthOk235?;
      }
      if k :| 0 < k < |h| && h[k].reply.AuthOk235? {
        assert h[1..][k - 1].reply.AuthOk235?;
      }
    }
  }

  lemma {:induction false} SessionOfPrefix(h: seq<Exchange>, i: nat)
    requires i <= |h| && SessionOf(h[..i]).Some?
    ensures SessionOf(h) == SessionOf(h[..i])
  {
    assert h[..i][0] == h[0];
    if !h[0].reply.AuthOk235? {
      assert h[..i][1..] == h[1..][..i - 1];
      SessionOfPrefix(h[1..], i - 1);
    }
  }

  /** In every conversation at most one AUTH succeeds. */
  lemma OneSession(env: Environment, h: seq<Exchange>, i: nat, j: nat)
    requires Legitimate(env, h) && i < |h| && j < |h|
    requires h[i].reply.AuthOk235? && h[j].reply.AuthOk235?
    ensures i == j
  {
    if i < j {
      AuthOnce(env, h, i, j);
    } else if j < i {
      AuthOnce(env, h, j, i);
    }
  }

  lemma AuthOnce(env: Environment, h: seq<Exchange>, i: nat, j: nat)
    requires Legitimate(env, h) && i < j < |h| && h[i].reply.AuthOk235?
    ensures !h[j].reply.AuthOk235?
  {
    assert Answered(env, h, j);
    AnswerImplies(env, h, j);
    SessionMeaning(h[..j]);
    assert h[..j][i].reply.AuthOk235?;
  }

  /** Exchange m is the accepted MAIL and exchange k the successful AUTH behind the delivery
      of exchange i. */
  predicate Justified(h: seq<Exchange>, i: nat, m: nat, k: nat)
    requires i < |h| && h[i].delivery.Some?
  {
    var d := h[i].delivery.value;
    && k < m < i
    && OpenSince(h[..i], m)
    && d.sender == h[m].reply.sender
    && d.recipients == AcceptedRecipients(h[m + 1..i]) != []
    && h[k].reply == AuthOk235(d.session)
    && forall j | 0 <= j < |h| && h[j].reply.AuthOk235? :: j == k
  }

  lemma DeliveryJustified(env: Environment, h: seq<Exchange>, i: nat) returns (m: nat, k: nat)
    requires Legitimate(env, h) && i < |h| && h[i].delivery.Some?
    ensures Justified(h, i, m, k)
  {
    assert Answered(env, h, i);
    AnswerImplies(env, h, i);
    EnvelopeMeaning(h[..i]);
    m :| OpenSince(h[..i], m);
    assert h[..i][m + 1..] == h[m + 1..i];
    assert h[m].reply.MailOk250? && Answered(env, h, m);
    AnswerImplies(env, h, m);
    k := FirstAuth(h[..m]);
    assert h[..i][..m] == h[..m];
    SessionOfPrefix(h[..i], m);
    forall j | 0 <= j < |h| && h[j].reply.AuthOk235?
      ensures j == k
    {
      OneSession(env, h, j, k);
    }
  }

  /** Every delivery of a conversation carries the sender of the last accepted MAIL and
      precisely the recipients accepted since, in order and at least one, with nothing in
      between that ends the transaction, under the one session ever authenticated, which
      was authenticated before that MAIL. */
  lemma {:induction false} DeliveryMatchesHistory(env: Environment, stream: string)
    ensures var h := Converse(env, [], stream);
            forall i | 0 <= i < |h| && h[i].delivery.Some? :: exists m: nat, k: nat :: Justified(h, i, m, k)
  {
    var h := Converse(env, [], stream);
    ConversationsAreLegitimate(env, [], stream);
    forall i | 0 <= i < |h| && h[i].delivery.Some?
      ensures exists m: nat, k: nat :: Justified(h, i, m, k)
    {
      var m, k := DeliveryJustified(env, h, i);
    }
  }

  lemma FirstAuth(h: seq<Exchange>) returns (k: nat)
    requires SessionOf(h).Some?
    ensures k < |h| && h[k].reply == AuthOk235(SessionOf(h).value)
  {
    if h[0].reply.AuthOk235? {
      k := 0;
    } else {
      k := FirstAuth(h[1..]);
      k := k + 1;
    }
  }
}
