/** The read-only IMAP connection (ImapConnection in app/proxies/imap/server.py).

    As for SMTP, a reference recomputes from the history of exchanges who is logged in and
    which mailbox is selected, and the class with its mutable fields is proved to send the
    reference's lines for every client stream. */
module ImapConnection {
  import opened Options
  import opened Text
  import opened LineStream
  import MailboxSync
  import opened VirtualMailbox
  import opened ImapArgs
  import opened ImapSets

  datatype Session = Session(profileId: int, username: string)

  /** What the connection cannot decide itself: the credential check, the item table at a
      given moment, and the regular expression of STATUS arguments. */
  datatype Environment = Environment(
    authenticate: (nat, string, string) -> Option<Session>,
    items: nat -> seq<MailboxSync.Item>,
    statusArgs: string -> Option<(string, seq<string>)>)

  datatype Completion = Ok | No | Bad

  datatype Untagged =
    | GreetingLine | CapabilityLine | ByeLine | BadLine | TooLongLine
    | ListLine(folder: FolderName)
    | ExistsLine(n: nat) | RecentLine | UnseenLine | UidValidityLine(v: int) | UidNextLine(uid: int)
    | FlagsLine | PermanentFlagsLine
    | StatusLine(items: seq<(string, int)>)
    | SearchLine(numbers: seq<int>)
    | FetchLine(seqNum: int, uid: int)

  datatype OutLine = Plain(line: Untagged) | Tagged(tag: string, completion: Completion)

  datatype Command =
    | Capability | Noop | Logout | Login(args: string) | Authenticate
    | List | Select(args: string) | Status(args: string) | Close
    | Uid(args: string) | Search(args: string) | Fetch(args: string)
    | Mutation | Unknown

  /** What a command did to the conversation: a successful LOGIN, SELECT or CLOSE, or nothing. */
  datatype Effect = Nothing | LoggedIn(session: Session) | Opened(mailbox: ImapMailbox) | Closed

  /** A command with everything it sent and its effect; raised tells that a set did not
      parse, which ends the connection. */
  datatype Exchange = Exchange(command: Command, lines: seq<OutLine>, raised: bool, effect: Effect)

  // ---------------------------------------------------------------- parsing

  const MUTATIONS: set<string> :=
    {"STORE", "COPY", "MOVE", "APPEND", "EXPUNGE", "CREATE", "DELETE", "RENAME", "SUBSCRIBE",
     "UNSUBSCRIBE", "LSUB", "SETACL", "DELETEACL", "SETMETADATA", "SETQUOTA", "SORT"}

  function ParseCommand(word: string, args: string): Command
  {
    var c := Upper(word);
    if c == "CAPABILITY" then Capability
    else if c == "NOOP" then Noop
    else if c == "LOGOUT" then Logout
    else if c == "LOGIN" then Login(args)
    else if c == "AUTHENTICATE" then Authenticate
    else if c == "LIST" then List
    else if c == "SELECT" || c == "EXAMINE" then Select(args)
    else if c == "STATUS" then Status(args)
    else if c == "CLOSE" then Close
    else if c == "UID" then Uid(args)
    else if c == "SEARCH" then Search(args)
    else if c == "FETCH" then Fetch(args)
    else if c in MUTATIONS then Mutation
    else Unknown
  }

  function NormalizeFolder(name: string): Option<FolderName>
  {
    var upper := Upper(name);
    if upper == "INBOX" then Some(Inbox)
    else if upper == Upper("Mindwall/Quarantine") then Some(QuarantineFolder)
    else None
  }

  // ---------------------------------------------------------------- meaning of a history

  datatype State = NOT_AUTH | AUTH | SELECTED | LOGOUT

  function SessionOf(h: seq<Exchange>): Option<Session>
  {
    if h == [] then None
    else if h[0].effect.LoggedIn? then Some(h[0].effect.session)
    else SessionOf(h[1..])
  }

  predicate LoggedOut(h: seq<Exchange>)
  {
    exists i | 0 <= i < |h| :: h[i].command.Logout?
  }

  /** The mailbox of the last successful SELECT, unless a CLOSE succeeded since. */
  function SelectedOf(h: seq<Exchange>): Option<ImapMailbox>
  {
    if h == [] then None
    else
      match h[|h| - 1].effect
      case Opened(mailbox) => Some(mailbox)
      case Closed => None
      case _ => SelectedOf(h[..|h| - 1])
  }

  function StateOf(h: seq<Exchange>): State
  {
    if LoggedOut(h) then LOGOUT
    else if SelectedOf(h).Some? then SELECTED
    else if SessionOf(h).Some? then AUTH
    else NOT_AUTH
  }

  // ---------------------------------------------------------------- the reference server

  function Done(c: Command, before: seq<Untagged>, tag: string, completion: Completion): Exchange
  {
    Exchange(c, DoneLines(before, tag, completion), false, Nothing)
  }

  function DoneLines(before: seq<Untagged>, tag: string, completion: Completion): seq<OutLine>
  {
    Plains(before) + [Tagged(tag, completion)]
  }

  function Plains(lines: seq<Untagged>): seq<OutLine>
  {
    seq(|lines|, i requires 0 <= i < |lines| => Plain(lines[i]))
  }

  function RespondLogin(env: Environment, h: seq<Exchange>, tag: string, args: string): Exchange
  {
    var c := Login(args);
    if StateOf(h) != NOT_AUTH then Done(c, [], tag, Bad)
    else
      var credentials := LoginArgs(args);
      if credentials.None? then Done(c, [], tag, Bad)
      else
        var s := env.authenticate(|h|, credentials.value.0, credentials.value.1);
        if s.None? then Done(c, [], tag, No) else Done(c, [], tag, Ok).(effect := LoggedIn(s.value))
  }

  function FolderLines(): seq<Untagged>
  {
    [ListLine(Inbox), ListLine(QuarantineFolder)]
  }

  function SelectLines(mb: ImapMailbox): seq<Untagged>
  {
    [ExistsLine(mb.Exists()), RecentLine, UnseenLine, UidValidityLine(mb.uidValidity), UidNextLine(mb.UidNext()),
     FlagsLine, PermanentFlagsLine]
  }

  function RespondSelect(env: Environment, h: seq<Exchange>, session: Session, tag: string, args: string): Exchange
  {
    var c := Command.Select(args);
    var name := Unquote(Strip(args));
    if name == "" then Done(c, [], tag, Bad)
    else
      var folder := NormalizeFolder(name);
      if folder.None? then Done(c, [], tag, No)
      else
        var mb := VirtualMailbox.Select(env.items(|h|), session.profileId, folder.value);
        Done(c, SelectLines(mb), tag, Ok).(effect := Opened(mb))
  }

  function StatusItems(requested: seq<string>, mb: ImapMailbox): seq<(string, int)>
  {
    if requested == [] then []
    else
      var last := requested[|requested| - 1];
      StatusItems(requested[..|requested| - 1], mb)
      + (if last == "MESSAGES" then [(last, mb.Exists())]
         else if last == "UIDVALIDITY" then [(last, mb.uidValidity)]
         else if last == "UIDNEXT" then [(last, mb.UidNext())]
         else if last == "UNSEEN" || last == "RECENT" then [(last, 0)]
         else [])
  }

  function RespondStatus(env: Environment, h: seq<Exchange>, session: Session, tag: string, args: string): Exchange
  {
    var c := Status(args);
    var parsed := env.statusArgs(Strip(args));
    if parsed.None? then Done(c, [], tag, Bad)
    else
      var folder := NormalizeFolder(parsed.value.0);
      if folder.None? then Done(c, [], tag, No)
      else
        var mb := VirtualMailbox.Select(env.items(|h|), session.profileId, folder.value);
        Done(c, [StatusLine(StatusItems(parsed.value.1, mb))], tag, Ok)
  }

  function FetchLines(ms: seq<ImapMessage>): seq<Untagged>
  {
    seq(|ms|, i requires 0 <= i < |ms| => FetchLine(ms[i].seqNum, ms[i].uid))
  }

  function Raise(c: Command): Exchange
  {
    Exchange(c, [], true, Nothing)
  }

  function RespondSearch(c: Command, numbers: Option<seq<int>>, tag: string): Exchange
  {
    if numbers.None? then Raise(c) else Done(c, [SearchLine(numbers.value)], tag, Ok)
  }

  function RespondFetch(c: Command, fetched: Option<seq<ImapMessage>>, tag: string): Exchange
  {
    if fetched.None? then Raise(c) else Done(c, FetchLines(fetched.value), tag, Ok)
  }

  /** UID FETCH and FETCH: a set and the items to fetch. */
  function RespondFetchArgs(c: Command, mb: ImapMailbox, tag: string, args: string, byUid: bool): Exchange
  {
    var parts := SplitWords(Strip(args), 1);
    if |parts| < 2 then Done(c, [], tag, Bad)
    else RespondFetch(c, if byUid then UidFetch(mb, parts[0]) else ImapSets.Fetch(mb, parts[0]), tag)
  }

  /** UID SEARCH answers with the sorted UIDs themselves. */
  function RespondUidSearch(c: Command, mb: ImapMailbox, tag: string, criteria: string): Exchange
  {
    var uids := ApplySearch(criteria, mb);
    RespondSearch(c, if uids.None? then None else Some(MailboxSync.Sorted(uids.value)), tag)
  }

  function RespondUid(mb: ImapMailbox, tag: string, args: string): Exchange
  {
    var c := Uid(args);
    var words := SplitWords(Strip(args), 1);
    if words == [] then Done(c, [], tag, Bad)
    else
      var sub, more := Upper(words[0]), if |words| > 1 then words[1] else "";
      if sub == "SEARCH" then RespondUidSearch(c, mb, tag, more)
      else if sub == "FETCH" then RespondFetchArgs(c, mb, tag, more, true)
      else if sub in {"STORE", "COPY", "MOVE", "EXPUNGE"} then Done(c, [], tag, No)
      else Done(c, [], tag, Bad)
  }

  /** The commands on a selected mailbox. */
  function RespondSelected(mb: ImapMailbox, tag: string, c: Command): Exchange
  {
    if c.Uid? then RespondUid(mb, tag, c.args)
    else if c.Search? then RespondSearch(c, SearchNumbers(c.args, mb), tag)
    else if c.Fetch? then RespondFetchArgs(c, mb, tag, c.args, false)
    else Done(c, [], tag, Ok).(effect := Closed)
  }

  /** The commands of a logged-in client. */
  function RespondAuthenticated(env: Environment, h: seq<Exchange>, session: Session, tag: string, c: Command): Exchange
  {
    if c == List then Done(c, FolderLines(), tag, Ok)
    else if c.Select? then RespondSelect(env, h, session, tag, c.args)
    else if c.Status? then RespondStatus(env, h, session, tag, c.args)
    else if SelectedOf(h).None? then Done(c, [], tag, Bad)
    else RespondSelected(SelectedOf(h).value, tag, c)
  }

  predicate NeedsLogin(c: Command)
  {
    c.List? || c.Select? || c.Status? || c.Close? || c.Uid? || c.Search? || c.Fetch?
  }

  /** The exchange of a command after a history. */
  function Respond(env: Environment, h: seq<Exchange>, tag: string, c: Command): Exchange
  {
    if NeedsLogin(c) then
      (if LoggedOut(h) || SessionOf(h).None? then Done(c, [], tag, No)
       else RespondAuthenticated(env, h, SessionOf(h).value, tag, c))
    else if c.Login? then RespondLogin(env, h, tag, c.args)
    else if c == Capability then Done(c, [CapabilityLine], tag, Ok)
    else if c == Noop then Done(c, [], tag, Ok)
    else if c == Logout then Done(c, [ByeLine], tag, Ok)
    else if c == Authenticate || c == Mutation then Done(c, [], tag, No)
    else Done(c, [], tag, Bad)
  }

  // ---------------------------------------------------------------- the connection

  class Connection {
    const env: Environment
    const reader: LineReader
    var state: State
    var session: Option<Session>
    var selected: Option<ImapMailbox>
    var sent: seq<OutLine>
    var commands: nat
    ghost var history: seq<Exchange>

    /** The fields say about the conversation what its history says. */
    ghost predicate Tracks(h: seq<Exchange>)
      reads this
    {
      && state == StateOf(h)
      && session == SessionOf(h)
      && selected == SelectedOf(h)
      && (selected.Some? ==> session.Some?)
    }

    ghost predicate Valid()
      reads this
    {
      Tracks(history) && commands == |history|
    }

    constructor (env: Environment, stream: string)
      ensures Valid() && fresh(this) && fresh(reader)
      ensures this.env == env && reader.rest == stream && history == [] && sent == []
      ensures state == NOT_AUTH && session == None && selected == None
    {
      this.env := env;
      reader := new LineReader(stream);
      state, session, selected := NOT_AUTH, None, None;
      sent, commands, history := [], 0, [];
    }

    method Send(line: OutLine)
      modifies `sent
      ensures sent == old(sent) + [line]
    {
      sent := sent + [line];
    }

    method Complete(tag: string, completion: Completion)
      modifies `sent
      ensures sent == old(sent) + DoneLines([], tag, completion)
    {
      Send(Tagged(tag, completion));
      assert DoneLines([], tag, completion) == [Tagged(tag, completion)];
    }

    /** One untagged line, then the completion. */
    method SendAndComplete(line: Untagged, tag: string, completion: Completion)
      modifies `sent
      ensures sent == old(sent) + DoneLines([line], tag, completion)
    {
      Send(Plain(line));
      Send(Tagged(tag, completion));
      assert DoneLines([line], tag, completion) == [Plain(line)] + [Tagged(tag, completion)];
    }

    /** The completion after untagged lines already sent. */
    method CompleteAfter(ghost start: seq<OutLine>, ghost before: seq<Untagged>, tag: string, completion: Completion)
      requires sent == start + Plains(before)
      modifies `sent
      ensures sent == start + DoneLines(before, tag, completion)
    {
      Send(Tagged(tag, completion));
    }

    method RequireAuth(tag: string) returns (ok: bool)
      modifies `sent
      ensures ok == (state !in {NOT_AUTH, LOGOUT})
      ensures ok ==> sent == old(sent)
      ensures !ok ==> sent == old(sent) + DoneLines([], tag, No)
    {
      if state in {NOT_AUTH, LOGOUT} {
        Complete(tag, No);
        return false;
      }
      ok := true;
    }

    method RequireSelected(tag: string) returns (ok: bool)
      modifies `sent
      ensures ok == (state == SELECTED)
      ensures ok ==> sent == old(sent)
      ensures !ok ==> sent == old(sent) + DoneLines([], tag, if state in {NOT_AUTH, LOGOUT} then No else Bad)
    {
      ok := RequireAuth(tag);
      if ok && state != SELECTED {
        Complete(tag, Bad);
        return false;
      }
    }

    method CmdLogin(tag: string, args: string) returns (ghost e: Exchange)
      requires Valid()
      modifies `sent, `session, `state
      ensures e == RespondLogin(env, history, tag, args) && sent == old(sent) + e.lines
      ensures Tracks(history + [e])
    {
      if state != NOT_AUTH {
        Complete(tag, Bad);
        e := Done(Login(args), [], tag, Bad);
      } else {
        var credentials := ParseLoginArgs(args);
        if credentials.None? {
          Complete(tag, Bad);
          e := Done(Login(args), [], tag, Bad);
        } else {
          var s := env.authenticate(commands, credentials.value.0, credentials.value.1);
          if s.None? {
            Complete(tag, No);
            e := Done(Login(args), [], tag, No);
          } else {
            session := s;
            state := AUTH;
            Complete(tag, Ok);
            e := Done(Login(args), [], tag, Ok).(effect := LoggedIn(s.value));
          }
        }
      }
      AppendExchange(history, e);
    }

    method CmdList(tag: string)
      modifies `sent
      ensures sent == old(sent) + DoneLines(FolderLines(), tag, Ok)
    {
      Send(Plain(ListLine(Inbox)));
      Send(Plain(ListLine(QuarantineFolder)));
      CompleteAfter(old(sent), FolderLines(), tag, Ok);
    }

    method SendMailbox(tag: string, mailbox: ImapMailbox)
      modifies `sent
      ensures sent == old(sent) + DoneLines(SelectLines(mailbox), tag, Ok)
    {
      Send(Plain(ExistsLine(mailbox.Exists())));
      Send(Plain(RecentLine));
      Send(Plain(UnseenLine));
      Send(Plain(UidValidityLine(mailbox.uidValidity)));
      Send(Plain(UidNextLine(mailbox.UidNext())));
      Send(Plain(FlagsLine));
      Send(Plain(PermanentFlagsLine));
      CompleteAfter(old(sent), SelectLines(mailbox), tag, Ok);
    }

    method CmdSelect(tag: string, args: string) returns (ghost e: Exchange)
      requires Valid() && session.Some? && state != LOGOUT
      modifies `sent, `selected, `state
      ensures e == RespondSelect(env, history, session.value, tag, args) && sent == old(sent) + e.lines
      ensures Tracks(history + [e])
    {
      var name := Unquote(Strip(args));
      if name == "" {
        Complete(tag, Bad);
        e := Done(Command.Select(args), [], tag, Bad);
      } else {
        var folder := NormalizeFolder(name);
        if folder.None? {
          Complete(tag, No);
          e := Done(Command.Select(args), [], tag, No);
        } else {
          var mailbox := SelectMailbox(env.items(commands), session.value.profileId, folder.value);
          selected := Some(mailbox);
          state := SELECTED;
          SendMailbox(tag, mailbox);
          e := Done(Command.Select(args), SelectLines(mailbox), tag, Ok).(effect := Opened(mailbox));
        }
      }
      AppendExchange(history, e);
    }

    method CmdStatus(tag: string, args: string)
      requires Valid() && session.Some?
      modifies `sent
      ensures sent == old(sent) + RespondStatus(env, history, session.value, tag, args).lines
    {
      var parsed := env.statusArgs(Strip(args));
      if parsed.None? {
        Complete(tag, Bad);
        return;
      }
      var folder := NormalizeFolder(parsed.value.0);
      if folder.None? {
        Complete(tag, No);
        return;
      }
      var mailbox := SelectMailbox(env.items(commands), session.value.profileId, folder.value);
      var requested := parsed.value.1;
      var parts: seq<(string, int)> := [];
      for i := 0 to |requested|
        invariant parts == StatusItems(requested[..i], mailbox)
        invariant sent == old(sent)
      {
        var item := requested[i];
        if item == "MESSAGES" {
          parts := parts + [(item, mailbox.Exists())];
        } else if item == "UIDVALIDITY" {
          parts := parts + [(item, mailbox.uidValidity)];
        } else if item == "UIDNEXT" {
          parts := parts + [(item, mailbox.UidNext())];
        } else if item == "UNSEEN" || item == "RECENT" {
          parts := parts + [(item, 0)];
        }
        assert requested[..i + 1][..i] == requested[..i];
      }
      assert requested[..|requested|] == requested;
      SendAndComplete(StatusLine(parts), tag, Ok);
    }

    method CmdClose(tag: string) returns (ghost e: Exchange)
      requires Valid() && state == SELECTED
      modifies `sent, `selected, `state
      ensures e == Done(Close, [], tag, Ok).(effect := Closed) && sent == old(sent) + e.lines
      ensures Tracks(history + [e])
    {
      selected := None;
      state := AUTH;
      Complete(tag, Ok);
      e := Done(Close, [], tag, Ok).(effect := Closed);
      AppendExchange(history, e);
    }

    /** The loop of UID FETCH over the selected messages. */
    method SendWithUidIn(ms: seq<ImapMessage>, target: set<int>)
      modifies `sent
      ensures sent == old(sent) + Plains(FetchLines(WithUidIn(ms, target)))
    {
      var i := 0;
      while i < |ms|
        invariant 0 <= i <= |ms|
        invariant old(sent) + Plains(FetchLines(WithUidIn(ms, target)))
               == sent + Plains(FetchLines(WithUidIn(ms[i..], target)))
      {
        ghost var rest := WithUidIn(ms[i + 1..], target);
        assert ms[i..][1..] == ms[i + 1..];
        if ms[i].uid in target {
          FetchLinesStep(ms[i], rest);
          Send(Plain(FetchLine(ms[i].seqNum, ms[i].uid)));
        }
        i := i + 1;
      }
    }

    /** The loop of FETCH over the selected messages. */
    method SendWithSeqIn(ms: seq<ImapMessage>, target: set<int>)
      modifies `sent
      ensures sent == old(sent) + Plains(FetchLines(WithSeqIn(ms, target)))
    {
      var i := 0;
      while i < |ms|
        invariant 0 <= i <= |ms|
        invariant old(sent) + Plains(FetchLines(WithSeqIn(ms, target)))
               == sent + Plains(FetchLines(WithSeqIn(ms[i..], target)))
      {
        ghost var rest := WithSeqIn(ms[i + 1..], target);
        assert ms[i..][1..] == ms[i + 1..];
        if ms[i].seqNum in target {
          FetchLinesStep(ms[i], rest);
          Send(Plain(FetchLine(ms[i].seqNum, ms[i].uid)));
        }
        i := i + 1;
      }
    }

    /** FETCH and UID FETCH on the selected mailbox; raised when the set does not parse. */
    method CmdFetch(ghost c: Command, tag: string, args: string, byUid: bool) returns (raised: bool)
      requires selected.Some?
      modifies `sent
      ensures var e := RespondFetchArgs(c, selected.value, tag, args, byUid);
              sent == old(sent) + e.lines && raised == e.raised
    {
      raised := false;
      var ms := selected.value.messages;
      var parts := SplitWords(Strip(args), 1);
      if |parts| < 2 {
        Complete(tag, Bad);
        return;
      }
      if byUid {
        var target := ParseUidSet(parts[0], ms);
        if target.None? {
          return true;
        }
        SendWithUidIn(ms, target.value);
        CompleteAfter(old(sent), FetchLines(WithUidIn(ms, target.value)), tag, Ok);
      } else {
        var target := ParseSeqSet(parts[0], selected.value.Exists());
        if target.None? {
          return true;
        }
        SendWithSeqIn(ms, target.value);
        CompleteAfter(old(sent), FetchLines(WithSeqIn(ms, target.value)), tag, Ok);
      }
    }

    method FindNumbers(uids: seq<int>, mailbox: ImapMailbox) returns (numbers: seq<int>)
      ensures numbers == NumbersOf(uids, mailbox)
    {
      numbers := [];
      for i := 0 to |uids|
        invariant numbers + NumbersOf(uids[i..], mailbox) == NumbersOf(uids, mailbox)
      {
        assert uids[i..][1..] == uids[i + 1..];
        var m := mailbox.ByUid(uids[i]);
        if m.Some? {
          numbers := numbers + [m.value.seqNum];
        }
      }
    }

    method CmdSearch(ghost c: Command, tag: string, args: string) returns (raised: bool)
      requires selected.Some?
      modifies `sent
      ensures var e := RespondSearch(c, SearchNumbers(args, selected.value), tag);
              sent == old(sent) + e.lines && raised == e.raised
    {
      var mailbox := selected.value;
      var uids := ApplySearch(args, mailbox);
      if uids.None? {
        return true;
      }
      var numbers := FindNumbers(uids.value, mailbox);
      SendAndComplete(SearchLine(numbers), tag, Ok);
      raised := false;
    }

    method CmdUidSearch(ghost c: Command, tag: string, criteria: string) returns (raised: bool)
      requires selected.Some?
      modifies `sent
      ensures var e := RespondUidSearch(c, selected.value, tag, criteria);
              sent == old(sent) + e.lines && raised == e.raised
    {
      var uids := ApplySearch(criteria, selected.value);
      if uids.None? {
        return true;
      }
      SendAndComplete(SearchLine(MailboxSync.Sorted(uids.value)), tag, Ok);
      raised := false;
    }

    method CmdUid(tag: string, args: string) returns (raised: bool)
      requires selected.Some?
      modifies `sent
      ensures var e := RespondUid(selected.value, tag, args);
              sent == old(sent) + e.lines && raised == e.raised
    {
      raised := false;
      var words := SplitWords(Strip(args), 1);
      if words == [] {
        Complete(tag, Bad);
        return;
      }
      var sub := Upper(words[0]);
      var more := "";
      if |words| > 1 {
        more := words[1];
      }
      if sub == "SEARCH" {
        raised := CmdUidSearch(Uid(args), tag, more);
      } else if sub == "FETCH" {
        raised := CmdFetch(Uid(args), tag, more, true);
      } else if sub in {"STORE", "COPY", "MOVE", "EXPUNGE"} {
        Complete(tag, No);
      } else {
        Complete(tag, Bad);
      }
    }

    /** The commands that read the selected mailbox. */
    method CmdSelected(tag: string, c: Command) returns (raised: bool)
      requires selected.Some? && (c.Uid? || c.Search? || c.Fetch?)
      modifies `sent
      ensures var e := RespondSelected(selected.value, tag, c);
              sent == old(sent) + e.lines && raised == e.raised
    {
      if c.Uid? {
        raised := CmdUid(tag, c.args);
      } else if c.Search? {
        raised := CmdSearch(c, tag, c.args);
      } else {
        raised := CmdFetch(c, tag, c.args, false);
      }
    }

    /** The commands that need a selected mailbox and leave it as it is. */
    method DispatchReading(tag: string, c: Command) returns (ghost e: Exchange, raised: bool)
      requires Valid() && (c.Uid? || c.Search? || c.Fetch?)
      modifies `sent
      ensures e == Respond(env, history, tag, c) && sent == old(sent) + e.lines && raised == e.raised
      ensures Tracks(history + [e])
    {
      Guards(env, history, tag, c);
      var ok := RequireSelected(tag);
      if ok {
        raised := CmdSelected(tag, c);
        e := RespondSelected(selected.value, tag, c);
        SelectedChangesNothing(selected.value, tag, c);
      } else {
        raised := false;
        e := Done(c, [], tag, if state in {NOT_AUTH, LOGOUT} then No else Bad);
      }
      NeutralExchange(history, e);
    }

    /** CLOSE, behind its guard. */
    method DispatchClose(tag: string) returns (ghost e: Exchange)
      requires Valid()
      modifies `sent, `selected, `state
      ensures e == Respond(env, history, tag, Close) && sent == old(sent) + e.lines && !e.raised
      ensures Tracks(history + [e])
    {
      Guards(env, history, tag, Close);
      var ok := RequireSelected(tag);
      if ok {
        e := CmdClose(tag);
      } else {
        e := Done(Close, [], tag, if state in {NOT_AUTH, LOGOUT} then No else Bad);
        NeutralExchange(history, e);
      }
    }

    /** The commands that need a login but no selection. */
    method DispatchAuthenticated(tag: string, c: Command) returns (ghost e: Exchange)
      requires Valid() && (c.List? || c.Select? || c.Status?)
      modifies `sent, `selected, `state
      ensures e == Respond(env, history, tag, c) && sent == old(sent) + e.lines && !e.raised
      ensures Tracks(history + [e])
    {
      Guards(env, history, tag, c);
      var ok := RequireAuth(tag);
      if !ok {
        e := Done(c, [], tag, No);
        NeutralExchange(history, e);
      } else if c.Select? {
        e := CmdSelect(tag, c.args);
      } else if c.Status? {
        CmdStatus(tag, c.args);
        e := RespondStatus(env, history, session.value, tag, c.args);
        NeutralExchange(history, e);
      } else {
        CmdList(tag);
        e := Done(c, FolderLines(), tag, Ok);
        NeutralExchange(history, e);
      }
    }

    /** The commands that are answered in any state. */
    method DispatchAnywhere(tag: string, c: Command) returns (ghost e: Exchange)
      requires Valid() && !NeedsLogin(c) && !c.Login?
      modifies `sent, `state
      ensures e == Respond(env, history, tag, c) && sent == old(sent) + e.lines && !e.raised
      ensures Tracks(history + [e])
    {
      e := Respond(env, history, tag, c);
      if c == Capability {
        SendAndComplete(CapabilityLine, tag, Ok);
      } else if c == Noop {
        Complete(tag, Ok);
      } else if c == Logout {
        state := LOGOUT;
        SendAndComplete(ByeLine, tag, Ok);
      } else if c == Authenticate || c == Mutation {
        Complete(tag, No);
      } else {
        Complete(tag, Bad);
      }
      AppendExchange(history, e);
    }

    /** One parsed command. */
    method Execute(tag: string, c: Command) returns (raised: bool)
      requires Valid()
      modifies this
      ensures Valid()
      ensures var e := Respond(env, old(history), tag, c);
              history == old(history) + [e] && sent == old(sent) + e.lines && raised == e.raised
    {
      raised := false;
      ghost var e: Exchange;
      if c.Close? {
        e := DispatchClose(tag);
      } else if c.Uid? || c.Search? || c.Fetch? {
        e, raised := DispatchReading(tag, c);
      } else if c.List? || c.Select? || c.Status? {
        e := DispatchAuthenticated(tag, c);
      } else if c.Login? {
        e := CmdLogin(tag, c.args);
      } else {
        e := DispatchAnywhere(tag, c);
      }
      commands := commands + 1;
      history := history + [e];
    }

    /** One line from the client. */
    method Dispatch(line: string) returns (raised: bool)
      requires Valid()
      modifies this
      ensures Valid()
      ensures (history, sent, raised) == AfterLine(env, old(history), old(sent), line)
    {
      raised := false;
      if Strip(line) == "" {
        return;
      }
      var parts := SplitWords(line, 2);
      if |parts| < 2 {
        Send(Plain(BadLine));
        return;
      }
      var c := ParseCommand(parts[1], if |parts| > 2 then parts[2] else "");
      raised := Execute(parts[0], c);
    }

    /** Serves the client stream until LOGOUT, its end, an overlong line, or an exception. */
    method Handle()
      requires Valid()
      modifies this, reader
      ensures Valid()
      ensures (history, sent) == Converse(env, old(history), old(sent) + [Plain(GreetingLine)], old(reader.rest))
    {
      Send(Plain(GreetingLine));
      while state != LOGOUT
        invariant Valid()
        invariant Converse(env, history, sent, reader.rest)
               == Converse(env, old(history), old(sent) + [Plain(GreetingLine)], old(reader.rest))
        decreases |reader.rest|
      {
        var raw := reader.ReadRaw();
        if raw == "" {
          return;
        }
        if |raw| > MAX_LINE_BYTES {
          Send(Plain(TooLongLine));
          return;
        }
        var raised := Dispatch(StripLineEnd(raw));
        if raised {
          return;
        }
      }
    }
  }

  /** The conversation after one client line: its history, everything sent, and whether the
      connection raised. */
  function AfterLine(env: Environment, h: seq<Exchange>, sent: seq<OutLine>, line: string)
    : (seq<Exchange>, seq<OutLine>, bool)
  {
    var parts := SplitWords(line, 2);
    if Strip(line) == "" then (h, sent, false)
    else if |parts| < 2 then (h, sent + [Plain(BadLine)], false)
    else
      var e := Respond(env, h, parts[0], ParseCommand(parts[1], if |parts| > 2 then parts[2] else ""));
      (h + [e], sent + e.lines, e.raised)
  }

  /** The whole conversation on a client stream. */
  function Converse(env: Environment, h: seq<Exchange>, sent: seq<OutLine>, stream: string)
    : (seq<Exchange>, seq<OutLine>)
    decreases |stream|
  {
    var raw := Line(stream);
    if LoggedOut(h) || raw == "" then (h, sent)
    else if |raw| > MAX_LINE_BYTES then (h, sent + [Plain(TooLongLine)])
    else
      var (h', sent', raised) := AfterLine(env, h, sent, StripLineEnd(raw));
      if raised then (h', sent') else Converse(env, h', sent', Rest(stream))
  }

  /** What the login and selection guards decide. */
  lemma Guards(env: Environment, h: seq<Exchange>, tag: string, c: Command)
    requires NeedsLogin(c) && (SelectedOf(h).Some? ==> SessionOf(h).Some?)
    ensures StateOf(h) in {NOT_AUTH, LOGOUT} ==> Respond(env, h, tag, c) == Done(c, [], tag, No)
    ensures StateOf(h) !in {NOT_AUTH, LOGOUT} ==>
              SessionOf(h).Some? && Respond(env, h, tag, c) == RespondAuthenticated(env, h, SessionOf(h).value, tag, c)
  {
  }

  predicate Neutral(e: Exchange)
  {
    e.effect.Nothing? && !e.command.Logout?
  }

  lemma NeutralExchange(h: seq<Exchange>, e: Exchange)
    requires Neutral(e)
    ensures SessionOf(h + [e]) == SessionOf(h) && SelectedOf(h + [e]) == SelectedOf(h) && StateOf(h + [e]) == StateOf(h)
  {
    AppendExchange(h, e);
  }

  lemma UidChangesNothing(mb: ImapMailbox, tag: string, args: string)
    ensures Neutral(RespondUid(mb, tag, args))
  {
  }

  /** Reading commands neither log in, nor select, nor close. */
  lemma SelectedChangesNothing(mb: ImapMailbox, tag: string, c: Command)
    requires c.Uid? || c.Search? || c.Fetch?
    ensures Neutral(RespondSelected(mb, tag, c))
  {
    if c.Uid? {
      UidChangesNothing(mb, tag, c.args);
    }
  }

  lemma FetchLinesStep(m: ImapMessage, rest: seq<ImapMessage>)
    ensures Plains(FetchLines([m] + rest)) == [Plain(FetchLine(m.seqNum, m.uid))] + Plains(FetchLines(rest))
  {
  }

  /** How one more exchange changes what a history means. */
  lemma AppendExchange(h: seq<Exchange>, e: Exchange)
    ensures SessionOf(h + [e]) == if SessionOf(h).Some? then SessionOf(h)
                                  else if e.effect.LoggedIn? then Some(e.effect.session) else None
    ensures LoggedOut(h + [e]) <==> LoggedOut(h) || e.command.Logout?
    ensures SelectedOf(h + [e]) == if e.effect.Opened? then Some(e.effect.mailbox)
                                   else if e.effect.Closed? then None else SelectedOf(h)
  {
    var h' := h + [e];
    assert h'[..|h|] == h;
    SessionAppend(h, e);
    if LoggedOut(h) {
      var i :| 0 <= i < |h| && h[i].command.Logout?;
      assert h'[i].command.Logout?;
    }
    if e.command.Logout? {
      assert h'[|h|].command.Logout?;
    }
  }

  lemma {:induction false} SessionAppend(h: seq<Exchange>, e: Exchange)
    ensures SessionOf(h + [e]) == if SessionOf(h).Some? then SessionOf(h)
                                  else if e.effect.LoggedIn? then Some(e.effect.session) else None
  {
    if h != [] {
      SessionAppend(h[1..], e);
      assert (h + [e])[1..] == h[1..] + [e];
    } else {
      assert ([] + [e])[1..] == [];
    }
  }
}
