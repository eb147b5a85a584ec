/** Laws of every IMAP conversation. */
module ImapConversationLaws {
  import opened Options
  import opened Text
  import opened LineStream
  import opened MailboxSyncLaws
  import opened VirtualMailbox
  import opened ImapSets
  import opened ImapSetLaws
  import opened ImapConnection

  // ---------------------------------------------------------------- what reading commands ask

  /** What a reading command asks of the selected mailbox: to fetch a set of sequence numbers
      or of UIDs, or to find the sequence numbers or the UIDs meeting a criterion. */
  datatype Query =
    | FetchNumbers(text: string) | FetchUids(text: string) | FindNumbers(text: string) | FindUids(text: string)

  predicate Reads(c: Command) { c.Uid? || c.Search? || c.Fetch? }

  function QueryOf(c: Command): Option<Query>
    requires Reads(c)
  {
    var words := SplitWords(Strip(c.args), 1);
    if c.Search? then Some(FindNumbers(c.args))
    else if c.Fetch? then (if |words| == 2 then Some(FetchNumbers(words[0])) else None)
    else if words == [] then None
    else
      var more := if |words| > 1 then words[1] else "";
      var parts := SplitWords(Strip(more), 1);
      if Upper(words[0]) == "SEARCH" then Some(FindUids(more))
      else if Upper(words[0]) == "FETCH" && |parts| == 2 then Some(FetchUids(parts[0]))
      else None
  }

  /** The lines a mailbox answers a query with; None when its set does not parse. */
  function Answer(mb: ImapMailbox, q: Query): Option<seq<Untagged>>
  {
    match q
    case FetchNumbers(text) => Lines(ImapSets.Fetch(mb, text))
    case FetchUids(text) => Lines(UidFetch(mb, text))
    case FindNumbers(text) =>
      var numbers := SearchNumbers(text, mb);
      if numbers.None? then None else Some([SearchLine(numbers.value)])
    case FindUids(text) =>
      var uids := ApplySearch(text, mb);
      if uids.None? then None else Some([SearchLine(MailboxSync.Sorted(uids.value))])
  }

  function Lines(ms: Option<seq<ImapMessage>>): Option<seq<Untagged>>
  {
    if ms.None? then None else Some(FetchLines(ms.value))
  }

  // ---------------------------------------------------------------- untagged lines, then a completion

  /** Untagged lines, then one line with the command's tag. */
  ghost predicate Completed(lines: seq<OutLine>, tag: string)
  {
    exists before, k :: lines == Plains(before) + [Tagged(tag, k)]
  }

  lemma DoneCompleted(c: Command, before: seq<Untagged>, tag: string, k: Completion)
    ensures Completed(Done(c, before, tag, k).lines, tag)
  {
    assert Done(c, before, tag, k).lines == Plains(before) + [Tagged(tag, k)];
  }

  lemma FetchCompleted(c: Command, fetched: Option<seq<ImapMessage>>, tag: string)
    ensures var e := RespondFetch(c, fetched, tag);
            (if e.raised then fetched.None? && e.lines == [] else Completed(e.lines, tag))
  {
    if fetched.Some? {
      DoneCompleted(c, FetchLines(fetched.value), tag, Ok);
    }
  }

  lemma FetchArgsCompleted(c: Command, mb: ImapMailbox, tag: string, args: string, byUid: bool)
    ensures var e := RespondFetchArgs(c, mb, tag, args, byUid);
            (if e.raised then e.lines == [] else Completed(e.lines, tag))
  {
    var parts := SplitWords(Strip(args), 1);
    if |parts| < 2 {
      DoneCompleted(c, [], tag, Bad);
    } else {
      FetchCompleted(c, if byUid then UidFetch(mb, parts[0]) else ImapSets.Fetch(mb, parts[0]), tag);
    }
  }

  lemma SearchCompleted(c: Command, numbers: Option<seq<int>>, tag: string)
    ensures var e := RespondSearch(c, numbers, tag);
            (if e.raised then e.lines == [] else Completed(e.lines, tag))
  {
    if numbers.Some? {
      DoneCompleted(c, [SearchLine(numbers.value)], tag, Ok);
    }
  }

  lemma UidCompleted(mb: ImapMailbox, tag: string, args: string)
    ensures var e := RespondUid(mb, tag, args);
            (if e.raised then e.lines == [] else Completed(e.lines, tag))
  {
    var c, words := Uid(args), SplitWords(Strip(args), 1);
    if words == [] {
      DoneCompleted(c, [], tag, Bad);
    } else {
      var sub, more := Upper(words[0]), if |words| > 1 then words[1] else "";
      if sub == "SEARCH" {
        UidSearchCompleted(c, mb, tag, more);
      } else if sub == "FETCH" {
        FetchArgsCompleted(c, mb, tag, more, true);
      } else if sub in {"STORE", "COPY", "MOVE", "EXPUNGE"} {
        DoneCompleted(c, [], tag, No);
      } else {
        DoneCompleted(c, [], tag, Bad);
      }
    }
  }

  lemma UidSearchCompleted(c: Command, mb: ImapMailbox, tag: string, criteria: string)
    ensures var e := RespondUidSearch(c, mb, tag, criteria);
            (if e.raised then e.lines == [] else Completed(e.lines, tag))
  {
    var uids := ApplySearch(criteria, mb);
    SearchCompleted(c, if uids.None? then None else Some(MailboxSync.Sorted(uids.value)), tag);
  }

  lemma AuthenticatedCompleted(env: Environment, h: seq<Exchange>, session: Session, tag: string, c: Command)
    ensures var e := RespondAuthenticated(env, h, session, tag, c);
            (if e.raised then e.lines == [] && (c.Uid? || c.Search? || c.Fetch?) else Completed(e.lines, tag))
  {
    if c == List {
      DoneCompleted(c, FolderLines(), tag, Ok);
    } else if c.Select? {
      SelectCompleted(env, h, session, tag, c.args);
    } else if c.Status? {
      StatusCompleted(env, h, session, tag, c.args);
    } else if SelectedOf(h).None? {
      DoneCompleted(c, [], tag, Bad);
    } else if c.Uid? {
      UidCompleted(SelectedOf(h).value, tag, c.args);
    } else if c.Search? {
      SearchCompleted(c, SearchNumbers(c.args, SelectedOf(h).value), tag);
    } else if c.Fetch? {
      FetchArgsCompleted(c, SelectedOf(h).value, tag, c.args, false);
    } else {
      DoneCompleted(c, [], tag, Ok);
    }
  }

  lemma SelectCompleted(env: Environment, h: seq<Exchange>, session: Session, tag: string, args: string)
    ensures var e := RespondSelect(env, h, session, tag, args);
            !e.raised && Completed(e.lines, tag)
  {
    var c, name := Command.Select(args), ImapArgs.Unquote(Strip(args));
    DoneCompleted(c, [], tag, Bad);
    DoneCompleted(c, [], tag, No);
    var folder := NormalizeFolder(name);
    if folder.Some? {
      DoneCompleted(c, SelectLines(VirtualMailbox.Select(env.items(|h|), session.profileId, folder.value)), tag, Ok);
    }
  }

  lemma StatusCompleted(env: Environment, h: seq<Exchange>, session: Session, tag: string, args: string)
    ensures var e := RespondStatus(env, h, session, tag, args);
            !e.raised && Completed(e.lines, tag)
  {
    var c, parsed := Status(args), env.statusArgs(Strip(args));
    DoneCompleted(c, [], tag, Bad);
    DoneCompleted(c, [], tag, No);
    if parsed.Some? && NormalizeFolder(parsed.value.0).Some? {
      var mb := VirtualMailbox.Select(env.items(|h|), session.profileId, NormalizeFolder(parsed.value.0).value);
      DoneCompleted(c, [StatusLine(StatusItems(parsed.value.1, mb))], tag, Ok);
    }
  }

  lemma {:induction false} SentOrRaised(env: Environment, h: seq<Exchange>, tag: string, c: Command)
    ensures var e := Respond(env, h, tag, c);
            if e.raised then e.lines == [] else Completed(e.lines, tag)
  {
    if NeedsLogin(c) {
      if LoggedOut(h) || SessionOf(h).None? {
        DoneCompleted(c, [], tag, No);
      } else {
        AuthenticatedCompleted(env, h, SessionOf(h).value, tag, c);
      }
    } else {
      AnywhereCompleted(env, h, tag, c);
    }
  }

  lemma AnywhereCompleted(env: Environment, h: seq<Exchange>, tag: string, c: Command)
    requires !NeedsLogin(c)
    ensures var e := Respond(env, h, tag, c);
            !e.raised && Completed(e.lines, tag)
  {
    DoneCompleted(c, [], tag, Ok);
    DoneCompleted(c, [], tag, No);
    DoneCompleted(c, [], tag, Bad);
    DoneCompleted(c, [CapabilityLine], tag, Ok);
    DoneCompleted(c, [ByeLine], tag, Ok);
  }

  // ---------------------------------------------------------------- which commands raise

  lemma FetchRaises(c: Command, mb: ImapMailbox, tag: string, args: string, byUid: bool)
    ensures var parts := SplitWords(Strip(args), 1);
            RespondFetchArgs(c, mb, tag, args, byUid).raised
            <==> |parts| == 2 && (if byUid then UidFetch(mb, parts[0]) else ImapSets.Fetch(mb, parts[0])).None?
  {
  }

  lemma UidRaises(mb: ImapMailbox, tag: string, args: string)
    ensures var q := QueryOf(Uid(args));
            RespondUid(mb, tag, args).raised <==> q.Some? && Answer(mb, q.value).None?
  {
    var c, words := Uid(args), SplitWords(Strip(args), 1);
    if words != [] {
      var sub, more := Upper(words[0]), if |words| > 1 then words[1] else "";
      if sub == "FETCH" {
        FetchRaises(c, mb, tag, more, true);
      }
    }
  }

  /** On a selected mailbox a command raises exactly when it asks something the mailbox has no
      answer for. */
  lemma {:induction false} SelectedRaises(mb: ImapMailbox, tag: string, c: Command)
    ensures RespondSelected(mb, tag, c).raised
            <==> Reads(c) && QueryOf(c).Some? && Answer(mb, QueryOf(c).value).None?
  {
    if c.Uid? {
      UidRaises(mb, tag, c.args);
    } else if c.Fetch? {
      FetchRaises(c, mb, tag, c.args, false);
    }
  }

  predicate BadQuery(q: Query)
  {
    if q.FetchNumbers? || q.FetchUids? then BadSet(q.text) else BadCriteria(q.text)
  }

  lemma UnansweredIff(mb: ImapMailbox, q: Query)
    ensures Answer(mb, q).None? <==> mb.messages != [] && BadQuery(q)
  {
    match q
    case FetchNumbers(text) => FetchRaisesIff(mb, text);
    case FetchUids(text) => UidFetchRaisesIff(mb, text);
    case FindNumbers(text) => SearchRaisesIff(mb, text);
    case FindUids(text) => SearchRaisesIff(mb, text);
  }

  /** A logged-in client with a non-empty mailbox selected asks for a set with a bad range. */
  predicate Fails(h: seq<Exchange>, c: Command)
  {
    && Reads(c) && !LoggedOut(h) && SessionOf(h).Some? && SelectedOf(h).Some?
    && SelectedOf(h).value.messages != []
    && QueryOf(c).Some? && BadQuery(QueryOf(c).value)
  }

  lemma AuthenticatedRaises(env: Environment, h: seq<Exchange>, session: Session, tag: string, c: Command)
    requires NeedsLogin(c)
    ensures RespondAuthenticated(env, h, session, tag, c).raised
            <==> Reads(c) && SelectedOf(h).Some? && RespondSelected(SelectedOf(h).value, tag, c).raised
  {
    if SelectedOf(h).Some? {
      SelectedRaises(SelectedOf(h).value, tag, c);
    }
  }

  /** A command raises exactly when it fails in this sense. */
  lemma {:induction false} RaisedIff(env: Environment, h: seq<Exchange>, tag: string, c: Command)
    ensures Respond(env, h, tag, c).raised <==> Fails(h, c)
  {
    if NeedsLogin(c) {
      if !LoggedOut(h) && SessionOf(h).Some? {
        AuthenticatedRaises(env, h, SessionOf(h).value, tag, c);
        if Reads(c) && SelectedOf(h).Some? {
          SelectedRaises(SelectedOf(h).value, tag, c);
          if QueryOf(c).Some? {
            UnansweredIff(SelectedOf(h).value, QueryOf(c).value);
          }
        }
      }
    } else {
      AnywhereCompleted(env, h, tag, c);
    }
  }

  // ---------------------------------------------------------------- one completion per command

  lemma CompletedIsNotEmpty(lines: seq<OutLine>, tag: string)
    requires Completed(lines, tag)
    ensures lines != []
  {
  }

  /** After any history a command is completed by exactly one line with its tag, sent last, if
      and only if it is not one that asks a non-empty selected mailbox for a set with a bad
      range. Such a command sends nothing. */
  lemma {:induction false} CommandCompleted(env: Environment, h: seq<Exchange>, tag: string, c: Command)
    ensures Completed(Respond(env, h, tag, c).lines, tag) <==> !Fails(h, c)
    ensures Fails(h, c) ==> Respond(env, h, tag, c).lines == []
  {
    SentOrRaised(env, h, tag, c);
    RaisedIff(env, h, tag, c);
    if Completed(Respond(env, h, tag, c).lines, tag) {
      CompletedIsNotEmpty(Respond(env, h, tag, c).lines, tag);
    }
  }

  /** The command of a line, by its second word and what follows it. */
  function CommandIn(line: string): Command
    requires |SplitWords(line, 2)| >= 2
  {
    var parts := SplitWords(line, 2);
    ParseCommand(parts[1], if |parts| > 2 then parts[2] else "")
  }

  /** Line by line: a line with at least two words adds untagged lines and one completion
      carrying its first word, whatever happened before, if and only if its command does not
      fail. A failing one adds nothing and ends the connection. */
  lemma {:induction false} LineCompleted(env: Environment, h: seq<Exchange>, sent: seq<OutLine>, line: string)
    requires |SplitWords(line, 2)| >= 2
    ensures var (h', sent', raised) := AfterLine(env, h, sent, line);
            && sent <= sent'
            && (Completed(sent'[|sent|..], SplitWords(line, 2)[0]) <==> !Fails(h, CommandIn(line)))
            && (Fails(h, CommandIn(line)) ==> sent' == sent)
            && (raised <==> Fails(h, CommandIn(line)))
  {
    var parts, c := SplitWords(line, 2), CommandIn(line);
    BlankHasNoWords(line, 2);
    CommandCompleted(env, h, parts[0], c);
    RaisedIff(env, h, parts[0], c);
    var e := Respond(env, h, parts[0], c);
    assert (sent + e.lines)[|sent|..] == e.lines;
  }

  /** A failing line is the last one the connection reads. */
  lemma FailureEndsConversation(env: Environment, h: seq<Exchange>, sent: seq<OutLine>, stream: string)
    ensures var line := StripLineEnd(Line(stream));
            && !LoggedOut(h) && |Line(stream)| <= MAX_LINE_BYTES
            && |SplitWords(line, 2)| >= 2 && Fails(h, CommandIn(line)) ==>
              Converse(env, h, sent, stream).1 == sent
  {
    var line := StripLineEnd(Line(stream));
    if !LoggedOut(h) && |SplitWords(line, 2)| >= 2 && Fails(h, CommandIn(line)) {
      LineCompleted(env, h, sent, line);
    }
  }

  lemma BadWords()
    ensures SplitWords(Strip("1:x FLAGS"), 1) == ["1:x", "FLAGS"]
  {
    var s := "1:x FLAGS";
    StripKeeps(s);
    assert LStrip(s) == s && Word(s) == "1:x";
    assert s[3..] == " FLAGS" && LStrip(" FLAGS") == "FLAGS";
  }

  lemma BadText()
    ensures BadSet("1:x")
  {
    var s := "1:x";
    assert Split(s, ',') == [s];
    StripKeeps(s);
    assert IndexOf(s, ':') == 1 && s[2..] == "x";
    StripKeeps("x");
    assert !AllDigits("x");
    assert Unreadable("x");
    assert BadRange(s);
  }

  /** A concrete failure: FETCH 1:x FLAGS on any non-empty mailbox is never answered. */
  lemma MalformedFetchUnanswered(env: Environment, h: seq<Exchange>, tag: string)
    requires !LoggedOut(h) && SessionOf(h).Some? && SelectedOf(h).Some? && SelectedOf(h).value.messages != []
    ensures Respond(env, h, tag, Fetch("1:x FLAGS")).raised && Respond(env, h, tag, Fetch("1:x FLAGS")).lines == []
  {
    BadWords();
    BadText();
    assert QueryOf(Fetch("1:x FLAGS")) == Some(FetchNumbers("1:x"));
    RaisedIff(env, h, tag, Fetch("1:x FLAGS"));
    CommandCompleted(env, h, tag, Fetch("1:x FLAGS"));
  }

  lemma BlankHasNoWords(line: string, n: nat)
    ensures SplitWords(line, n) != [] ==> Strip(line) != ""
  {
    var t := LStrip(line);
    if t != "" {
      RStripKeepsFirst(t);
    }
  }

  lemma RStripKeepsFirst(s: string)
    requires s != "" && !IsSpace(s[0])
    ensures RStrip(s) != ""
  {
    if IsSpace(s[|s| - 1]) {
      RStripKeepsFirst(s[..|s| - 1]);
    }
  }

  // ---------------------------------------------------------------- session and selection

  ghost predicate Answered(env: Environment, h: seq<Exchange>, i: nat)
    requires i < |h|
  {
    exists tag :: h[i] == Respond(env, h[..i], tag, h[i].command)
  }

  /** Every exchange answers its command after the exchanges before it. */
  ghost predicate Legitimate(env: Environment, h: seq<Exchange>)
  {
    forall i | 0 <= i < |h| :: Answered(env, h, i)
  }

  lemma SelectedKeepsCommand(mb: ImapMailbox, tag: string, c: Command)
    ensures RespondSelected(mb, tag, c).command == c
  {
  }

  lemma AuthenticatedKeepsCommand(env: Environment, h: seq<Exchange>, session: Session, tag: string, c: Command)
    ensures RespondAuthenticated(env, h, session, tag, c).command == c
  {
    if SelectedOf(h).Some? {
      SelectedKeepsCommand(SelectedOf(h).value, tag, c);
    }
  }

  lemma RespondKeepsCommand(env: Environment, h: seq<Exchange>, tag: string, c: Command)
    ensures Respond(env, h, tag, c).command == c
  {
    if SessionOf(h).Some? {
      AuthenticatedKeepsCommand(env, h, SessionOf(h).value, tag, c);
    }
  }

  lemma AppendAnswered(env: Environment, h: seq<Exchange>, tag: string, c: Command)
    requires Legitimate(env, h)
    ensures Legitimate(env, h + [Respond(env, h, tag, c)])
  {
    var e := Respond(env, h, tag, c);
    var h' := h + [e];
    RespondKeepsCommand(env, h, tag, c);
    forall i | 0 <= i < |h'|
      ensures Answered(env, h', i)
    {
      if i < |h| {
        assert Answered(env, h, i);
        var t :| h[i] == Respond(env, h[..i], t, h[i].command);
        assert h'[..i] == h[..i];
        assert h'[i] == Respond(env, h'[..i], t, h'[i].command);
      } else {
        assert h'[..i] == h;
        assert h'[i] == Respond(env, h'[..i], tag, h'[i].command);
      }
    }
  }

  lemma {:induction false} ConversationsAreLegitimate(env: Environment, h: seq<Exchange>, sent: seq<OutLine>,
                                                      stream: string)
    requires Legitimate(env, h)
    ensures Legitimate(env, Converse(env, h, sent, stream).0)
    decreases |stream|
  {
    var raw := Line(stream);
    if !LoggedOut(h) && raw != "" && |raw| <= MAX_LINE_BYTES {
      var line := StripLineEnd(raw);
      var parts := SplitWords(line, 2);
      if Strip(line) != "" && |parts| >= 2 {
        AppendAnswered(env, h, parts[0], ParseCommand(parts[1], if |parts| > 2 then parts[2] else ""));
      }
      var (h', sent', raised) := AfterLine(env, h, sent, line);
      if !raised {
        ConversationsAreLegitimate(env, h', sent', Rest(stream));
      }
    }
  }

  lemma SelectedEffect(mb: ImapMailbox, tag: string, c: Command)
    requires c.Close? || c.Uid? || c.Search? || c.Fetch?
    ensures var e := RespondSelected(mb, tag, c);
            e.effect == if c.Close? then Closed else Nothing
  {
    if !c.Close? {
      SelectedChangesNothing(mb, tag, c);
    }
  }

  /** The folder a SELECT or EXAMINE names. */
  function FolderNamed(args: string): Option<FolderName>
  {
    NormalizeFolder(ImapArgs.Unquote(Strip(args)))
  }

  lemma SelectEffect(env: Environment, h: seq<Exchange>, session: Session, tag: string, args: string)
    ensures var e := RespondSelect(env, h, session, tag, args);
            e.effect.Opened? || e.effect.Nothing?
    ensures var e := RespondSelect(env, h, session, tag, args);
            e.effect.Opened? ==>
              && FolderNamed(args).Some?
              && e.effect.mailbox == VirtualMailbox.Select(env.items(|h|), session.profileId, FolderNamed(args).value)
  {
  }

  lemma UnselectedEffect(env: Environment, h: seq<Exchange>, session: Session, tag: string, c: Command)
    requires c.List? || c.Status? || (!c.Select? && SelectedOf(h).None?)
    ensures RespondAuthenticated(env, h, session, tag, c).effect == Nothing
  {
  }

  /** What effect a command of a logged-in client can have. */
  lemma AuthenticatedEffect(env: Environment, h: seq<Exchange>, session: Session, tag: string, c: Command)
    requires NeedsLogin(c)
    ensures var f := RespondAuthenticated(env, h, session, tag, c).effect;
            if c.Select? then f == RespondSelect(env, h, session, tag, c.args).effect
            else f == if c.Close? && SelectedOf(h).Some? then Closed else Nothing
  {
    if c.List? || c.Status? || (!c.Select? && SelectedOf(h).None?) {
      UnselectedEffect(env, h, session, tag, c);
    } else if !c.Select? {
      SelectedEffect(SelectedOf(h).value, tag, c);
    }
  }

  /** Only LOGIN before any session logs in, only SELECT of a logged-in client opens a
      mailbox, always a fresh snapshot of the folder it names, and only CLOSE closes. */
  lemma {:induction false} EffectOf(env: Environment, h: seq<Exchange>, tag: string, c: Command)
    ensures var f := Respond(env, h, tag, c).effect;
            && (f.LoggedIn? ==> c.Login? && StateOf(h) == NOT_AUTH)
            && (f.Opened? ==>
                  && c.Select? && SessionOf(h).Some? && !LoggedOut(h)
                  && FolderNamed(c.args).Some?
                  && f.mailbox == VirtualMailbox.Select(env.items(|h|), SessionOf(h).value.profileId,
                                                        FolderNamed(c.args).value))
            && (f.Closed? ==> c.Close? && SelectedOf(h).Some? && !LoggedOut(h))
  {
    if NeedsLogin(c) && !LoggedOut(h) && SessionOf(h).Some? {
      AuthenticatedEffect(env, h, SessionOf(h).value, tag, c);
      if c.Select? {
        SelectEffect(env, h, SessionOf(h).value, tag, c.args);
      }
    }
  }

  lemma {:induction false} SessionOfPrefix(h: seq<Exchange>, i: nat)
    requires i <= |h| && SessionOf(h[..i]).Some?
    ensures SessionOf(h) == SessionOf(h[..i])
  {
    assert h[..i][0] == h[0];
    if !h[0].effect.LoggedIn? {
      assert h[..i][1..] == h[1..][..i - 1];
      SessionOfPrefix(h[1..], i - 1);
    }
  }

  /** Exchange m opened the mailbox selected at the end of h. */
  predicate OpenSince(h: seq<Exchange>, m: nat)
  {
    && m < |h|
    && h[m].effect.Opened?
    && forall j | m < j < |h| :: !h[j].effect.Opened? && !h[j].effect.Closed?
  }

  lemma {:induction false} OpenSelection(h: seq<Exchange>, m: nat)
    requires OpenSince(h, m)
    ensures SelectedOf(h) == Some(h[m].effect.mailbox)
  {
    if m < |h| - 1 {
      assert OpenSince(h[..|h| - 1], m);
      OpenSelection(h[..|h| - 1], m);
    }
  }

  lemma {:induction false} SelectionFound(h: seq<Exchange>) returns (m: nat)
    requires SelectedOf(h).Some?
    ensures OpenSince(h, m)
  {
    if h[|h| - 1].effect.Opened? {
      m := |h| - 1;
    } else {
      m := SelectionFound(h[..|h| - 1]);
    }
  }

  /** A mailbox is selected exactly when some SELECT succeeded with no successful SELECT or
      CLOSE after it, and then it is that SELECT's snapshot. */
  lemma SelectionMeaning(h: seq<Exchange>)
    ensures SelectedOf(h).Some? <==> exists m: nat :: OpenSince(h, m)
    ensures forall m: nat | OpenSince(h, m) :: SelectedOf(h) == Some(h[m].effect.mailbox)
  {
    forall m: nat | OpenSince(h, m)
      ensures SelectedOf(h) == Some(h[m].effect.mailbox)
    {
      OpenSelection(h, m);
    }
    if SelectedOf(h).Some? {
      var m := SelectionFound(h);
    }
  }

  /** In every conversation the selected mailbox is the snapshot its SELECT took of the item
      table: of the folder that SELECT named, for the profile of the conversation's session. */
  lemma SelectedIsSnapshot(env: Environment, h: seq<Exchange>) returns (m: nat)
    requires Legitimate(env, h) && SelectedOf(h).Some?
    ensures OpenSince(h, m) && h[m].command.Select? && FolderNamed(h[m].command.args).Some? && SessionOf(h).Some?
    ensures SelectedOf(h).value == Snapshot(env, h, m)
  {
    SelectionMeaning(h);
    m :| OpenSince(h, m);
    assert Answered(env, h, m);
    var tag :| h[m] == Respond(env, h[..m], tag, h[m].command);
    EffectOf(env, h[..m], tag, h[m].command);
    SessionOfPrefix(h, m);
  }

  /** What the folder named by exchange m held when it was answered, for the session of h. */
  function Snapshot(env: Environment, h: seq<Exchange>, m: nat): ImapMailbox
    requires m < |h| && h[m].command.Select? && FolderNamed(h[m].command.args).Some? && SessionOf(h).Some?
  {
    VirtualMailbox.Select(env.items(m), SessionOf(h).value.profileId, FolderNamed(h[m].command.args).value)
  }

  /** At most one LOGIN succeeds in a conversation. */
  lemma OneLogin(env: Environment, h: seq<Exchange>, i: nat, j: nat)
    requires Legitimate(env, h) && i < j < |h| && h[i].effect.LoggedIn?
    ensures !h[j].effect.LoggedIn?
  {
    assert Answered(env, h, j);
    var tag :| h[j] == Respond(env, h[..j], tag, h[j].command);
    EffectOf(env, h[..j], tag, h[j].command);
    SessionKnown(h[..j], i);
    if SelectedOf(h[..j]).None? && !LoggedOut(h[..j]) {
      assert StateOf(h[..j]) == AUTH;
    }
  }

  lemma {:induction false} SessionKnown(h: seq<Exchange>, i: nat)
    requires i < |h| && h[i].effect.LoggedIn?
    ensures SessionOf(h).Some?
  {
    if i > 0 {
      SessionKnown(h[1..], i - 1);
    }
  }

  /** What the conversation's invariants say about the protocol state: SELECTED implies a
      mailbox and a session, AUTH a session and no mailbox, NOT_AUTH neither. */
  lemma StateInvariant(env: Environment, h: seq<Exchange>)
    requires Legitimate(env, h)
    ensures StateOf(h) == SELECTED ==> SelectedOf(h).Some? && SessionOf(h).Some?
    ensures StateOf(h) == AUTH ==> SelectedOf(h).None? && SessionOf(h).Some?
    ensures StateOf(h) == NOT_AUTH ==> SelectedOf(h).None? && SessionOf(h).None?
  {
    if SelectedOf(h).Some? {
      var m := SelectedIsSnapshot(env, h);
    }
  }

  /** The last line sent is a completion OK. */
  predicate CompletedOk(e: Exchange)
  {
    e.lines != [] && e.lines[|e.lines| - 1].Tagged? && e.lines[|e.lines| - 1].completion == Ok
  }

  lemma FetchReads(c: Command, mb: ImapMailbox, tag: string, args: string, byUid: bool)
    requires CompletedOk(RespondFetchArgs(c, mb, tag, args, byUid))
    ensures var parts, e := SplitWords(Strip(args), 1), RespondFetchArgs(c, mb, tag, args, byUid);
            && |parts| == 2
            && Lines(if byUid then UidFetch(mb, parts[0]) else ImapSets.Fetch(mb, parts[0])).Some?
            && e.lines == Plains(Lines(if byUid then UidFetch(mb, parts[0]) else ImapSets.Fetch(mb, parts[0])).value)
                          + [Tagged(tag, Ok)]
  {
  }

  lemma UidReads(mb: ImapMailbox, tag: string, args: string)
    requires CompletedOk(RespondUid(mb, tag, args))
    ensures var q := QueryOf(Uid(args));
            && q.Some? && Answer(mb, q.value).Some?
            && RespondUid(mb, tag, args).lines == Plains(Answer(mb, q.value).value) + [Tagged(tag, Ok)]
  {
    var c, words := Uid(args), SplitWords(Strip(args), 1);
    var sub, more := Upper(words[0]), if |words| > 1 then words[1] else "";
    if sub == "FETCH" {
      FetchReads(c, mb, tag, more, true);
    } else {
      assert sub == "SEARCH";
    }
  }

  /** A reading command that completes OK asks something, and is answered. */
  lemma {:induction false} SelectedReads(mb: ImapMailbox, tag: string, c: Command)
    requires Reads(c) && CompletedOk(RespondSelected(mb, tag, c))
    ensures var q := QueryOf(c);
            && q.Some? && Answer(mb, q.value).Some?
            && RespondSelected(mb, tag, c).lines == Plains(Answer(mb, q.value).value) + [Tagged(tag, Ok)]
  {
    if c.Uid? {
      UidReads(mb, tag, c.args);
    } else if c.Fetch? {
      FetchReads(c, mb, tag, c.args, false);
    }
  }

  /** Only a logged-in client with a selected mailbox reads. */
  lemma {:induction false} ReadingNeedsSelection(env: Environment, h: seq<Exchange>, tag: string, c: Command)
    requires Reads(c) && CompletedOk(Respond(env, h, tag, c))
    ensures SelectedOf(h).Some? && Respond(env, h, tag, c) == RespondSelected(SelectedOf(h).value, tag, c)
  {
    if LoggedOut(h) || SessionOf(h).None? || SelectedOf(h).None? {
      ReadingRefused(env, h, tag, c);
      assert false;
    }
  }

  lemma ReadingRefused(env: Environment, h: seq<Exchange>, tag: string, c: Command)
    requires Reads(c) && (LoggedOut(h) || SessionOf(h).None? || SelectedOf(h).None?)
    ensures !CompletedOk(Respond(env, h, tag, c))
  {
  }

  lemma LegitimatePrefix(env: Environment, h: seq<Exchange>, n: nat)
    requires n <= |h| && Legitimate(env, h)
    ensures Legitimate(env, h[..n])
  {
    forall i | 0 <= i < n
      ensures Answered(env, h[..n], i)
    {
      assert Answered(env, h, i);
      var tag :| h[i] == Respond(env, h[..i], tag, h[i].command);
      assert h[..n][..i] == h[..i];
      assert h[..n][i] == Respond(env, h[..n][..i], tag, h[..n][i].command);
    }
  }

  /** A FETCH, UID FETCH, SEARCH or UID SEARCH that completes OK is answered from the snapshot
      the last SELECT took of the folder it named, whatever happened to the item table since,
      with exactly the lines that snapshot gives for what the command asks. */
  lemma {:induction false} ReadsServeSnapshot(env: Environment, h: seq<Exchange>, i: nat) returns (m: nat, tag: string)
    requires Legitimate(env, h) && i < |h| && Reads(h[i].command) && CompletedOk(h[i])
    ensures OpenSince(h[..i], m) && h[m].command.Select? && FolderNamed(h[m].command.args).Some?
    ensures SessionOf(h[..i]).Some?
    ensures var q, mb := QueryOf(h[i].command), Snapshot(env, h[..i], m);
            && q.Some? && Answer(mb, q.value).Some?
            && h[i].lines == Plains(Answer(mb, q.value).value) + [Tagged(tag, Ok)]
  {
    assert Answered(env, h, i);
    tag :| h[i] == Respond(env, h[..i], tag, h[i].command);
    LegitimatePrefix(env, h, i);
    ReadingNeedsSelection(env, h[..i], tag, h[i].command);
    SelectedReads(SelectedOf(h[..i]).value, tag, h[i].command);
    m := SelectedIsSnapshot(env, h[..i]);
  }

  // ---------------------------------------------------------------- mutating commands are inert

  lemma MutationWords(word: string, args: string)
    requires Upper(word) in MUTATIONS
    ensures ParseCommand(word, args) == Mutation
  {
  }

  /** A line whose command is a mutating word, in any case, is answered with one NO carrying its
      tag, after any history, and changes neither session, selection nor state. */
  lemma {:induction false} MutatingLine(env: Environment, h: seq<Exchange>, sent: seq<OutLine>, line: string)
    requires |SplitWords(line, 2)| >= 2 && Upper(SplitWords(line, 2)[1]) in MUTATIONS
    ensures var tag := SplitWords(line, 2)[0];
            var e := Done(Mutation, [], tag, No);
            && AfterLine(env, h, sent, line) == (h + [e], sent + e.lines, false)
            && e.lines == [Tagged(tag, No)]
            && SameMeaning(h, h + [e])
  {
    var parts := SplitWords(line, 2);
    BlankHasNoWords(line, 2);
    MutationWords(parts[1], if |parts| > 2 then parts[2] else "");
    var e := Done(Mutation, [], parts[0], No);
    assert e.lines == [Tagged(parts[0], No)];
    AppendExchange(h, e);
  }

  function WithoutMutations(h: seq<Exchange>): seq<Exchange>
  {
    if h == [] then []
    else
      var rest := WithoutMutations(h[..|h| - 1]);
      if h[|h| - 1].command.Mutation? then rest else rest + [h[|h| - 1]]
  }

  /** Environments whose tables and credentials do not change during the conversation. */
  ghost predicate Steady(env: Environment)
  {
    forall i: nat, j: nat ::
      env.items(i) == env.items(j) && forall u, p :: env.authenticate(i, u, p) == env.authenticate(j, u, p)
  }

  ghost predicate SameMeaning(h: seq<Exchange>, g: seq<Exchange>)
  {
    && SessionOf(h) == SessionOf(g) && SelectedOf(h) == SelectedOf(g)
    && (LoggedOut(h) <==> LoggedOut(g)) && StateOf(h) == StateOf(g)
  }

  lemma {:induction false} MutationRefused(env: Environment, h: seq<Exchange>, i: nat)
    requires Legitimate(env, h) && i < |h| && h[i].command.Mutation?
    ensures Neutral(h[i]) && exists tag :: h[i] == Done(Mutation, [], tag, No)
  {
    assert Answered(env, h, i);
    var tag :| h[i] == Respond(env, h[..i], tag, h[i].command);
    assert h[i] == Done(Mutation, [], tag, No);
  }

  /** In every conversation the mutating commands are refused with NO, and session, selection
      and state are those of the conversation without them. */
  lemma {:induction false} MutationsAreInert(env: Environment, h: seq<Exchange>)
    requires Legitimate(env, h)
    ensures forall i | 0 <= i < |h| && h[i].command.Mutation? :: exists tag :: h[i] == Done(Mutation, [], tag, No)
    ensures SameMeaning(h, WithoutMutations(h))
  {
    forall i | 0 <= i < |h| && h[i].command.Mutation?
      ensures exists tag :: h[i] == Done(Mutation, [], tag, No)
    {
      MutationRefused(env, h, i);
    }
    if h != [] {
      var front, last := h[..|h| - 1], h[|h| - 1];
      assert h == front + [last];
      LegitimatePrefix(env, h, |h| - 1);
      MutationsAreInert(env, front);
      if last.command.Mutation? {
        MutationRefused(env, h, |h| - 1);
        NeutralExchange(front, last);
        AppendExchange(front, last);
        assert WithoutMutations(h) == WithoutMutations(front);
      } else {
        SameMeaningOn(front, WithoutMutations(front), last);
      }
    }
  }

  lemma SameMeaningOn(h: seq<Exchange>, g: seq<Exchange>, e: Exchange)
    requires SameMeaning(h, g)
    ensures SameMeaning(h + [e], g + [e])
  {
    AppendExchange(h, e);
    AppendExchange(g, e);
  }

  /** In a steady environment a client that leaves out its mutating commands is answered
      exactly as if it had sent them. */
  lemma {:induction false} AnswersIgnoreMutations(env: Environment, h: seq<Exchange>, tag: string, c: Command)
    requires Legitimate(env, h) && Steady(env)
    ensures Respond(env, h, tag, c) == Respond(env, WithoutMutations(h), tag, c)
  {
    MutationsAreInert(env, h);
    var g := WithoutMutations(h);
    assert env.items(|h|) == env.items(|g|);
    forall u, p
      ensures env.authenticate(|h|, u, p) == env.authenticate(|g|, u, p)
    {
      assert env.items(|h|) == env.items(|g|);
    }
  }

  /** Every item table the connection may read is one the sync service produced, and later
      ones extend earlier ones. */
  ghost predicate SyncedTables(env: Environment)
  {
    && (forall i: nat :: Numbered(env.items(i)))
    && (forall i: nat, j: nat | i <= j :: env.items(i) <= env.items(j))
  }

  lemma OpenedIsSnapshot(env: Environment, h: seq<Exchange>, i: nat)
    requires Legitimate(env, h) && i < |h| && h[i].effect.Opened?
    ensures SessionOf(h).Some?
    ensures var mb := h[i].effect.mailbox;
            mb == VirtualMailbox.Select(env.items(i), SessionOf(h).value.profileId, mb.name)
  {
    assert Answered(env, h, i);
    var tag :| h[i] == Respond(env, h[..i], tag, h[i].command);
    EffectOf(env, h[..i], tag, h[i].command);
    SessionOfPrefix(h, i);
  }

  /** Within a conversation over synced tables, a later SELECT of the same folder shows what an
      earlier one showed, with the same UIDs and sequence numbers, and appends messages whose
      UIDs are at least the UIDNEXT announced earlier (section 2.3.1.1 of RFC 3501). */
  lemma SelectsOnlyGrow(env: Environment, h: seq<Exchange>, i: nat, j: nat)
    requires Legitimate(env, h) && SyncedTables(env)
    requires i < j < |h| && h[i].effect.Opened? && h[j].effect.Opened?
    requires h[i].effect.mailbox.name == h[j].effect.mailbox.name
    ensures var earlier, later := h[i].effect.mailbox, h[j].effect.mailbox;
            && WellFormed(earlier.messages) && WellFormed(later.messages)
            && earlier.uidValidity == later.uidValidity
            && earlier.messages <= later.messages
            && forall k | |earlier.messages| <= k < |later.messages| :: later.messages[k].uid >= earlier.UidNext()
  {
    OpenedIsSnapshot(env, h, i);
    OpenedIsSnapshot(env, h, j);
    ExtensionGrowsFolder(env.items(i), env.items(j), SessionOf(h).value.profileId, h[i].effect.mailbox.name);
  }
}
