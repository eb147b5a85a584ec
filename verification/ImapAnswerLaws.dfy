/** What the IMAP connection answers, told by the words a client writes and the rows it may see. */
module ImapAnswerLaws {
  import opened Options
  import opened Text
  import opened LineStream
  import opened Policy
  import opened MailboxSync
  import opened MailboxSyncLaws
  import opened VirtualMailbox
  import opened ImapSets
  import opened ImapSetLaws
  import opened ImapArgs
  import opened ImapConnection
  import opened ImapConversationLaws

  // ---------------------------------------------------------------- words

  /** The commands by their names, in any case. */
  lemma Words(word: string, args: string)
    ensures var c := ParseCommand(word, args);
            && (Upper(word) == "CAPABILITY" ==> c == Capability) && (Upper(word) == "NOOP" ==> c == Noop)
            && (Upper(word) == "LOGOUT" ==> c == Logout) && (Upper(word) == "LOGIN" ==> c == Login(args))
            && (Upper(word) == "AUTHENTICATE" ==> c == Authenticate) && (Upper(word) == "LIST" ==> c == List)
            && (Upper(word) == "SELECT" ==> c == Command.Select(args))
            && (Upper(word) == "EXAMINE" ==> c == Command.Select(args))
            && (Upper(word) == "STATUS" ==> c == Status(args)) && (Upper(word) == "CLOSE" ==> c == Close)
            && (Upper(word) == "UID" ==> c == Uid(args)) && (Upper(word) == "SEARCH" ==> c == Search(args))
            && (Upper(word) == "FETCH" ==> c == Fetch(args))
  {
  }

  /** The commands that would change a mailbox are all recognised as such. */
  lemma MutatingWords(word: string, args: string)
    requires Upper(word) in {"STORE", "COPY", "MOVE", "APPEND", "EXPUNGE", "CREATE", "DELETE", "RENAME", "SUBSCRIBE",
                             "UNSUBSCRIBE", "LSUB", "SETACL", "DELETEACL", "SETMETADATA", "SETQUOTA", "SORT"}
    ensures ParseCommand(word, args) == Mutation
  {
    MutationWords(word, args);
  }

  predicate IsText(s: string)
  {
    s != "" && !IsSpace(s[0])
  }

  lemma LStripKeeps(s: string)
    requires s == "" || !IsSpace(s[0])
    ensures LStrip(s) == s && LStrip([' '] + s) == s
  {
    assert ([' '] + s)[1..] == s;
  }

  lemma {:induction false} WordOf(word: string, tail: string)
    requires IsWord(word) && (tail == "" || IsSpace(tail[0]))
    ensures Word(word + tail) == word
  {
    var s := word + tail;
    if |word| == 1 {
      assert s[1..] == tail;
      assert Word(tail) == "";
    } else {
      WordOf(word[1..], tail);
      assert s[1..] == word[1..] + tail;
    }
  }

  /** A word and what follows one space is split into both. */
  lemma FirstWord(word: string, text: string, n: nat)
    requires IsWord(word) && IsText(text) && n > 0
    ensures SplitWords(word + [' '] + text, n) == [word] + SplitWords(text, n - 1)
  {
    var s := word + [' '] + text;
    LStripKeeps(s);
    assert s == word + ([' '] + text);
    WordOf(word, [' '] + text);
    assert s[|word|..] == [' '] + text;
    LStripKeeps(text);
    SplitPadded(text, n - 1);
  }

  lemma SplitPadded(text: string, n: nat)
    requires IsText(text)
    ensures SplitWords([' '] + text, n) == SplitWords(text, n)
    ensures SplitWords(text, 0) == [text]
  {
    LStripKeeps(text);
  }

  /** A command line "tag word arguments" is read as tag, command and arguments. */
  lemma LineRead(tag: string, word: string, args: string)
    requires IsWord(tag) && IsWord(word) && IsText(args)
    ensures var line := tag + [' '] + (word + [' '] + args);
            && SplitWords(line, 2) == [tag, word, args]
            && CommandIn(line) == ParseCommand(word, args)
  {
    FirstWord(tag, word + [' '] + args, 2);
    FirstWord(word, args, 1);
    SplitPadded(args, 0);
  }

  /** The queries of FETCH, UID FETCH, SEARCH and UID SEARCH, as clients write them, the word
      after UID in any case. */
  lemma {:induction false} QueriesWritten(word: string, numbers: string, items: string, criteria: string)
    requires IsWord(word) && IsWord(numbers) && IsText(items) && !IsSpace(items[|items| - 1])
    requires IsText(criteria) && !IsSpace(criteria[|criteria| - 1])
    ensures QueryOf(Fetch(numbers + [' '] + items)) == Some(FetchNumbers(numbers))
    ensures QueryOf(Search(criteria)) == Some(FindNumbers(criteria))
    ensures Upper(word) == "FETCH" ==>
              QueryOf(Uid(word + [' '] + (numbers + [' '] + items))) == Some(FetchUids(numbers))
    ensures Upper(word) == "SEARCH" ==> QueryOf(Uid(word + [' '] + criteria)) == Some(FindUids(criteria))
  {
    FetchWritten(numbers, items);
    UidWritten(word, numbers + [' '] + items);
    UidWritten(word, criteria);
  }

  lemma FetchWritten(numbers: string, items: string)
    requires IsWord(numbers) && IsText(items) && !IsSpace(items[|items| - 1])
    ensures var args := numbers + [' '] + items;
            SplitWords(Strip(args), 1) == [numbers, items] && IsText(args) && !IsSpace(args[|args| - 1])
  {
    var args := numbers + [' '] + items;
    StripKeeps(args);
    FirstWord(numbers, items, 1);
    SplitPadded(items, 0);
  }

  lemma UidWritten(sub: string, more: string)
    requires IsWord(sub) && IsText(more) && !IsSpace(more[|more| - 1])
    ensures Upper(sub) == "SEARCH" ==> QueryOf(Uid(sub + [' '] + more)) == Some(FindUids(more))
    ensures var parts := SplitWords(Strip(more), 1);
            Upper(sub) == "FETCH" && |parts| == 2 ==> QueryOf(Uid(sub + [' '] + more)) == Some(FetchUids(parts[0]))
  {
    FetchWritten(sub, more);
  }

  // ---------------------------------------------------------------- folders by name

  /** The mailbox serves exactly the profile's rows with one of these visibilities. */
  ghost predicate ServesExactly(mb: ImapMailbox, items: seq<Item>, profile: int, shown: set<Visibility>)
  {
    && WellFormed(mb.messages)
    && forall item :: Serves(mb, item) <==> item in items && item.key.profile == profile && item.visibility in shown
  }

  /** What each folder name stands for: INBOX for the visible messages, and the quarantine
      folder for the quarantined and the hidden ones; no other name stands for anything. */
  ghost predicate NamedServes(name: string, mb: ImapMailbox, items: seq<Item>, profile: int)
  {
    || (Upper(name) == "INBOX" && ServesExactly(mb, items, profile, {Visible}))
    || (Upper(name) == "MINDWALL/QUARANTINE" && ServesExactly(mb, items, profile, {Quarantined, Hidden}))
  }

  predicate KnownName(name: string)
  {
    Upper(name) == "INBOX" || Upper(name) == "MINDWALL/QUARANTINE"
  }

  lemma UpperQuarantine()
    ensures Upper("Mindwall/Quarantine") == "MINDWALL/QUARANTINE"
  {
  }

  lemma NameNormalized(name: string)
    ensures NormalizeFolder(name).Some? <==> KnownName(name)
    ensures NormalizeFolder(name) == Some(Inbox) ==> Upper(name) == "INBOX"
    ensures NormalizeFolder(name) == Some(QuarantineFolder) ==> Upper(name) == "MINDWALL/QUARANTINE"
  {
    UpperQuarantine();
  }

  lemma FolderServes(name: string, items: seq<Item>, profile: int)
    requires Numbered(items) && KnownName(name)
    ensures NormalizeFolder(name).Some?
    ensures NamedServes(name, VirtualMailbox.Select(items, profile, NormalizeFolder(name).value), items, profile)
  {
    NameNormalized(name);
    var folder := NormalizeFolder(name).value;
    var mb := VirtualMailbox.Select(items, profile, folder);
    forall item
      ensures Serves(mb, item) <==> item in items && item.key.profile == profile && Belongs(item.visibility, folder)
    {
      ServedIffBelongs(items, profile, folder, item);
    }
    SelectIsMatching(items, profile, folder);
    OrderedServesWellFormed(LoadItems(items, profile, folder));
    ShownIn(folder);
  }

  lemma ShownIn(folder: FolderName)
    ensures forall v :: Belongs(v, folder) <==> v in if folder == Inbox then {Visible} else {Quarantined, Hidden}
  {
  }

  /** SELECT and EXAMINE of a logged-in client, over synced tables, by the name it writes: a known
      folder is opened with the rows the name stands for and announced with its number of
      messages, UIDVALIDITY and UIDNEXT; any other name is refused and changes nothing. */
  lemma {:induction false} SelectByName(env: Environment, h: seq<Exchange>, tag: string, args: string)
    requires !LoggedOut(h) && SessionOf(h).Some? && Numbered(env.items(|h|))
    ensures var e, name := Respond(env, h, tag, Command.Select(args)), Unquote(Strip(args));
            if KnownName(name) then
              && e.effect.Opened? && !e.raised
              && NamedServes(name, e.effect.mailbox, env.items(|h|), SessionOf(h).value.profileId)
              && Announces(e.lines, tag, e.effect.mailbox)
            else
              e.effect == Nothing && e.lines == [Tagged(tag, if name == "" then Bad else No)]
  {
    var name := Unquote(Strip(args));
    NameNormalized(name);
    SelectResponds(env, h, tag, args);
    if KnownName(name) {
      FolderServes(name, env.items(|h|), SessionOf(h).value.profileId);
      var mb := VirtualMailbox.Select(env.items(|h|), SessionOf(h).value.profileId, NormalizeFolder(name).value);
      SelectAnnounces(tag, mb);
    } else {
      assert Plains([]) == [];
    }
  }

  lemma SelectResponds(env: Environment, h: seq<Exchange>, tag: string, args: string)
    requires !LoggedOut(h) && SessionOf(h).Some?
    ensures Respond(env, h, tag, Command.Select(args)) == RespondSelect(env, h, SessionOf(h).value, tag, args)
  {
  }

  /** The untagged lines of a SELECT tell the number of messages, the UIDVALIDITY and one past
      the greatest UID, once each; then the command is completed with OK. */
  ghost predicate Announces(lines: seq<OutLine>, tag: string, mb: ImapMailbox)
  {
    && lines != [] && lines[|lines| - 1] == Tagged(tag, Ok)
    && (forall n :: Plain(ExistsLine(n)) in lines <==> n == |mb.messages|)
    && (forall v :: Plain(UidValidityLine(v)) in lines <==> v == mb.uidValidity)
    && (forall u :: Plain(UidNextLine(u)) in lines <==> u == if mb.messages == [] then 1 else MaxUid(mb.messages) + 1)
  }

  lemma SelectAnnounces(tag: string, mb: ImapMailbox)
    ensures Announces(DoneLines(SelectLines(mb), tag, Ok), tag, mb)
  {
    var lines := DoneLines(SelectLines(mb), tag, Ok);
    assert lines == [Plain(ExistsLine(|mb.messages|)), Plain(RecentLine), Plain(UnseenLine),
                     Plain(UidValidityLine(mb.uidValidity)), Plain(UidNextLine(mb.UidNext())), Plain(FlagsLine),
                     Plain(PermanentFlagsLine), Tagged(tag, Ok)];
  }

  /** One past the last UID of a mailbox. */
  lemma UidNextMeaning(mb: ImapMailbox)
    requires WellFormed(mb.messages)
    ensures mb.UidNext() == if mb.messages == [] then 1 else mb.messages[|mb.messages| - 1].uid + 1
  {
    if mb.messages != [] {
      var i :| 0 <= i < |mb.messages| && mb.messages[i].uid == MaxUid(mb.messages);
    }
  }

  /** A message carries the virtual UID of its row. */
  lemma MessageUid(items: seq<Item>, profile: int, folder: FolderName, i: nat)
    requires Numbered(items) && i < |VirtualMailbox.Select(items, profile, folder).messages|
    ensures var m := VirtualMailbox.Select(items, profile, folder).messages[i];
            m.item.mindwallUid == Some(m.uid) && m.seqNum == i + 1
  {
    SelectIsMatching(items, profile, folder);
    var loaded := LoadItems(items, profile, folder);
    assert loaded[i].mindwallUid.Some?;
    assert Messages(loaded)[i] == Message(loaded[i], i + 1);
  }

  /** The UIDVALIDITY of a profile's folders, below the point where it wraps. */
  lemma ValidityFormula(profile: int)
    requires 0 <= profile < 424_000_000
    ensures FolderUidValidity(profile, Inbox) == 1297566768 + 2 * profile
    ensures FolderUidValidity(profile, QuarantineFolder) == 1297566769 + 2 * profile
  {
  }

  // ---------------------------------------------------------------- STATUS

  /** The number an item of a STATUS answer holds. */
  ghost predicate StatusNumber(mb: ImapMailbox, item: string, v: int)
  {
    || (item == "MESSAGES" && v == |mb.messages|)
    || (item == "UIDNEXT" && v == if mb.messages == [] then 1 else MaxUid(mb.messages) + 1)
    || (item == "UIDVALIDITY" && v == mb.uidValidity)
    || ((item == "UNSEEN" || item == "RECENT") && v == 0)
  }

  lemma {:induction false} StatusAnswers(requested: seq<string>, mb: ImapMailbox)
    ensures forall item, v ::
              (item, v) in StatusItems(requested, mb) <==> item in requested && StatusNumber(mb, item, v)
  {
    if requested != [] {
      var front := requested[..|requested| - 1];
      assert requested == front + [requested[|requested| - 1]];
      StatusAnswers(front, mb);
    }
  }

  /** STATUS of a logged-in client answers exactly the requested numbers of the rows the name
      stands for, and changes nothing. */
  lemma {:induction false} StatusByName(env: Environment, h: seq<Exchange>, tag: string, args: string, name: string,
                                        requested: seq<string>) returns (mb: ImapMailbox)
    requires !LoggedOut(h) && SessionOf(h).Some? && Numbered(env.items(|h|))
    requires env.statusArgs(Strip(args)) == Some((name, requested))
    ensures Respond(env, h, tag, Status(args)).effect == Nothing
    ensures KnownName(name) ==>
              && NamedServes(name, mb, env.items(|h|), SessionOf(h).value.profileId)
              && Respond(env, h, tag, Status(args)).lines
                 == [Plain(StatusLine(StatusItems(requested, mb))), Tagged(tag, Ok)]
              && forall item, v :: (item, v) in StatusItems(requested, mb)
                                   <==> item in requested && StatusNumber(mb, item, v)
    ensures !KnownName(name) ==> Respond(env, h, tag, Status(args)).lines == [Tagged(tag, No)]
  {
    NameNormalized(name);
    StatusResponds(env, h, tag, args);
    mb := VirtualMailbox.Select(env.items(|h|), SessionOf(h).value.profileId, Inbox);
    if KnownName(name) {
      FolderServes(name, env.items(|h|), SessionOf(h).value.profileId);
      mb := VirtualMailbox.Select(env.items(|h|), SessionOf(h).value.profileId, NormalizeFolder(name).value);
      StatusAnswers(requested, mb);
      assert DoneLines([StatusLine(StatusItems(requested, mb))], tag, Ok)
          == [Plain(StatusLine(StatusItems(requested, mb))), Tagged(tag, Ok)];
    } else {
      assert DoneLines([], tag, No) == [Tagged(tag, No)];
    }
  }

  lemma StatusResponds(env: Environment, h: seq<Exchange>, tag: string, args: string)
    requires !LoggedOut(h) && SessionOf(h).Some?
    ensures Respond(env, h, tag, Status(args)) == RespondStatus(env, h, SessionOf(h).value, tag, args)
  {
  }

  // ---------------------------------------------------------------- FETCH and SEARCH, line by line

  /** Every line of an answer is a FETCH line of some message, in ascending sequence order. */
  ghost predicate AreFetchLines(lines: seq<Untagged>)
  {
    && (forall i | 0 <= i < |lines| :: lines[i].FetchLine?)
    && forall i, j | 0 <= i < j < |lines| :: lines[i].seqNum < lines[j].seqNum
  }

  lemma FetchLinesOf(ms: seq<ImapMessage>, n: int, u: int)
    requires AscendingNumbers(ms)
    ensures AreFetchLines(FetchLines(ms))
    ensures FetchLine(n, u) in FetchLines(ms) <==> exists m | m in ms :: m.seqNum == n && m.uid == u
  {
    var lines := FetchLines(ms);
    if FetchLine(n, u) in lines {
      var i :| 0 <= i < |lines| && lines[i] == FetchLine(n, u);
      assert ms[i] in ms;
    }
    if m :| m in ms && m.seqNum == n && m.uid == u {
      var i :| 0 <= i < |ms| && ms[i] == m;
      assert lines[i] == FetchLine(n, u);
    }
  }

  /** Sequence number n of the mailbox carries UID u. */
  predicate Holds(mb: ImapMailbox, n: int, u: int)
  {
    1 <= n <= |mb.messages| && mb.messages[n - 1].uid == u
  }

  lemma HoldsMessage(mb: ImapMailbox, n: int, u: int)
    requires WellFormed(mb.messages)
    ensures Holds(mb, n, u) <==> exists m | m in mb.messages :: m.seqNum == n && m.uid == u
  {
    if Holds(mb, n, u) {
      assert mb.messages[n - 1] in mb.messages;
    }
  }

  /** FETCH of a printed set answers one line for each message some element of the set takes,
      with its sequence number and UID, and no other. */
  lemma {:induction false} FetchAnswerLists(mb: ImapMailbox, elements: seq<Element>, n: int, u: int)
    requires elements != [] && WellFormed(mb.messages)
    ensures var answer := Answer(mb, FetchNumbers(PrintSet(elements)));
            && answer.Some? && AreFetchLines(answer.value)
            && (FetchLine(n, u) in answer.value <==> Holds(mb, n, u) && SomeTakes(elements, |mb.messages|, n))
  {
    FetchOfPrintedSet(mb, elements);
    FetchLinesOf(ImapSets.Fetch(mb, PrintSet(elements)).value, n, u);
    HoldsMessage(mb, n, u);
  }

  /** The same for UID FETCH. */
  lemma {:induction false} UidFetchAnswerLists(mb: ImapMailbox, elements: seq<Element>, n: int, u: int)
    requires elements != [] && WellFormed(mb.messages) && mb.messages != []
    ensures var answer := Answer(mb, FetchUids(PrintSet(elements)));
            && answer.Some? && AreFetchLines(answer.value)
            && (FetchLine(n, u) in answer.value <==> Holds(mb, n, u) && SomeTakes(elements, MaxUid(mb.messages), u))
  {
    UidFetchOfPrintedSet(mb, elements);
    FetchLinesOf(UidFetch(mb, PrintSet(elements)).value, n, u);
    HoldsMessage(mb, n, u);
  }

  /** SEARCH and UID SEARCH of criteria that are no UID set find every message: by sequence number
      and by UID, in order. */
  lemma {:induction false} SearchFindsAll(mb: ImapMailbox, criteria: string)
    requires WellFormed(mb.messages) && !("UID " <= Upper(Strip(criteria)))
    ensures var numbers := seq(|mb.messages|, i => i + 1);
            Answer(mb, FindNumbers(criteria)) == Some([SearchLine(numbers)])
    ensures Answer(mb, FindUids(criteria)) == Some([SearchLine(ImapSets.Uids(mb.messages))])
  {
    var ms := mb.messages;
    assert ApplySearch(criteria, mb) == Some(ImapSets.Uids(ms));
    forall m | m in ms
      ensures mb.ByUid(m.uid) == Some(m)
    {
      LookupsInverse(ms, m.uid);
    }
    NumbersOfSelected(mb, ms);
    assert seq(|ms|, i requires 0 <= i < |ms| => ms[i].seqNum) == seq(|ms|, i => i + 1);
    SortedStays(ImapSets.Uids(ms));
  }

  lemma {:induction false} SortedStays(s: seq<int>)
    requires Ascending(s)
    ensures Sorted(s) == s
  {
    if s != [] {
      SortedStays(s[1..]);
    }
  }

  /** UID SEARCH of a UID set answers, in ascending order, the UIDs that UID FETCH fetches. */
  lemma {:induction false} UidSearchAnswers(mb: ImapMailbox, s: string, u: int)
    requires WellFormed(mb.messages) && IsWord(s) && UidFetch(mb, s).Some?
    ensures var answer := Answer(mb, FindUids("UID " + s));
            && answer.Some? && |answer.value| == 1 && answer.value[0].SearchLine?
            && Ascending(answer.value[0].numbers)
            && (u in answer.value[0].numbers <==> exists m | m in UidFetch(mb, s).value :: m.uid == u)
  {
    SearchUidCriteria("UID " + s, s, mb);
    UidsMembers(UidFetch(mb, s).value, u);
  }

  lemma UidsMembers(ms: seq<ImapMessage>, u: int)
    ensures u in ImapSets.Uids(ms) <==> exists m | m in ms :: m.uid == u
  {
    if m :| m in ms && m.uid == u {
      var i :| 0 <= i < |ms| && ms[i] == m;
      assert ImapSets.Uids(ms)[i] == u;
    }
    if u in ImapSets.Uids(ms) {
      var i :| 0 <= i < |ms| && ImapSets.Uids(ms)[i] == u;
      assert ms[i] in ms;
    }
  }

  // ---------------------------------------------------------------- numbers and names as written

  /** A sign is read; a single that is no number is passed over. */
  lemma {:induction false} SignedNumbers(n: int)
    requires n >= 0
    ensures ParseInt("-" + Digits(n)) == Some(-n) && ParseInt("+" + Digits(n)) == Some(n)
  {
    SignedNumber('-', n);
    SignedNumber('+', n);
    assert "-" + Digits(n) == ['-'] + Digits(n) && "+" + Digits(n) == ['+'] + Digits(n);
  }

  lemma SignedNumber(sign: char, n: int)
    requires n >= 0
    requires sign == '-' || sign == '+'
    ensures ParseInt([sign] + Digits(n)) == Some(if sign == '-' then -n else n)
  {
    var s := [sign] + Digits(n);
    var d := Digits(n);
    assert s[|s| - 1] == d[|d| - 1] && IsDigit(d[|d| - 1]);
    StripKeeps(s);
    assert s[1..] == d;
    DigitsRoundTrip(n);
  }

  lemma UnreadableSingle(part: string, n: Numbering)
    requires Strip(part) == part && ':' !in part && part != "*" && ParseInt(part).None?
    ensures UidPart(part, n) == Some({}) && SeqPart(part, if n.max < 0 then 0 else n.max) == Some({})
  {
    assert IndexOf(part, ':') == |part|;
  }

  /** Names in double quotes are unquoted, others are left as they are. */
  lemma {:induction false} Unquoting(name: string)
    ensures Unquote("\"" + name + "\"") == name
    ensures Strip(name) == name && '"' !in name ==> Unquote(name) == name
  {
    var s := "\"" + name + "\"";
    assert s[0] == '"' && s[|s| - 1] == '"';
    StripKeeps(s);
    assert s[1..|s| - 1] == name;
  }

  // ---------------------------------------------------------------- LOGIN

  /** LOGIN with quoted credentials, before any login, succeeds exactly when they are valid, and
      the session is theirs; anywhere else it is BAD. */
  lemma {:induction false} LoginByCredentials(env: Environment, h: seq<Exchange>, tag: string, username: string,
                                              password: string, s: Session)
    ensures var e := Respond(env, h, tag, Login(RenderAll([Quoted(username), Quoted(password)])));
            var valid := env.authenticate(|h|, username, password);
            && (e.effect == LoggedIn(s) <==> ImapConnection.StateOf(h) == NOT_AUTH && valid == Some(s))
            && e.lines == [Tagged(tag, if ImapConnection.StateOf(h) != NOT_AUTH then Bad
                                       else if valid.Some? then Ok else No)]
  {
    LoginReadsQuotedCredentials(username, password);
    assert Plains([]) == [];
  }

  // ---------------------------------------------------------------- completions

  /** The commands that need a mailbox, or a login, and are refused without it. */
  lemma {:induction false} RefusedWithout(env: Environment, h: seq<Exchange>, tag: string, c: Command)
    requires c.List? || c.Select? || c.Status? || c.Close? || Reads(c)
    ensures LoggedOut(h) || SessionOf(h).None? ==>
              Respond(env, h, tag, c) == Exchange(c, [Tagged(tag, No)], false, Nothing)
    ensures !LoggedOut(h) && SessionOf(h).Some? && SelectedOf(h).None? && (c.Close? || Reads(c)) ==>
              Respond(env, h, tag, c) == Exchange(c, [Tagged(tag, Bad)], false, Nothing)
  {
    assert Plains([]) == [];
  }

  /** LIST names both folders. */
  lemma {:induction false} ListNamesBoth(env: Environment, h: seq<Exchange>, tag: string)
    requires !LoggedOut(h) && SessionOf(h).Some?
    ensures Respond(env, h, tag, List)
         == Exchange(List, [Plain(ListLine(Inbox)), Plain(ListLine(QuarantineFolder)), Tagged(tag, Ok)], false, Nothing)
  {
    assert DoneLines(FolderLines(), tag, Ok)
        == [Plain(ListLine(Inbox)), Plain(ListLine(QuarantineFolder)), Tagged(tag, Ok)];
  }

  /** CLOSE of a selected mailbox closes it and is completed with OK. */
  lemma {:induction false} CloseCloses(env: Environment, h: seq<Exchange>, tag: string)
    requires !LoggedOut(h) && SessionOf(h).Some? && SelectedOf(h).Some?
    ensures Respond(env, h, tag, Close) == Exchange(Close, [Tagged(tag, Ok)], false, Closed)
    ensures SelectedOf(h + [Respond(env, h, tag, Close)]) == None
  {
    assert Plains([]) == [];
    AppendExchange(h, Respond(env, h, tag, Close));
  }

  /** The commands that are answered the same in every state. */
  lemma {:induction false} AnsweredAnywhere(env: Environment, h: seq<Exchange>, tag: string)
    ensures Respond(env, h, tag, Noop).lines == [Tagged(tag, Ok)]
    ensures Respond(env, h, tag, Capability).lines == [Plain(CapabilityLine), Tagged(tag, Ok)]
    ensures Respond(env, h, tag, Logout).lines == [Plain(ByeLine), Tagged(tag, Ok)]
    ensures Respond(env, h, tag, Authenticate).lines == [Tagged(tag, No)]
    ensures Respond(env, h, tag, Mutation).lines == [Tagged(tag, No)]
    ensures Respond(env, h, tag, Command.Unknown).lines == [Tagged(tag, Bad)]
  {
    JustDone(tag, Ok);
    JustDone(tag, No);
    JustDone(tag, Bad);
    OneLineDone(CapabilityLine, tag);
    OneLineDone(ByeLine, tag);
  }

  lemma JustDone(tag: string, completion: Completion)
    ensures DoneLines([], tag, completion) == [Tagged(tag, completion)]
  {
  }

  lemma OneLineDone(line: Untagged, tag: string)
    ensures DoneLines([line], tag, Ok) == [Plain(line), Tagged(tag, Ok)]
  {
  }

  /** A reading command without its arguments is BAD; UID with a mutating word is NO. */
  lemma {:induction false} UidSubcommands(mb: ImapMailbox, tag: string, args: string)
    ensures SplitWords(Strip(args), 1) == [] ==> RespondUid(mb, tag, args).lines == [Tagged(tag, Bad)]
    ensures var words := SplitWords(Strip(args), 1);
            words != [] && Upper(words[0]) in {"STORE", "COPY", "MOVE", "EXPUNGE"} ==>
              RespondUid(mb, tag, args).lines == [Tagged(tag, No)]
    ensures |SplitWords(Strip(args), 1)| < 2 ==>
              RespondFetchArgs(Fetch(args), mb, tag, args, false).lines == [Tagged(tag, Bad)]
  {
    assert Plains([]) == [];
  }

  // ---------------------------------------------------------------- the end of a conversation

  /** Nothing is read after a LOGOUT, nor past a line of more than 8192 octets. */
  lemma ConversationEnds(env: Environment, h: seq<Exchange>, sent: seq<OutLine>, stream: string)
    ensures LoggedOut(h) || stream == "" ==> Converse(env, h, sent, stream) == (h, sent)
    ensures !LoggedOut(h) && |Line(stream)| > 8192 ==>
              Converse(env, h, sent, stream) == (h, sent + [Plain(TooLongLine)])
  {
  }

  /** A blank line is ignored, and one word alone is refused without a tag. */
  lemma ShortLines(env: Environment, h: seq<Exchange>, sent: seq<OutLine>, line: string)
    ensures Strip(line) == "" ==> AfterLine(env, h, sent, line) == (h, sent, false)
    ensures Strip(line) != "" && |SplitWords(line, 2)| < 2 ==>
              AfterLine(env, h, sent, line) == (h, sent + [Plain(BadLine)], false)
  {
  }

  /** Arguments that cannot be read are BAD: a LOGIN with fewer than two tokens before any login,
      and a STATUS whose arguments do not split. */
  lemma {:induction false} UnreadableArguments(env: Environment, h: seq<Exchange>, tag: string, args: string)
    ensures |Tokens(Strip(args))| < 2 ==>
              Respond(env, h, tag, Login(args)) == Exchange(Login(args), [Tagged(tag, Bad)], false, Nothing)
    ensures !LoggedOut(h) && SessionOf(h).Some? && env.statusArgs(Strip(args)).None? ==>
              Respond(env, h, tag, Status(args)) == Exchange(Status(args), [Tagged(tag, Bad)], false, Nothing)
  {
    JustDone(tag, Bad);
  }
}
