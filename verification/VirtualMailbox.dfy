/** The two virtual IMAP folders built from the item table
    (app/proxies/imap/mailbox.py), and how they evolve under sync. */
module VirtualMailbox {
  import opened Options
  import opened Policy
  import opened MailboxSync
  import opened MailboxSyncLaws

  datatype FolderName = Inbox | QuarantineFolder

  /** A message as served to IMAP clients; the row stands for its stored bytes and envelope. */
  datatype ImapMessage = ImapMessage(uid: int, seqNum: int, item: Item)

  datatype ImapMailbox = ImapMailbox(name: FolderName, uidValidity: int, messages: seq<ImapMessage>) {

    function Exists(): nat { |messages| }

    /** One past the maximum UID; 1 when there is no message. */
    function UidNext(): int
    {
      if messages == [] then 1 else MaxUid(messages) + 1
    }

    /** The first message with this UID. */
    function ByUid(uid: int): Option<ImapMessage>
    {
      FindUid(messages, uid)
    }

    function BySeq(n: int): Option<ImapMessage>
    {
      if 1 <= n <= |messages| then Some(messages[n - 1]) else None
    }
  }

  function MaxUid(ms: seq<ImapMessage>): (m: int)
    requires ms != []
    ensures exists i :: 0 <= i < |ms| && ms[i].uid == m
    ensures forall i | 0 <= i < |ms| :: ms[i].uid <= m
  {
    if |ms| == 1 then ms[0].uid
    else
      var front := MaxUid(ms[..|ms| - 1]);
      if ms[|ms| - 1].uid > front then ms[|ms| - 1].uid else front
  }

  function FindUid(ms: seq<ImapMessage>, uid: int): Option<ImapMessage>
  {
    if ms == [] then None
    else if ms[0].uid == uid then Some(ms[0]) else FindUid(ms[1..], uid)
  }

  // ---------------------------------------------------------------- loading

  predicate Belongs(v: Visibility, folder: FolderName)
  {
    match folder
    case Inbox => v == Visible
    case QuarantineFolder => v == Quarantined || v == Hidden
  }

  /** WHERE mailbox_profile_id = profile AND visibility IN (...), in table order. */
  function Matching(items: seq<Item>, profile: int, folder: FolderName): seq<Item>
  {
    if items == [] then []
    else
      var last := items[|items| - 1];
      Matching(items[..|items| - 1], profile, folder)
      + (if last.key.profile == profile && Belongs(last.visibility, folder) then [last] else [])
  }

  /** ORDER BY mindwall_uid ASC NULLS LAST, id ASC. */
  predicate Before(a: Item, b: Item)
  {
    match (a.mindwallUid, b.mindwallUid)
    case (Some(x), Some(y)) => x < y || (x == y && a.id <= b.id)
    case (Some(_), None) => true
    case (None, Some(_)) => false
    case (None, None) => a.id <= b.id
  }

  /** Insertion from the right, so that equal keys keep their table order. */
  function InsertOrdered(s: seq<Item>, x: Item): seq<Item>
  {
    if s == [] || Before(s[|s| - 1], x) then s + [x]
    else InsertOrdered(s[..|s| - 1], x) + [s[|s| - 1]]
  }

  function OrderBy(s: seq<Item>): seq<Item>
  {
    if s == [] then [] else InsertOrdered(OrderBy(s[..|s| - 1]), s[|s| - 1])
  }

  function LoadItems(items: seq<Item>, profile: int, folder: FolderName): seq<Item>
  {
    OrderBy(Matching(items, profile, folder))
  }

  function Message(item: Item, n: int): ImapMessage
  {
    ImapMessage(if item.mindwallUid.Some? then item.mindwallUid.value else item.id, n, item)
  }

  /** The messages of the loaded rows, numbered from 1. */
  function Messages(items: seq<Item>): seq<ImapMessage>
  {
    seq(|items|, i requires 0 <= i < |items| => Message(items[i], i + 1))
  }

  method BuildImapMessages(items: seq<Item>) returns (messages: seq<ImapMessage>)
    ensures messages == Messages(items)
  {
    messages := [];
    var n := 1;
    for i := 0 to |items|
      invariant n == i + 1
      invariant messages == Messages(items[..i])
    {
      var uid := if items[i].mindwallUid.Some? then items[i].mindwallUid.value else items[i].id;
      messages := messages + [ImapMessage(uid, n, items[i])];
      n := n + 1;
      assert items[..i + 1][..i] == items[..i];
    }
    assert items[..|items|] == items;
  }

  function FolderUidValidity(profile: int, folder: FolderName): int
  {
    var base := 0x4D574C30;
    (if folder == Inbox then base + profile * 2 else base + profile * 2 + 1) % 0x8000_0000
  }

  function Select(items: seq<Item>, profile: int, folder: FolderName): ImapMailbox
  {
    ImapMailbox(folder, FolderUidValidity(profile, folder), Messages(LoadItems(items, profile, folder)))
  }

  method SelectMailbox(items: seq<Item>, profile: int, folder: FolderName) returns (mailbox: ImapMailbox)
    ensures mailbox == Select(items, profile, folder)
  {
    var loaded := LoadItems(items, profile, folder);
    var messages := BuildImapMessages(loaded);
    mailbox := ImapMailbox(folder, FolderUidValidity(profile, folder), messages);
  }

  /** Two folders share a UIDVALIDITY exactly when they have the same name and their profile
      ids differ by a multiple of 2^30. */
  lemma FoldersHaveOwnValidity(p: int, f: FolderName, q: int, g: FolderName)
    ensures FolderUidValidity(p, f) == FolderUidValidity(q, g) <==> f == g && (p - q) % 0x4000_0000 == 0
  {
    var a := 0x4D574C30 + p * 2 + (if f == Inbox then 0 else 1);
    var b := 0x4D574C30 + q * 2 + (if g == Inbox then 0 else 1);
    assert a % 0x8000_0000 == b % 0x8000_0000 <==> (a - b) % 0x8000_0000 == 0;
    if (p - q) % 0x4000_0000 == 0 {
      assert p - q == (p - q) / 0x4000_0000 * 0x4000_0000;
    }
  }

  // ---------------------------------------------------------------- well-formed mailboxes

  /** UIDs strictly ascend and the sequence number is the position. */
  ghost predicate WellFormed(ms: seq<ImapMessage>)
  {
    && (forall i | 0 <= i < |ms| :: ms[i].seqNum == i + 1)
    && (forall i, j | 0 <= i < j < |ms| :: ms[i].uid < ms[j].uid)
  }

  /** In a well-formed mailbox the two lookups are inverse to each other and total on it. */
  lemma {:induction false} LookupsInverse(ms: seq<ImapMessage>, uid: int)
    requires forall i, j | 0 <= i < j < |ms| :: ms[i].uid < ms[j].uid
    ensures FindUid(ms, uid).Some? <==> exists i :: 0 <= i < |ms| && ms[i].uid == uid
    ensures forall i | 0 <= i < |ms| :: FindUid(ms, ms[i].uid) == Some(ms[i])
  {
    if ms != [] {
      LookupsInverse(ms[1..], uid);
      forall i | 0 <= i < |ms|
        ensures FindUid(ms, ms[i].uid) == Some(ms[i])
      {
        if i > 0 {
          LookupsInverse(ms[1..], ms[i].uid);
          assert ms[1..][i - 1] == ms[i];
        }
      }
      if i :| 0 <= i < |ms| && ms[i].uid == uid {
        assert FindUid(ms, ms[i].uid) == Some(ms[i]);
      }
    }
  }

  lemma ByUidInvertsBySeq(mb: ImapMailbox, uid: int, n: int)
    requires WellFormed(mb.messages)
    ensures mb.ByUid(uid).Some? && mb.ByUid(uid).value.seqNum == n
            <==> mb.BySeq(n).Some? && mb.BySeq(n).value.uid == uid
  {
    var ms := mb.messages;
    LookupsInverse(ms, uid);
    if mb.ByUid(uid).Some? {
      var i :| 0 <= i < |ms| && ms[i].uid == uid;
      assert mb.ByUid(uid) == Some(ms[i]);
    }
    if mb.BySeq(n).Some? {
      assert mb.ByUid(ms[n - 1].uid) == Some(ms[n - 1]);
    }
  }

  // ---------------------------------------------------------------- SELECT on any table

  /** Ascending virtual UID with missing ones last, and ascending id where that does not decide. */
  predicate InOrder(a: Item, b: Item)
  {
    && (a.mindwallUid.None? ==> b.mindwallUid.None?)
    && (a.mindwallUid.Some? && b.mindwallUid.Some? ==> a.mindwallUid.value <= b.mindwallUid.value)
    && (a.mindwallUid == b.mindwallUid ==> a.id <= b.id)
  }

  ghost predicate RowsInOrder(s: seq<Item>)
  {
    forall i, j | 0 <= i < j < |s| :: InOrder(s[i], s[j])
  }

  lemma BeforeInOrder(a: Item, b: Item, c: Item)
    ensures if Before(a, b) then InOrder(a, b) else InOrder(b, a)
    ensures InOrder(a, b) && InOrder(b, c) ==> InOrder(a, c)
  {
  }

  lemma AppendInOrder(s: seq<Item>, x: Item)
    requires RowsInOrder(s) && forall y | y in s :: InOrder(y, x)
    ensures RowsInOrder(s + [x])
  {
  }

  lemma {:induction false} InsertMembers(s: seq<Item>, x: Item)
    ensures multiset(InsertOrdered(s, x)) == multiset(s) + multiset{x}
    ensures forall y :: y in InsertOrdered(s, x) <==> y in s || y == x
  {
    if s != [] {
      var front, last := s[..|s| - 1], s[|s| - 1];
      assert s == front + [last];
      InsertMembers(front, x);
    }
  }

  lemma {:induction false} InsertKeepsOrder(s: seq<Item>, x: Item)
    requires RowsInOrder(s)
    ensures RowsInOrder(InsertOrdered(s, x))
  {
    if s == [] || Before(s[|s| - 1], x) {
      forall y | y in s
        ensures InOrder(y, x)
      {
        var i :| 0 <= i < |s| && s[i] == y;
        BeforeInOrder(s[|s| - 1], x, x);
        BeforeInOrder(y, s[|s| - 1], x);
      }
      AppendInOrder(s, x);
    } else {
      var front, last := s[..|s| - 1], s[|s| - 1];
      InsertKeepsOrder(front, x);
      InsertMembers(front, x);
      BeforeInOrder(last, x, x);
      AppendInOrder(InsertOrdered(front, x), last);
    }
  }

  /** Whatever the table, the loaded rows are the matching ones, in this order. */
  lemma {:induction false} OrderBySorts(s: seq<Item>)
    ensures RowsInOrder(OrderBy(s)) && multiset(OrderBy(s)) == multiset(s)
  {
    if s != [] {
      assert s == s[..|s| - 1] + [s[|s| - 1]];
      OrderBySorts(s[..|s| - 1]);
      InsertMembers(OrderBy(s[..|s| - 1]), s[|s| - 1]);
      InsertKeepsOrder(OrderBy(s[..|s| - 1]), s[|s| - 1]);
    }
  }

  // ---------------------------------------------------------------- SELECT on synced tables

  /** Rows strictly ascending by a virtual UID that is never NULL. */
  ghost predicate Ordered(s: seq<Item>)
  {
    && (forall i | 0 <= i < |s| :: s[i].mindwallUid.Some?)
    && (forall i, j | 0 <= i < j < |s| :: s[i].mindwallUid.value < s[j].mindwallUid.value)
  }

  lemma OrderedFront(s: seq<Item>)
    requires Ordered(s) && s != []
    ensures Ordered(s[..|s| - 1])
    ensures |s| > 1 ==> Before(s[|s| - 2], s[|s| - 1])
  {
  }

  lemma {:induction false} OrderByIdentity(s: seq<Item>)
    requires Ordered(s)
    ensures OrderBy(s) == s
  {
    if s != [] {
      var front, last := s[..|s| - 1], s[|s| - 1];
      OrderedFront(s);
      OrderByIdentity(front);
      assert InsertOrdered(front, last) == front + [last] == s;
    }
  }

  lemma CountAtMost(items: seq<Item>, i: nat, profile: int)
    requires i <= |items|
    ensures Count(items[..i], profile) <= Count(items, profile)
  {
    if i < |items| {
      assert items[..|items| - 1][..i] == items[..i];
      CountAtMost(items[..|items| - 1], i, profile);
    } else {
      assert items[..i] == items;
    }
  }

  /** The rows of a folder are ordered, and none has a virtual UID above the profile's count. */
  lemma {:induction false} MatchingOrdered(items: seq<Item>, profile: int, folder: FolderName)
    requires Numbered(items)
    ensures var m := Matching(items, profile, folder);
            Ordered(m) && forall i | 0 <= i < |m| :: 1 <= m[i].mindwallUid.value <= Count(items, profile)
  {
    if items != [] {
      NumberedPrefix(items);
      MatchingOrdered(items[..|items| - 1], profile, folder);
    }
  }

  lemma OrderedServesWellFormed(s: seq<Item>)
    requires Ordered(s)
    ensures WellFormed(Messages(s))
  {
  }

  lemma SelectIsMatching(items: seq<Item>, profile: int, folder: FolderName)
    requires Numbered(items)
    ensures Ordered(Matching(items, profile, folder))
    ensures LoadItems(items, profile, folder) == Matching(items, profile, folder)
  {
    MatchingOrdered(items, profile, folder);
    OrderByIdentity(Matching(items, profile, folder));
  }

  /** Appending rows to the table appends rows to the folder, with larger virtual UIDs. */
  lemma {:induction false} MatchingAppend(items: seq<Item>, items': seq<Item>, profile: int, folder: FolderName)
    requires items <= items' && Numbered(items')
    ensures var m, m' := Matching(items, profile, folder), Matching(items', profile, folder);
            && m <= m'
            && forall i | |m| <= i < |m'| ::
                 m'[i].mindwallUid.Some? && m'[i].mindwallUid.value > Count(items, profile)
    decreases |items'|
  {
    if |items| < |items'| {
      var front := items'[..|items'| - 1];
      NumberedPrefix(items');
      MatchingAppend(items, front, profile, folder);
      assert front[..|items|] == items;
      CountAtMost(front, |items|, profile);
    } else {
      assert items == items';
    }
  }

  lemma UidNextAtMost(s: seq<Item>, bound: int)
    requires 0 <= bound && Ordered(s)
    requires forall i | 0 <= i < |s| :: s[i].mindwallUid.value <= bound
    ensures Messages(s) != [] ==> MaxUid(Messages(s)) <= bound
  {
  }

  lemma NumberedPrefixes(items: seq<Item>, items': seq<Item>)
    requires items <= items' && Numbered(items')
    ensures Numbered(items)
    decreases |items'|
  {
    if |items| < |items'| {
      NumberedPrefix(items');
      NumberedPrefixes(items, items'[..|items'| - 1]);
    } else {
      assert items == items';
    }
  }

  /** Folders only grow at the end, for any table and any extension of it. */
  lemma ExtensionGrowsFolder(items: seq<Item>, items': seq<Item>, profile: int, folder: FolderName)
    requires items <= items' && Numbered(items')
    ensures var earlier, later := Select(items, profile, folder), Select(items', profile, folder);
            && WellFormed(earlier.messages) && WellFormed(later.messages)
            && earlier.messages <= later.messages
            && forall i | |earlier.messages| <= i < |later.messages| :: later.messages[i].uid >= earlier.UidNext()
  {
    NumberedPrefixes(items, items');
    SelectIsMatching(items, profile, folder);
    SelectIsMatching(items', profile, folder);
    MatchingOrdered(items, profile, folder);
    MatchingAppend(items, items', profile, folder);
    var m, m' := Matching(items, profile, folder), Matching(items', profile, folder);
    ServedRowsGrow(m, m', Count(items, profile));
  }

  lemma ServedRowsGrow(m: seq<Item>, m': seq<Item>, bound: int)
    requires Ordered(m) && Ordered(m') && m <= m' && 0 <= bound
    requires forall i | 0 <= i < |m| :: m[i].mindwallUid.value <= bound
    requires forall i | |m| <= i < |m'| :: m'[i].mindwallUid.value > bound
    ensures WellFormed(Messages(m)) && WellFormed(Messages(m')) && Messages(m) <= Messages(m')
    ensures var next := if m == [] then 1 else MaxUid(Messages(m)) + 1;
            forall i | |m| <= i < |m'| :: Messages(m')[i].uid >= next
  {
    OrderedServesWellFormed(m);
    OrderedServesWellFormed(m');
    UidNextAtMost(m, bound);
    assert Messages(m')[..|m|] == Messages(m);
  }

  /** After any further sync runs, an earlier listing is a prefix of the later one, with the
      same UIDs and sequence numbers; what is new lies at or above the UIDNEXT announced
      earlier, and UIDVALIDITY is the same. */
  lemma FoldersOnlyGrow(db: Tables, inputs: seq<Input>, profile: int, folder: FolderName)
    requires Bookkept(db)
    ensures var earlier := Select(db.items, profile, folder);
            var later := Select(After(db, inputs).items, profile, folder);
            && WellFormed(later.messages)
            && earlier.uidValidity == later.uidValidity
            && earlier.messages <= later.messages
            && forall i | |earlier.messages| <= i < |later.messages| :: later.messages[i].uid >= earlier.UidNext()
  {
    BookkeepingOverRuns(db, inputs);
    ExtensionGrowsFolder(db.items, After(db, inputs).items, profile, folder);
  }

  lemma {:induction false} MatchingMembers(items: seq<Item>, profile: int, folder: FolderName, item: Item)
    ensures item in Matching(items, profile, folder)
            <==> item in items && item.key.profile == profile && Belongs(item.visibility, folder)
  {
    if items != [] {
      assert items == items[..|items| - 1] + [items[|items| - 1]];
      MatchingMembers(items[..|items| - 1], profile, folder, item);
    }
  }

  predicate Serves(mb: ImapMailbox, item: Item)
  {
    exists i | 0 <= i < |mb.messages| :: mb.messages[i].item == item
  }

  lemma ServesLoaded(loaded: seq<Item>, item: Item)
    ensures (exists i | 0 <= i < |Messages(loaded)| :: Messages(loaded)[i].item == item) <==> item in loaded
  {
    if item in loaded {
      var i :| 0 <= i < |loaded| && loaded[i] == item;
      assert Messages(loaded)[i].item == item;
    }
  }

  lemma ServedIffBelongs(items: seq<Item>, profile: int, folder: FolderName, item: Item)
    requires Numbered(items)
    ensures Serves(Select(items, profile, folder), item)
            <==> item in items && item.key.profile == profile && Belongs(item.visibility, folder)
  {
    SelectIsMatching(items, profile, folder);
    MatchingMembers(items, profile, folder, item);
    ServesLoaded(LoadItems(items, profile, folder), item);
  }

  /** INBOX and Mindwall/Quarantine are disjoint and together serve exactly the profile's
      VISIBLE, QUARANTINED and HIDDEN rows. */
  lemma FoldersPartition(items: seq<Item>, profile: int, item: Item)
    requires Numbered(items)
    ensures var inbox := Serves(Select(items, profile, Inbox), item);
            var quarantine := Serves(Select(items, profile, QuarantineFolder), item);
            && !(inbox && quarantine)
            && (inbox || quarantine <==>
                item in items && item.key.profile == profile && item.visibility in {Visible, Quarantined, Hidden})
            && (inbox ==> item.visibility == Visible)
  {
    ServedIffBelongs(items, profile, Inbox, item);
    ServedIffBelongs(items, profile, QuarantineFolder, item);
  }
}
