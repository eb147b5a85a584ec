/** Printing and parsing sets, and the agreement of SEARCH with both forms of FETCH. */
module ImapSetLaws {
  import opened Options
  import opened Text
  import opened VirtualMailbox
  import opened ImapSets

  // ---------------------------------------------------------------- one element

  /** A print that needs no stripping and holds no comma. */
  predicate Clean(s: string)
  {
    s != "" && ',' !in s && !IsSpace(s[0]) && !IsSpace(s[|s| - 1])
  }

  lemma DigitsClean(s: string)
    requires s != "" && AllDigits(s)
    ensures Clean(s) && ':' !in s && s != "*"
  {
    assert IsDigit(s[0]) && IsDigit(s[|s| - 1]);
  }

  lemma EndPrints(e: End, max: int)
    ensures Clean(PrintEnd(e)) && ':' !in PrintEnd(e)
    ensures Bound(PrintEnd(e), max) == Some(Resolve(e, max))
  {
    if e.Number? {
      DigitsClean(Digits(e.n));
      ParsePrinted(e.n);
    }
  }

  lemma RangePrints(lo: End, hi: End, max: int)
    ensures var s := PrintElement(Range(lo, hi));
            && Clean(s)
            && IndexOf(s, ':') == |PrintEnd(lo)| < |s|
            && s[..|PrintEnd(lo)|] == PrintEnd(lo) && s[|PrintEnd(lo)| + 1..] == PrintEnd(hi)
            && Bound(PrintEnd(lo), max) == Some(Resolve(lo, max))
            && Bound(PrintEnd(hi), max) == Some(Resolve(hi, max))
  {
    var a, b := PrintEnd(lo), PrintEnd(hi);
    var s := PrintElement(Range(lo, hi));
    EndPrints(lo, max);
    EndPrints(hi, max);
    assert s == a + [':'] + b;
    IndexOfAppend(a, ':', b);
    assert s[0] == a[0] && s[|s| - 1] == b[|b| - 1];
  }

  /** How a print is read: whether it has a colon, is the star, or a number. */
  lemma ElementPrints(e: Element, max: int)
    ensures var s := PrintElement(e);
            && Clean(s) && Strip(s) == s
            && (!e.Range? ==> IndexOf(s, ':') == |s|)
            && (e.Star? <==> s == "*")
            && (e.Single? ==> ParseInt(s) == Some(e.n))
  {
    var s := PrintElement(e);
    if e.Range? {
      RangePrints(e.lo, e.hi, max);
    } else if e.Single? {
      DigitsClean(s);
      ParsePrinted(e.n);
    }
    StripKeeps(s);
  }

  lemma {:induction false} UidElement(e: Element, n: Numbering)
    ensures ',' !in PrintElement(e)
    ensures UidPart(PrintElement(e), n).Some?
    ensures forall u | u in n.all :: u in UidPart(PrintElement(e), n).value <==> Takes(e, n.max, u)
  {
    ElementPrints(e, n.max);
    if e.Range? {
      RangePrints(e.lo, e.hi, n.max);
    }
  }

  lemma {:induction false} SeqElement(e: Element, n: nat)
    ensures ',' !in PrintElement(e)
    ensures SeqPart(PrintElement(e), n).Some?
    ensures forall k | 1 <= k <= n :: k in SeqPart(PrintElement(e), n).value <==> Takes(e, n, k)
  {
    ElementPrints(e, n);
    if e.Range? {
      RangePrints(e.lo, e.hi, n);
    }
  }

  // ---------------------------------------------------------------- unions

  lemma {:induction false} UnionMembers(parts: seq<string>, part: string -> Option<set<int>>)
    ensures Union(parts, part).Some? <==> forall p | p in parts :: part(p).Some?
    ensures Union(parts, part).Some? ==>
              forall u :: u in Union(parts, part).value <==> exists p :: p in parts && u in part(p).value
  {
    if parts != [] {
      var front, last := parts[..|parts| - 1], parts[|parts| - 1];
      assert parts == front + [last];
      UnionMembers(front, part);
    }
  }

  function Printed(elements: seq<Element>): seq<string>
  {
    seq(|elements|, i requires 0 <= i < |elements| => PrintElement(elements[i]))
  }

  predicate SomeTakes(elements: seq<Element>, max: int, u: int)
  {
    exists e | e in elements :: Takes(e, max, u)
  }

  /** Splitting a printed set gives back its elements' prints, and their union takes exactly
      what some element takes. */
  lemma {:induction false} PrintedUnion(elements: seq<Element>, max: int, inUse: set<int>,
                                        part: string -> Option<set<int>>)
    requires elements != []
    requires forall e :: ',' !in PrintElement(e) && part(PrintElement(e)).Some?
    requires forall e, u | u in inUse :: u in part(PrintElement(e)).value <==> Takes(e, max, u)
    ensures var r := Union(Split(PrintSet(elements), ','), part);
            r.Some? && forall u | u in inUse :: u in r.value <==> SomeTakes(elements, max, u)
  {
    var ps := Printed(elements);
    assert PrintSet(elements) == Join(ps, ',');
    SplitJoin(ps, ',');
    UnionMembers(ps, part);
    var r := Union(ps, part);
    forall u | u in inUse
      ensures u in r.value <==> SomeTakes(elements, max, u)
    {
      if u in r.value {
        var p :| p in ps && u in part(p).value;
        var i :| 0 <= i < |ps| && ps[i] == p;
        assert elements[i] in elements && Takes(elements[i], max, u);
      }
      if SomeTakes(elements, max, u) {
        var e :| e in elements && Takes(e, max, u);
        var i :| 0 <= i < |elements| && elements[i] == e;
        assert ps[i] in ps && u in part(ps[i]).value;
      }
    }
  }

  // ---------------------------------------------------------------- FETCH on printed sets

  lemma {:induction false} WithUidInMembers(ms: seq<ImapMessage>, target: set<int>, m: ImapMessage)
    ensures m in WithUidIn(ms, target) <==> m in ms && m.uid in target
  {
    if ms != [] {
      WithUidInMembers(ms[1..], target, m);
      assert ms == [ms[0]] + ms[1..];
    }
  }

  lemma {:induction false} WithSeqInMembers(ms: seq<ImapMessage>, target: set<int>, m: ImapMessage)
    ensures m in WithSeqIn(ms, target) <==> m in ms && m.seqNum in target
  {
    if ms != [] {
      WithSeqInMembers(ms[1..], target, m);
      assert ms == [ms[0]] + ms[1..];
    }
  }

  ghost predicate AscendingNumbers(ms: seq<ImapMessage>)
  {
    forall i, j | 0 <= i < j < |ms| :: ms[i].seqNum < ms[j].seqNum
  }

  lemma {:induction false} WithUidInAscends(ms: seq<ImapMessage>, target: set<int>)
    requires AscendingNumbers(ms)
    ensures AscendingNumbers(WithUidIn(ms, target))
  {
    if ms != [] {
      var rest := WithUidIn(ms[1..], target);
      WithUidInAscends(ms[1..], target);
      forall k | 0 <= k < |rest|
        ensures ms[0].seqNum < rest[k].seqNum
      {
        WithUidInMembers(ms[1..], target, rest[k]);
        assert rest[k] in ms[1..];
      }
    }
  }

  lemma {:induction false} WithSeqInAscends(ms: seq<ImapMessage>, target: set<int>)
    requires AscendingNumbers(ms)
    ensures AscendingNumbers(WithSeqIn(ms, target))
  {
    if ms != [] {
      var rest := WithSeqIn(ms[1..], target);
      WithSeqInAscends(ms[1..], target);
      forall k | 0 <= k < |rest|
        ensures ms[0].seqNum < rest[k].seqNum
      {
        WithSeqInMembers(ms[1..], target, rest[k]);
        assert rest[k] in ms[1..];
      }
    }
  }

  /** UID FETCH of any printed set, on any mailbox: exactly the messages some element takes,
      once each and in ascending sequence order. */
  lemma UidFetchOfPrintedSet(mb: ImapMailbox, elements: seq<Element>)
    requires elements != [] && WellFormed(mb.messages)
    ensures var r := UidFetch(mb, PrintSet(elements));
            && r.Some?
            && AscendingNumbers(r.value)
            && (mb.messages == [] ==> r.value == [])
            && (mb.messages != [] ==>
                  forall m :: m in r.value <==> m in mb.messages && SomeTakes(elements, MaxUid(mb.messages), m.uid))
  {
    var ms := mb.messages;
    if ms != [] {
      var n := Numbering(Uids(ms), MaxUid(ms));
      var part := p => UidPart(p, n);
      forall e {
        UidElement(e, n);
      }
      PrintedUnion(elements, n.max, (set u | u in n.all), part);
      var target := ParsedUidSet(PrintSet(elements), ms).value;
      WithUidInAscends(ms, target);
      forall m
        ensures m in WithUidIn(ms, target) <==> m in ms && SomeTakes(elements, n.max, m.uid)
      {
        WithUidInMembers(ms, target, m);
        if m in ms {
          var i :| 0 <= i < |ms| && ms[i] == m;
          assert n.all[i] == m.uid;
        }
      }
    }
  }

  /** FETCH of any printed set, with sequence numbers in place of UIDs. */
  lemma FetchOfPrintedSet(mb: ImapMailbox, elements: seq<Element>)
    requires elements != [] && WellFormed(mb.messages)
    ensures var r := Fetch(mb, PrintSet(elements));
            && r.Some?
            && AscendingNumbers(r.value)
            && forall m :: m in r.value <==> m in mb.messages && SomeTakes(elements, mb.Exists(), m.seqNum)
  {
    var ms, n := mb.messages, mb.Exists();
    if ms != [] {
      forall e {
        SeqElement(e, n);
      }
      PrintedUnion(elements, n, Interval(1, n), p => SeqPart(p, n));
      var target := ParsedSeqSet(PrintSet(elements), n).value;
      WithSeqInAscends(ms, target);
      forall m
        ensures m in WithSeqIn(ms, target) <==> m in ms && SomeTakes(elements, n, m.seqNum)
      {
        WithSeqInMembers(ms, target, m);
      }
    }
  }

  /** When no range is written backwards, what the server takes is what the set means. */
  lemma ForwardSetsReadRight(elements: seq<Element>, max: int, u: int)
    requires forall e | e in elements && e.Range? :: Resolve(e.lo, max) <= Resolve(e.hi, max)
    ensures SomeTakes(elements, max, u) <==> SomeCovers(elements, max, u)
  {
    if e :| e in elements && Covers(e, max, u) {
      assert Takes(e, max, u);
    }
  }

  predicate SomeCovers(elements: seq<Element>, max: int, u: int)
  {
    exists e | e in elements :: Covers(e, max, u)
  }

  predicate Backward(e: Element, max: int)
  {
    e.Range? && Resolve(e.lo, max) > Resolve(e.hi, max)
  }

  /** u lies inside a range written backwards and no element of the set takes it. */
  predicate Missed(elements: seq<Element>, max: int, u: int)
  {
    !SomeTakes(elements, max, u) && exists e | e in elements :: Backward(e, max) && Covers(e, max, u)
  }

  /** The server reads a set as section 9 of RFC 3501 does but for the numbers that lie inside
      its backward ranges alone. */
  lemma TakenOrMissed(elements: seq<Element>, max: int, u: int)
    ensures SomeCovers(elements, max, u) <==> SomeTakes(elements, max, u) || Missed(elements, max, u)
  {
    if SomeTakes(elements, max, u) {
      var e :| e in elements && Takes(e, max, u);
      assert Covers(e, max, u);
    } else if SomeCovers(elements, max, u) {
      var e :| e in elements && Covers(e, max, u);
      assert !Takes(e, max, u);
    }
  }

  /** UID FETCH of a printed set returns exactly the messages whose UIDs the set means if and
      only if each UID inside a backward range is taken by another element. */
  lemma {:induction false} UidFetchMeansSet(mb: ImapMailbox, elements: seq<Element>)
    requires elements != [] && mb.messages != [] && WellFormed(mb.messages)
    ensures var r, max := UidFetch(mb, PrintSet(elements)), MaxUid(mb.messages);
            && r.Some?
            && ((forall m | m in mb.messages :: m in r.value <==> SomeCovers(elements, max, m.uid))
                <==> forall m | m in mb.messages :: !Missed(elements, max, m.uid))
  {
    UidFetchOfPrintedSet(mb, elements);
    forall m: ImapMessage {
      TakenOrMissed(elements, MaxUid(mb.messages), m.uid);
    }
  }

  /** The same for FETCH and sequence numbers. */
  lemma {:induction false} FetchMeansSet(mb: ImapMailbox, elements: seq<Element>)
    requires elements != [] && WellFormed(mb.messages)
    ensures var r, n := Fetch(mb, PrintSet(elements)), mb.Exists();
            && r.Some?
            && ((forall m | m in mb.messages :: m in r.value <==> SomeCovers(elements, n, m.seqNum))
                <==> forall m | m in mb.messages :: !Missed(elements, n, m.seqNum))
  {
    FetchOfPrintedSet(mb, elements);
    forall m: ImapMessage {
      TakenOrMissed(elements, mb.Exists(), m.seqNum);
    }
  }

  const FOUR_TO_TWO := Range(Number(4), Number(2))

  lemma FourToTwoPrinted()
    ensures PrintSet([FOUR_TO_TWO]) == "4:2"
  {
    assert PrintElement(FOUR_TO_TWO) == "4:2";
    assert Printed([FOUR_TO_TWO]) == ["4:2"];
  }

  /** A concrete failure: of five messages the set 4:2 means three, and FETCH returns none. */
  lemma BackwardRangeFetchesNothing(mb: ImapMailbox, m: ImapMessage)
    requires WellFormed(mb.messages) && mb.Exists() == 5 && m in mb.messages
    ensures Fetch(mb, "4:2").Some? && m !in Fetch(mb, "4:2").value
    ensures PrintSet([FOUR_TO_TWO]) == "4:2"
    ensures SomeCovers([FOUR_TO_TWO], 5, m.seqNum) <==> 2 <= m.seqNum <= 4
  {
    FourToTwoPrinted();
    FetchOfPrintedSet(mb, [FOUR_TO_TWO]);
    assert FOUR_TO_TWO in [FOUR_TO_TWO] && (Covers(FOUR_TO_TWO, 5, m.seqNum) <==> 2 <= m.seqNum <= 4);
  }

  lemma SeqPartInRange(part: string, n: nat)
    requires n > 0 && SeqPart(part, n).Some?
    ensures forall k | k in SeqPart(part, n).value :: 1 <= k <= n
  {
  }

  /** Whatever the text, a parsed sequence set only holds numbers of messages. */
  lemma SeqSetInRange(text: string, n: nat)
    ensures ParsedSeqSet(text, n).Some? ==> forall k | k in ParsedSeqSet(text, n).value :: 1 <= k <= n
  {
    if n > 0 && ParsedSeqSet(text, n).Some? {
      var part := p => SeqPart(p, n);
      UnionMembers(Split(text, ','), part);
      forall p: string | part(p).Some?
        ensures forall k | k in part(p).value :: 1 <= k <= n
      {
        SeqPartInRange(p, n);
      }
    }
  }

  // ---------------------------------------------------------------- sets that do not parse

  /** A bound of a range that int() does not read. */
  predicate Unreadable(bound: string)
  {
    bound != "*" && ParseInt(bound).None?
  }

  /** A range with an unreadable bound. Anything else parses: a part without a colon that is no
      number is passed over. */
  predicate BadRange(part: string)
  {
    var p := Strip(part);
    var colon := IndexOf(p, ':');
    colon < |p| && (Unreadable(p[..colon]) || Unreadable(p[colon + 1..]))
  }

  predicate BadSet(text: string)
  {
    exists p | p in Split(text, ',') :: BadRange(p)
  }

  lemma {:induction false} UnionRaisesIff(parts: seq<string>, part: string -> Option<set<int>>)
    requires forall p :: part(p).None? <==> BadRange(p)
    ensures Union(parts, part).None? <==> exists p | p in parts :: BadRange(p)
  {
    UnionMembers(parts, part);
  }

  /** UID FETCH raises exactly on a non-empty mailbox and a set with a bad range. */
  lemma UidFetchRaisesIff(mb: ImapMailbox, text: string)
    ensures UidFetch(mb, text).None? <==> mb.messages != [] && BadSet(text)
  {
    if mb.messages != [] {
      var n := Numbering(Uids(mb.messages), MaxUid(mb.messages));
      UnionRaisesIff(Split(text, ','), part => UidPart(part, n));
    }
  }

  /** FETCH raises on exactly the same sets. */
  lemma FetchRaisesIff(mb: ImapMailbox, text: string)
    ensures Fetch(mb, text).None? <==> mb.messages != [] && BadSet(text)
  {
    if mb.messages != [] {
      UnionRaisesIff(Split(text, ','), part => SeqPart(part, mb.Exists()));
    }
  }

  /** Criteria that hold a UID set with a bad range. */
  predicate BadCriteria(criteria: string)
  {
    var stripped := Strip(criteria);
    "UID " <= Upper(stripped) && BadSet(stripped[4..])
  }

  /** SEARCH raises exactly on a non-empty mailbox and such criteria. */
  lemma SearchRaisesIff(mb: ImapMailbox, criteria: string)
    ensures ApplySearch(criteria, mb).None? <==> mb.messages != [] && BadCriteria(criteria)
    ensures SearchNumbers(criteria, mb).None? <==> mb.messages != [] && BadCriteria(criteria)
  {
    var stripped := Strip(criteria);
    if "UID " <= Upper(stripped) {
      UidFetchRaisesIff(mb, stripped[4..]);
    }
  }

  // ---------------------------------------------------------------- SEARCH and FETCH agree

  function Singles(numbers: seq<nat>): seq<Element>
  {
    seq(|numbers|, i requires 0 <= i < |numbers| => Single(numbers[i]))
  }

  lemma {:induction false} NumbersOfSelected(mb: ImapMailbox, selected: seq<ImapMessage>)
    requires forall m | m in selected :: mb.ByUid(m.uid) == Some(m)
    ensures NumbersOf(Uids(selected), mb) == seq(|selected|, i requires 0 <= i < |selected| => selected[i].seqNum)
  {
    if selected != [] {
      assert selected[0] in selected;
      assert Uids(selected)[1..] == Uids(selected[1..]);
      NumbersOfSelected(mb, selected[1..]);
    }
  }

  /** A word a client may send as a set: not empty, no whitespace. */
  predicate IsWord(s: string)
  {
    s != "" && forall i | 0 <= i < |s| :: !IsSpace(s[i])
  }

  lemma CriteriaStripped(criteria: string, prefix: string, s: string)
    requires prefix == "UID " && IsWord(s) && criteria == prefix + s
    ensures Strip(criteria) == criteria
  {
    assert criteria[0] == 'U' && criteria[|criteria| - 1] == s[|s| - 1];
    StripKeeps(criteria);
  }

  lemma CriteriaUpper(criteria: string, prefix: string, s: string)
    requires prefix == "UID " && IsWord(s) && criteria == prefix + s
    ensures prefix <= Upper(criteria) && |Upper(criteria)| > 4 && criteria[4..] == s
  {
    var upper := Upper(criteria);
    assert upper[0] == 'U' && upper[1] == 'I' && upper[2] == 'D' && upper[3] == ' ';
  }

  lemma SearchUidCriteria(criteria: string, s: string, mb: ImapMailbox)
    requires IsWord(s) && criteria == "UID " + s
    ensures ApplySearch(criteria, mb) == var r := UidFetch(mb, s); if r.None? then None else Some(Uids(r.value))
  {
    CriteriaStripped(criteria, "UID ", s);
    CriteriaUpper(criteria, "UID ", s);
    SearchUidStripped(criteria, s, mb);
  }

  lemma SearchUidStripped(criteria: string, s: string, mb: ImapMailbox)
    requires Strip(criteria) == criteria && "UID " <= Upper(criteria) && |Upper(criteria)| > 4 && criteria[4..] == s
    ensures ApplySearch(criteria, mb) == var r := UidFetch(mb, s); if r.None? then None else Some(Uids(r.value))
  {
  }

  /** Fetching the sequence numbers that "SEARCH UID s" returns selects exactly the messages
      that "UID FETCH s" selects; both raise on the same sets. */
  lemma SearchThenFetchIsUidFetch(mb: ImapMailbox, s: string)
    requires WellFormed(mb.messages) && IsWord(s)
    ensures SearchNumbers("UID " + s, mb).None? <==> UidFetch(mb, s).None?
    ensures SearchNumbers("UID " + s, mb).Some? ==>
              var numbers := SearchNumbers("UID " + s, mb).value;
              && (forall i | 0 <= i < |numbers| :: 1 <= numbers[i] <= mb.Exists())
              && (numbers == [] <==> UidFetch(mb, s).value == [])
              && (numbers != [] ==> Fetch(mb, PrintSet(Singles(numbers))) == UidFetch(mb, s))
  {
    SearchUidCriteria("UID " + s, s, mb);
    if UidFetch(mb, s).Some? {
      var ms, target := mb.messages, ParsedUidSet(s, mb.messages).value;
      var selected := WithUidIn(ms, target);
      forall m | m in selected
        ensures mb.ByUid(m.uid) == Some(m) && 1 <= m.seqNum <= mb.Exists()
      {
        WithUidInMembers(ms, target, m);
        LookupsInverse(ms, m.uid);
      }
      NumbersOfSelected(mb, selected);
      var numbers := SearchNumbers("UID " + s, mb).value;
      if selected != [] {
        FetchSelected(mb, target, numbers);
      }
    }
  }

  /** Fetching exactly the numbers of the messages with certain UIDs. */
  lemma FetchSelected(mb: ImapMailbox, target: set<int>, numbers: seq<int>)
    requires WellFormed(mb.messages) && WithUidIn(mb.messages, target) != []
    requires NumbersOfMessages(numbers, WithUidIn(mb.messages, target))
    requires forall i | 0 <= i < |numbers| :: 1 <= numbers[i] <= mb.Exists()
    ensures Fetch(mb, PrintSet(Singles(numbers))) == Some(WithUidIn(mb.messages, target))
  {
    var ms, elements := mb.messages, Singles(numbers);
    FetchOfPrintedSet(mb, elements);
    var wanted := ParsedSeqSet(PrintSet(elements), mb.Exists()).value;
    forall m | m in ms
      ensures m.seqNum in wanted <==> m.uid in target
    {
      WithSeqInMembers(ms, wanted, m);
      SinglesTake(ms, target, numbers, mb.Exists(), m);
    }
    SameSelection(ms, target, wanted);
  }

  ghost predicate NumbersOfMessages(numbers: seq<int>, ms: seq<ImapMessage>)
  {
    |numbers| == |ms| && forall i | 0 <= i < |ms| :: numbers[i] == ms[i].seqNum
  }

  /** The set of those numbers takes a message exactly when its UID is wanted. */
  lemma SinglesTake(ms: seq<ImapMessage>, target: set<int>, numbers: seq<int>, n: nat, m: ImapMessage)
    requires WellFormed(ms) && m in ms
    requires NumbersOfMessages(numbers, WithUidIn(ms, target))
    requires forall i | 0 <= i < |numbers| :: 0 <= numbers[i]
    ensures SomeTakes(Singles(numbers), n, m.seqNum) <==> m.uid in target
  {
    var selected, elements := WithUidIn(ms, target), Singles(numbers);
    WithUidInMembers(ms, target, m);
    if m.uid in target {
      var i :| 0 <= i < |selected| && selected[i] == m;
      assert elements[i] in elements && Takes(elements[i], n, m.seqNum);
    }
    if SomeTakes(elements, n, m.seqNum) {
      var e :| e in elements && Takes(e, n, m.seqNum);
      var i :| 0 <= i < |elements| && elements[i] == e;
      WithUidInMembers(ms, target, selected[i]);
      assert selected[i] in ms && selected[i].seqNum == m.seqNum;
    }
  }

  lemma {:induction false} SameSelection(ms: seq<ImapMessage>, uids: set<int>, numbers: set<int>)
    requires forall m | m in ms :: m.seqNum in numbers <==> m.uid in uids
    ensures WithSeqIn(ms, numbers) == WithUidIn(ms, uids)
  {
    if ms != [] {
      assert ms[0] in ms && forall m | m in ms[1..] :: m in ms;
      SameSelection(ms[1..], uids, numbers);
    }
  }
}
