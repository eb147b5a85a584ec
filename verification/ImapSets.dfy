/** UID and sequence sets, SEARCH and FETCH selection (the parsers and the selection loops of
    app/proxies/imap/server.py). */
module ImapSets {
  import opened Options
  import opened Text
  import opened VirtualMailbox

  // ---------------------------------------------------------------- int()

  predicate IsDigit(c: char) { '0' <= c <= '9' }

  predicate AllDigits(s: string)
  {
    forall i | 0 <= i < |s| :: IsDigit(s[i])
  }

  function DigitsValue(s: string): int
  {
    if s == "" then 0 else 10 * DigitsValue(s[..|s| - 1]) + (s[|s| - 1] as int - '0' as int)
  }

  /** int(s): optional surrounding whitespace, an optional sign, then digits; None is ValueError. */
  function ParseInt(s: string): Option<int>
  {
    var t := Strip(s);
    if t != "" && t[0] == '-' then
      var v := ParseUnsigned(t[1..]);
      if v.Some? then Some(-v.value) else None
    else if t != "" && t[0] == '+' then ParseUnsigned(t[1..])
    else ParseUnsigned(t)
  }

  function ParseUnsigned(s: string): Option<int>
  {
    if s == "" || !AllDigits(s) then None else Some(DigitsValue(s))
  }

  function Digits(n: nat): (s: string)
    ensures s != "" && AllDigits(s)
  {
    (if n < 10 then "" else Digits(n / 10)) + [('0' as int + n % 10) as char]
  }

  lemma {:induction false} DigitsRoundTrip(n: nat)
    ensures DigitsValue(Digits(n)) == n
  {
    var s := Digits(n);
    if n >= 10 {
      DigitsRoundTrip(n / 10);
      assert s[..|s| - 1] == Digits(n / 10);
    } else {
      assert s[..|s| - 1] == "";
    }
  }

  lemma ParseDigits(s: string)
    requires s != "" && AllDigits(s)
    ensures ParseInt(s) == Some(DigitsValue(s)) && Strip(s) == s
    ensures ':' !in s && ',' !in s && s != "*"
  {
    assert IsDigit(s[0]) && IsDigit(s[|s| - 1]);
    StripKeeps(s);
    assert ParseUnsigned(s) == Some(DigitsValue(s));
  }

  lemma ParsePrinted(n: nat)
    ensures ParseInt(Digits(n)) == Some(n)
  {
    ParseDigits(Digits(n));
    DigitsRoundTrip(n);
  }

  // ---------------------------------------------------------------- set parsers

  /** What a set is resolved against: the numbers in use and the greatest of them. */
  datatype Numbering = Numbering(all: seq<int>, max: int)

  function Uids(ms: seq<ImapMessage>): seq<int>
  {
    seq(|ms|, i requires 0 <= i < |ms| => ms[i].uid)
  }

  /** int(s) if s != "*" else max */
  function Bound(s: string, max: int): Option<int>
  {
    if s == "*" then Some(max) else ParseInt(s)
  }

  /** The numbers one part of a UID set adds; None when int() raises out of the parser. */
  function UidPart(part: string, n: Numbering): Option<set<int>>
  {
    var p := Strip(part);
    var colon := IndexOf(p, ':');
    if colon < |p| then
      var lo, hi := Bound(p[..colon], n.max), Bound(p[colon + 1..], n.max);
      if lo.None? || hi.None? then None
      else Some(Within(n.all, lo.value, hi.value))
    else if p == "*" then Some({n.max})
    else Some(if ParseInt(p).Some? then {ParseInt(p).value} else {})
  }

  /** The numbers among s that lie between lo and hi. */
  function Within(s: seq<int>, lo: int, hi: int): (r: set<int>)
    ensures forall u :: u in r <==> u in s && lo <= u <= hi
  {
    if s == [] then {}
    else
      var last := s[|s| - 1];
      assert s == s[..|s| - 1] + [last];
      Within(s[..|s| - 1], lo, hi) + if lo <= last <= hi then {last} else {}
  }

  /** range(from, to + 1) */
  function Interval(from: int, to: int): (r: set<int>)
    ensures (forall u :: u in r <==> from <= u <= to)
    decreases if to < from then 0 else to - from + 1
  {
    if to < from then {} else Interval(from, to - 1) + {to}
  }

  function Plus(a: Option<set<int>>, b: Option<set<int>>): Option<set<int>>
  {
    if a.None? || b.None? then None else Some(a.value + b.value)
  }

  /** The union over the parts of a set, or None when a part raises. */
  function Union(parts: seq<string>, part: string -> Option<set<int>>): Option<set<int>>
  {
    if parts == [] then Some({})
    else Plus(Union(parts[..|parts| - 1], part), part(parts[|parts| - 1]))
  }

  function ParsedUidSet(text: string, ms: seq<ImapMessage>): Option<set<int>>
  {
    if ms == [] then Some({})
    else
      var n := Numbering(Uids(ms), MaxUid(ms));
      Union(Split(text, ','), part => UidPart(part, n))
  }

  lemma {:induction false} UnionPrefixRaises(parts: seq<string>, i: nat, part: string -> Option<set<int>>)
    requires i <= |parts| && Union(parts[..i], part).None?
    ensures Union(parts, part).None?
  {
    if i < |parts| {
      assert parts[..|parts| - 1][..i] == parts[..i];
      UnionPrefixRaises(parts[..|parts| - 1], i, part);
    } else {
      assert parts[..i] == parts;
    }
  }

  method CollectWithin(s: seq<int>, lo: int, hi: int) returns (added: set<int>)
    ensures added == Within(s, lo, hi)
  {
    added := {};
    for k := 0 to |s|
      invariant added == Within(s[..k], lo, hi)
    {
      if lo <= s[k] <= hi {
        added := added + {s[k]};
      }
      assert s[..k + 1][..k] == s[..k];
    }
    assert s[..|s|] == s;
  }

  method CollectInterval(from: int, to: int) returns (added: set<int>)
    ensures added == Interval(from, to)
  {
    added := {};
    var k := from;
    while k <= to
      invariant from <= k && (k <= to + 1 || k == from)
      invariant added == Interval(from, k - 1)
    {
      added := added + {k};
      k := k + 1;
    }
  }

  /** One part of a UID set, added to the result so far. */
  method AddUidPart(result: set<int>, part: string, n: Numbering) returns (r: Option<set<int>>)
    ensures r == Plus(Some(result), UidPart(part, n))
  {
    var p := Strip(part);
    var colon := IndexOf(p, ':');
    if colon < |p| {
      var lo, hi := Bound(p[..colon], n.max), Bound(p[colon + 1..], n.max);
      if lo.None? || hi.None? {
        return None;
      }
      var added := CollectWithin(n.all, lo.value, hi.value);
      r := Some(result + added);
    } else if p == "*" {
      r := Some(result + {n.max});
    } else {
      var v := ParseInt(p);
      r := Some(if v.Some? then result + {v.value} else result + {});
    }
  }

  method ParseUidSet(text: string, ms: seq<ImapMessage>) returns (r: Option<set<int>>)
    ensures r == ParsedUidSet(text, ms)
  {
    if ms == [] {
      return Some({});
    }
    var n := Numbering(Uids(ms), MaxUid(ms));
    ghost var part := p => UidPart(p, n);
    var result: set<int> := {};
    var parts := Split(text, ',');
    var i := 0;
    while i < |parts|
      invariant 0 <= i <= |parts|
      invariant Union(parts[..i], part) == Some(result)
    {
      assert parts[..i + 1][..i] == parts[..i];
      var sum := AddUidPart(result, parts[i], n);
      i := i + 1;
      if sum.None? {
        UnionPrefixRaises(parts, i, part);
        return None;
      }
      result := sum.value;
    }
    assert parts[..i] == parts;
    r := Some(result);
  }

  /** The numbers one part of a sequence set adds, for a mailbox of n messages. */
  function SeqPart(part: string, n: nat): Option<set<int>>
  {
    var p := Strip(part);
    var colon := IndexOf(p, ':');
    if colon < |p| then
      var lo, hi := Bound(p[..colon], n), Bound(p[colon + 1..], n);
      if lo.None? || hi.None? then None
      else Some(Interval(if lo.value > 1 then lo.value else 1, if hi.value < n then hi.value else n))
    else if p == "*" then Some({n})
    else Some(if ParseInt(p).Some? && 1 <= ParseInt(p).value <= n then {ParseInt(p).value} else {})
  }

  function ParsedSeqSet(text: string, n: nat): Option<set<int>>
  {
    if n == 0 then Some({}) else Union(Split(text, ','), part => SeqPart(part, n))
  }

  /** One part of a sequence set, added to the result so far. */
  method AddSeqPart(result: set<int>, part: string, n: nat) returns (r: Option<set<int>>)
    ensures r == Plus(Some(result), SeqPart(part, n))
  {
    var p := Strip(part);
    var colon := IndexOf(p, ':');
    if colon < |p| {
      var lo, hi := Bound(p[..colon], n), Bound(p[colon + 1..], n);
      if lo.None? || hi.None? {
        return None;
      }
      var from := if lo.value > 1 then lo.value else 1;
      var to := if hi.value < n then hi.value else n;
      var added := CollectInterval(from, to);
      r := Some(result + added);
    } else if p == "*" {
      r := Some(result + {n});
    } else {
      var v := ParseInt(p);
      r := Some(if v.Some? && 1 <= v.value <= n then result + {v.value} else result + {});
    }
  }

  method ParseSeqSet(text: string, n: nat) returns (r: Option<set<int>>)
    ensures r == ParsedSeqSet(text, n)
  {
    if n == 0 {
      return Some({});
    }
    ghost var part := p => SeqPart(p, n);
    var result: set<int> := {};
    var parts := Split(text, ',');
    var i := 0;
    while i < |parts|
      invariant 0 <= i <= |parts|
      invariant Union(parts[..i], part) == Some(result)
    {
      assert parts[..i + 1][..i] == parts[..i];
      var sum := AddSeqPart(result, parts[i], n);
      i := i + 1;
      if sum.None? {
        UnionPrefixRaises(parts, i, part);
        return None;
      }
      result := sum.value;
    }
    assert parts[..i] == parts;
    r := Some(result);
  }

  // ---------------------------------------------------------------- selection

  /** The loop of UID FETCH: messages whose UID is in the set, in mailbox order. */
  function WithUidIn(ms: seq<ImapMessage>, target: set<int>): seq<ImapMessage>
  {
    if ms == [] then []
    else (if ms[0].uid in target then [ms[0]] else []) + WithUidIn(ms[1..], target)
  }

  /** The loop of FETCH: messages whose sequence number is in the set, in mailbox order. */
  function WithSeqIn(ms: seq<ImapMessage>, target: set<int>): seq<ImapMessage>
  {
    if ms == [] then []
    else (if ms[0].seqNum in target then [ms[0]] else []) + WithSeqIn(ms[1..], target)
  }

  function UidFetch(mb: ImapMailbox, text: string): Option<seq<ImapMessage>>
  {
    var target := ParsedUidSet(text, mb.messages);
    if target.None? then None else Some(WithUidIn(mb.messages, target.value))
  }

  function Fetch(mb: ImapMailbox, text: string): Option<seq<ImapMessage>>
  {
    var target := ParsedSeqSet(text, mb.Exists());
    if target.None? then None else Some(WithSeqIn(mb.messages, target.value))
  }

  /** UIDs matching the criteria: ALL, a UID set, and everything for anything else. */
  function ApplySearch(criteria: string, mb: ImapMailbox): Option<seq<int>>
  {
    var stripped := Strip(criteria);
    var upper := Upper(stripped);
    if upper == "" || upper == "ALL" then Some(Uids(mb.messages))
    else if "UID " <= upper then
      var target := ParsedUidSet(stripped[4..], mb.messages);
      if target.None? then None else Some(Uids(WithUidIn(mb.messages, target.value)))
    else Some(Uids(mb.messages))
  }

  /** SEARCH: the sequence numbers of the matching UIDs. */
  function SearchNumbers(criteria: string, mb: ImapMailbox): Option<seq<int>>
  {
    var uids := ApplySearch(criteria, mb);
    if uids.None? then None else Some(NumbersOf(uids.value, mb))
  }

  function NumbersOf(uids: seq<int>, mb: ImapMailbox): seq<int>
  {
    if uids == [] then []
    else
      var m := mb.ByUid(uids[0]);
      (if m.Some? then [m.value.seqNum] else []) + NumbersOf(uids[1..], mb)
  }

  // ---------------------------------------------------------------- sets and their meaning

  datatype End = Number(n: nat) | Largest

  datatype Element = Single(n: nat) | Star | Range(lo: End, hi: End)

  function Resolve(e: End, max: int): int
  {
    if e.Number? then e.n else max
  }

  function PrintEnd(e: End): string
  {
    if e.Number? then Digits(e.n) else "*"
  }

  function PrintElement(e: Element): string
  {
    match e
    case Single(n) => Digits(n)
    case Star => "*"
    case Range(lo, hi) => PrintEnd(lo) + ":" + PrintEnd(hi)
  }

  function PrintSet(elements: seq<Element>): string
  {
    Join(seq(|elements|, i requires 0 <= i < |elements| => PrintElement(elements[i])), ',')
  }

  /** The numbers an element stands for in section 9 of RFC 3501: a range covers what lies
      between its ends, in whichever order they are written. */
  predicate Covers(e: Element, max: int, u: int)
  {
    match e
    case Single(n) => u == n
    case Star => u == max
    case Range(lo, hi) =>
      var a, b := Resolve(lo, max), Resolve(hi, max);
      (if a <= b then a else b) <= u <= (if a <= b then b else a)
  }

  /** What the server takes an element for: a range written backwards is empty. */
  predicate Takes(e: Element, max: int, u: int)
  {
    if e.Range? then Resolve(e.lo, max) <= u <= Resolve(e.hi, max) else Covers(e, max, u)
  }

  /** The server reads an element as the standard does, for every number in use, exactly when
      the range is not written backwards or nothing in use lies inside it. */
  lemma ElementReadRight(e: Element, max: int, inUse: set<int>)
    ensures (forall u | u in inUse :: Takes(e, max, u) <==> Covers(e, max, u))
       <==> (e.Range? && Resolve(e.lo, max) > Resolve(e.hi, max) ==>
               forall u | u in inUse :: !(Resolve(e.hi, max) <= u <= Resolve(e.lo, max)))
  {
    if e.Range? && Resolve(e.lo, max) > Resolve(e.hi, max) {
      forall u | u in inUse
        ensures !Takes(e, max, u)
        ensures Covers(e, max, u) <==> Resolve(e.hi, max) <= u <= Resolve(e.lo, max)
      {
      }
    }
  }
}
