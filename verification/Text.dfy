/** The string operations of the original that its parsers are made of. Case mapping covers
    ASCII letters. */
module Text {

  import opened Options

  /** str.isspace of one character. */
  predicate IsSpace(c: char)
  {
    var k := c as int;
    || 0x09 <= k <= 0x0D || 0x1C <= k <= 0x20 || k == 0x85 || k == 0xA0 || k == 0x1680
    || 0x2000 <= k <= 0x200A || k == 0x2028 || k == 0x2029 || k == 0x202F || k == 0x205F || k == 0x3000
  }

  function LStrip(s: string): (r: string)
    ensures r != "" ==> !IsSpace(r[0])
  {
    if s != "" && IsSpace(s[0]) then LStrip(s[1..]) else s
  }

  function RStrip(s: string): (r: string)
    ensures r != "" ==> !IsSpace(r[|r| - 1])
  {
    if s != "" && IsSpace(s[|s| - 1]) then RStrip(s[..|s| - 1]) else s
  }

  function Strip(s: string): string
  {
    RStrip(LStrip(s))
  }

  lemma StripKeeps(s: string)
    requires s != "" ==> !IsSpace(s[0]) && !IsSpace(s[|s| - 1])
    ensures Strip(s) == s
  {
  }

  /** What of the ASCII characters is whitespace: blank, tabs, line ends and the separators
      0x1C to 0x1F; nothing that prints. */
  lemma AsciiSpace(c: char)
    requires (c as int) < 0x80
    ensures IsSpace(c) <==> c == ' ' || 0x09 <= c as int <= 0x0D || 0x1C <= c as int <= 0x1F
  {
  }

  predicate AllSpace(s: string)
  {
    forall i | 0 <= i < |s| :: IsSpace(s[i])
  }

  lemma {:induction false} LStripPads(pad: string, s: string)
    requires AllSpace(pad) && (s != "" ==> !IsSpace(s[0]))
    ensures LStrip(pad + s) == s
  {
    if pad == "" {
      assert pad + s == s;
    } else {
      assert (pad + s)[1..] == pad[1..] + s;
      LStripPads(pad[1..], s);
    }
  }

  lemma {:induction false} RStripPads(s: string, pad: string)
    requires AllSpace(pad) && (s != "" ==> !IsSpace(s[|s| - 1]))
    ensures RStrip(s + pad) == s
  {
    if pad == "" {
      assert s + pad == s;
    } else {
      assert (s + pad)[..|s + pad| - 1] == s + pad[..|pad| - 1];
      RStripPads(s, pad[..|pad| - 1]);
    }
  }

  /** Stripping drops exactly the padding. */
  lemma {:induction false} StripPads(before: string, s: string, after: string)
    requires AllSpace(before) && AllSpace(after) && s != "" && !IsSpace(s[0]) && !IsSpace(s[|s| - 1])
    ensures Strip(before + (s + after)) == s
  {
    LStripPads(before, s + after);
    RStripPads(s, after);
  }

  /** Case mapping: letters change case and keep their place in the alphabet, nothing else
      changes, and the case a text was written in does not matter. */
  lemma CaseMapping(s: string, i: nat)
    requires i < |s|
    ensures |Upper(s)| == |Lower(s)| == |s|
    ensures 'a' <= s[i] <= 'z' ==> Upper(s)[i] as int - 'A' as int == s[i] as int - 'a' as int && Lower(s)[i] == s[i]
    ensures 'A' <= s[i] <= 'Z' ==> Lower(s)[i] as int - 'a' as int == s[i] as int - 'A' as int && Upper(s)[i] == s[i]
    ensures !('a' <= s[i] <= 'z' || 'A' <= s[i] <= 'Z') ==> Upper(s)[i] == Lower(s)[i] == s[i]
    ensures Upper(Lower(s)) == Upper(s) && Lower(Upper(s)) == Lower(s)
  {
  }

  function UpperChar(c: char): char
  {
    if 'a' <= c <= 'z' then (c as int - 32) as char else c
  }

  function Upper(s: string): string
  {
    seq(|s|, i requires 0 <= i < |s| => UpperChar(s[i]))
  }

  function LowerChar(c: char): char
  {
    if 'A' <= c <= 'Z' then (c as int + 32) as char else c
  }

  function Lower(s: string): string
  {
    seq(|s|, i requires 0 <= i < |s| => LowerChar(s[i]))
  }

  /** Index of the first c in s, or |s| when there is none. */
  function IndexOf(s: string, c: char): (i: nat)
    ensures i <= |s|
    ensures i < |s| ==> s[i] == c
    ensures c !in s[..i]
    ensures i == |s| <==> c !in s
  {
    if s == "" || s[0] == c then 0
    else
      assert s == [s[0]] + s[1..];
      var i := IndexOf(s[1..], c);
      assert s[..i + 1] == [s[0]] + s[1..][..i];
      1 + i
  }

  lemma IndexOfAppend(a: string, c: char, b: string)
    requires c !in a
    ensures IndexOf(a + [c] + b, c) == |a|
  {
    var s := a + [c] + b;
    var i := IndexOf(s, c);
    assert forall k | 0 <= k < |a| :: s[k] == a[k] != c;
    assert forall k | 0 <= k < i :: s[k] == s[..i][k] != c;
    assert s[|a|] == c;
  }

  function Split(s: string, sep: char): (parts: seq<string>)
    ensures parts != []
    decreases |s|
  {
    var i := IndexOf(s, sep);
    if i == |s| then [s] else [s[..i]] + Split(s[i + 1..], sep)
  }

  function Join(parts: seq<string>, sep: char): string
  {
    if parts == [] then ""
    else if |parts| == 1 then parts[0]
    else parts[0] + [sep] + Join(parts[1..], sep)
  }

  /** Splitting undoes joining when no part holds the separator. */
  lemma {:induction false} SplitJoin(parts: seq<string>, sep: char)
    requires parts != []
    requires forall p | p in parts :: sep !in p
    ensures Split(Join(parts, sep), sep) == parts
  {
    assert parts[0] in parts;
    if |parts| > 1 {
      var tail := Join(parts[1..], sep);
      IndexOfAppend(parts[0], sep, tail);
      SplitJoin(parts[1..], sep);
      var s := Join(parts, sep);
      assert s[..|parts[0]|] == parts[0] && s[|parts[0]| + 1..] == tail;
    }
  }

  /** The part of s before its first whitespace. */
  function Word(s: string): (w: string)
    ensures w <= s
    ensures forall i | 0 <= i < |w| :: !IsSpace(w[i])
    ensures |w| < |s| ==> IsSpace(s[|w|])
  {
    if s == "" || IsSpace(s[0]) then "" else [s[0]] + Word(s[1..])
  }

  /** s.split(None, n): up to n words, then what is left, with leading whitespace dropped. */
  function SplitWords(s: string, n: nat): (parts: seq<string>)
    ensures forall p | p in parts :: p != ""
    ensures |parts| <= n + 1
    decreases n
  {
    var t := LStrip(s);
    if t == "" then []
    else if n == 0 then [t]
    else
      var w := Word(t);
      [w] + SplitWords(t[|w|..], n - 1)
  }
}
