/** Reading the DATA of an SMTP client (_collect_data of app/proxies/smtp/server.py). */
module SmtpData {
  import opened Options
  import opened LineStream

  const TERMINATOR := ".\r\n"

  predicate StartsWith(s: string, p: string) { p <= s }

  /** Undoing the stuffing of one line. */
  function UnstuffLine(line: string): string
  {
    if StartsWith(line, "..") then line[1..] else line
  }

  /** Specification of the collecting loop with a remaining size budget: the message, if it
      is terminated and fits, and what is left of the stream. */
  function Collect(stream: string, budget: int): (Option<string>, string)
    decreases |stream|
  {
    var line := Line(stream);
    if line == "" then (None, "")
    else if line == TERMINATOR then (Some(""), Rest(stream))
    else
      var u := UnstuffLine(line);
      if |u| > budget then (None, Rest(stream)) else Prepend(u, Collect(Rest(stream), budget - |u|))
  }

  function Prepend(u: string, r: (Option<string>, string)): (Option<string>, string)
  {
    (if r.0.Some? then Some(u + r.0.value) else None, r.1)
  }

  lemma PrependTwice(a: string, b: string, r: (Option<string>, string))
    ensures Prepend(a, Prepend(b, r)) == Prepend(a + b, r)
  {
    assert r.0.Some? ==> a + (b + r.0.value) == a + b + r.0.value;
  }

  lemma PrependNothing(r: (Option<string>, string))
    ensures Prepend("", r) == r
  {
    assert r.0.Some? ==> "" + r.0.value == r.0.value;
  }

  /** Collects DATA lines up to the terminator, undoing dot-stuffing. */
  method CollectData(reader: LineReader, maxMessageBytes: nat) returns (raw: Option<string>)
    modifies reader
    ensures (raw, reader.rest) == Collect(old(reader.rest), maxMessageBytes)
  {
    var chunks := "";
    var total := 0;
    PrependNothing(Collect(reader.rest, maxMessageBytes));
    while true
      invariant total == |chunks| <= maxMessageBytes
      invariant Collect(old(reader.rest), maxMessageBytes)
          == Prepend(chunks, Collect(reader.rest, maxMessageBytes - total))
      decreases |reader.rest|
    {
      ghost var before := reader.rest;
      var line := reader.ReadRaw();
      if line == "" {
        return None;
      }
      if line == TERMINATOR {
        assert Collect(before, maxMessageBytes - total) == (Some(""), reader.rest);
        assert chunks + "" == chunks;
        return Some(chunks);
      }
      if StartsWith(line, "..") {
        line := line[1..];
      }
      total := total + |line|;
      if total > maxMessageBytes {
        return None;
      }
      PrependTwice(chunks, line, Collect(reader.rest, maxMessageBytes - total));
      chunks := chunks + line;
    }
    return None;
  }

  // ---------------------------------------------------------------- independent meaning

  /** The lines before the terminator line (all lines, when there is none). */
  function Body(stream: string): string
    decreases |stream|
  {
    if stream == "" || Line(stream) == TERMINATOR then "" else Line(stream) + Body(Rest(stream))
  }

  predicate Terminated(stream: string)
    decreases |stream|
  {
    stream != "" && (Line(stream) == TERMINATOR || Terminated(Rest(stream)))
  }

  function Unstuff(body: string): string
    decreases |body|
  {
    if body == "" then "" else UnstuffLine(Line(body)) + Unstuff(Rest(body))
  }

  /** A leading dot of every line is doubled (section 4.5.2 of RFC 5321). */
  function Stuff(message: string): string
    decreases |message|
  {
    if message == "" then ""
    else StuffLine(Line(message)) + Stuff(Rest(message))
  }

  /** For every stream: the result is the unstuffed body when the stream is terminated and
      that body fits, and None otherwise. */
  lemma {:induction false} CollectMeaning(stream: string, budget: nat)
    ensures Collect(stream, budget).0
         == if Terminated(stream) && |Unstuff(Body(stream))| <= budget then Some(Unstuff(Body(stream))) else None
    decreases |stream|
  {
    var line := Line(stream);
    if stream != "" && line != TERMINATOR {
      var u := UnstuffLine(line);
      if Terminated(stream) {
        TerminatedLine(stream);
        LineAppend(line, Body(Rest(stream)));
      }
      if |u| <= budget {
        CollectMeaning(Rest(stream), budget - |u|);
      }
    }
  }

  /** On success exactly the bytes after the terminator are left. */
  lemma {:induction false} CollectLeaves(stream: string, budget: int)
    requires Collect(stream, budget).0.Some?
    ensures stream == Body(stream) + TERMINATOR + Collect(stream, budget).1
    decreases |stream|
  {
    var line := Line(stream);
    if line == TERMINATOR {
      assert "" + TERMINATOR == TERMINATOR;
    } else {
      var rest, left := Rest(stream), Collect(stream, budget).1;
      CollectLeaves(rest, budget - |UnstuffLine(line)|);
      Regroup(line, Body(rest), TERMINATOR, left);
    }
  }

  /** kept is made of whole lines within the budget, and line is the next one, which exceeds it. */
  ghost predicate Overflows(kept: string, line: string, left: string, budget: nat)
  {
    && MadeOfLines(kept)
    && line != "" && Line(line + left) == line
    && |Unstuff(kept)| <= budget < |Unstuff(kept)| + |UnstuffLine(line)|
  }

  lemma OverflowsLater(first: string, kept: string, line: string, left: string, budget: nat)
    requires first != "" && first[|first| - 1] == '\n' && forall i | 0 <= i < |first| - 1 :: first[i] != '\n'
    requires |UnstuffLine(first)| <= budget && Overflows(kept, line, left, budget - |UnstuffLine(first)|)
    ensures Overflows(first + kept, line, left, budget)
  {
    LineAppend(first, kept);
    assert kept != "" ==> (first + kept)[|first + kept| - 1] == kept[|kept| - 1];
  }

  /** When the body is too large, reading stops behind the first line that exceeds the limit:
      the rest of the body and the terminator are still ahead. */
  lemma {:induction false} OversizeLeaves(stream: string, budget: nat) returns (kept: string, line: string)
    requires |Unstuff(Body(stream))| > budget
    ensures var left := Collect(stream, budget).1;
            Overflows(kept, line, left, budget) && stream == kept + line + left && kept + line <= Body(stream)
    decreases |stream|
  {
    var first, rest, left := Line(stream), Rest(stream), Collect(stream, budget).1;
    FirstLineOfBody(stream);
    if |UnstuffLine(first)| > budget {
      kept, line := "", first;
      assert kept + line == first;
    } else {
      var k;
      k, line := OversizeLeaves(rest, budget - |UnstuffLine(first)|);
      kept := first + k;
      assert left == Collect(rest, budget - |UnstuffLine(first)|).1;
      OverflowsLater(first, k, line, left, budget);
      LongerPrefix(first, rest, Body(rest), k, line, left);
    }
  }

  lemma LongerPrefix(first: string, rest: string, body: string, kept: string, line: string, left: string)
    requires rest == kept + line + left && kept + line <= body
    ensures first + rest == first + kept + line + left && first + kept + line <= first + body
  {
    Regroup(first, kept, line, left);
    assert body == (kept + line) + body[|kept + line|..];
    assert first + body == first + kept + line + body[|kept + line|..];
  }

  /** A body of more than its first line starts with a line that ends in LF. */
  lemma FirstLineOfBody(stream: string)
    requires stream != "" && Line(stream) != TERMINATOR
    ensures Body(stream) == Line(stream) + Body(Rest(stream)) && Unstuff("") == ""
    ensures Rest(stream) != "" ==> Line(stream)[|Line(stream)| - 1] == '\n'
    ensures Unstuff(Body(stream)) == UnstuffLine(Line(stream)) + Unstuff(Body(Rest(stream)))
  {
    var line, rest := Line(stream), Rest(stream);
    if rest != "" {
      assert line != stream;
      LineAppend(line, Body(rest));
    } else {
      assert Body(stream) == line == stream;
    }
  }

  /** A stream that ends before its terminator is read to its end, if the body fits. */
  lemma {:induction false} UnterminatedLeavesNothing(stream: string, budget: nat)
    requires !Terminated(stream) && |Unstuff(Body(stream))| <= budget
    ensures Collect(stream, budget).1 == ""
    decreases |stream|
  {
    if stream != "" {
      CollectFirstLine(stream, budget);
      UnterminatedLeavesNothing(Rest(stream), budget - |UnstuffLine(Line(stream))|);
    }
  }

  lemma CollectFirstLine(stream: string, budget: nat)
    requires stream != "" && !Terminated(stream) && |Unstuff(Body(stream))| <= budget
    ensures var n := |UnstuffLine(Line(stream))|;
            && n <= budget && !Terminated(Rest(stream)) && |Unstuff(Body(Rest(stream)))| <= budget - n
            && Collect(stream, budget).1 == Collect(Rest(stream), budget - n).1
  {
    FirstLineOfBody(stream);
    assert |Unstuff(Body(stream))| == |UnstuffLine(Line(stream))| + |Unstuff(Body(Rest(stream)))|;
  }

  lemma Regroup(a: string, b: string, c: string, d: string)
    ensures a + (b + c + d) == a + b + c + d
    ensures a + (b + c) == a + b + c
  {
  }

  /** A line that is not the last one of the stream ends in LF. */
  lemma TerminatedLine(stream: string)
    requires Terminated(stream)
    ensures Line(stream)[|Line(stream)| - 1] == '\n'
  {
    var line := Line(stream);
    assert line[|line| - 1] != '\n' ==> |Rest(stream)| == 0;
  }

  /** A message made of lines: empty, or ending with LF. CRLF-ended lines are a special case. */
  predicate MadeOfLines(message: string)
  {
    message != "" ==> message[|message| - 1] == '\n'
  }

  function StuffLine(line: string): string
    requires line != ""
  {
    if line[0] == '.' then "." + line else line
  }

  /** A stuffed line is read back whole, is not the terminator, and unstuffs to the line. */
  lemma StuffedLine(line: string, tail: string)
    requires line != "" && line[|line| - 1] == '\n'
    requires forall i | 0 <= i < |line| - 1 :: line[i] != '\n'
    ensures Line(StuffLine(line) + tail) == StuffLine(line) && Rest(StuffLine(line) + tail) == tail
    ensures StuffLine(line) != TERMINATOR && UnstuffLine(StuffLine(line)) == line
  {
    LineAppend(StuffLine(line), tail);
    StuffedLineReads(line);
  }

  lemma StuffedLineReads(line: string)
    requires line != "" && line[|line| - 1] == '\n'
    ensures StuffLine(line) != TERMINATOR && UnstuffLine(StuffLine(line)) == line
  {
    var raw := StuffLine(line);
    if line[0] == '.' {
      assert raw[0] == '.' && raw[1] == '.' && raw[1..] == line;
    } else {
      assert raw[0] != '.';
    }
  }

  /** Sending a stuffed message, the terminator and any further bytes: the connection reads
      the message back exactly when it fits, and leaves exactly the further bytes. */
  lemma {:induction false} DataRoundTrip(message: string, rest: string, max: nat)
    requires MadeOfLines(message)
    ensures var (m, left) := Collect(Stuff(message) + TERMINATOR + rest, max);
            if |message| <= max then m == Some(message) && left == rest else m == None
    decreases |message|
  {
    if message == "" {
      LineAppend(TERMINATOR, rest);
      assert "" + TERMINATOR + rest == TERMINATOR + rest;
    } else {
      var line := Line(message);
      FirstDataLine(message, rest, max);
      if |line| <= max {
        DataRoundTrip(Rest(message), rest, max - |line|);
      }
    }
  }

  /** line is the first line of the message that exceeds the limit, between kept and more. */
  ghost predicate ExceedsAt(message: string, kept: string, line: string, more: string, max: nat)
  {
    && message == kept + line + more
    && MadeOfLines(kept) && Line(line + more) == line
    && |kept| <= max < |kept| + |line|
  }

  lemma ExceedsLater(first: string, others: string, kept: string, line: string, more: string, max: nat)
    requires first != "" && first[|first| - 1] == '\n' && |first| <= max
    requires ExceedsAt(others, kept, line, more, max - |first|)
    ensures ExceedsAt(first + others, first + kept, line, more, max)
  {
    Regroup(first, kept, line, more);
    assert kept != "" ==> (first + kept)[|first + kept| - 1] == kept[|kept| - 1];
  }

  lemma ExceedsAtOnce(first: string, others: string, max: nat)
    requires Line(first + others) == first && |first| > max
    ensures ExceedsAt(first + others, "", first, others, max)
  {
    assert "" + first + others == first + others;
  }

  /** A message over the limit: the connection leaves the stuffed lines behind the first one
      that exceeds it, then the terminator and the further bytes, all to be read as commands. */
  lemma {:induction false} OversizeDataLeaves(message: string, rest: string, max: nat)
    returns (kept: string, line: string, more: string)
    requires MadeOfLines(message) && |message| > max
    ensures ExceedsAt(message, kept, line, more, max)
    ensures Collect(Stuff(message) + TERMINATOR + rest, max) == (None, Stuff(more) + TERMINATOR + rest)
    decreases |message|
  {
    var first, others := Line(message), Rest(message);
    FirstDataLine(message, rest, max);
    if |first| > max {
      kept, line, more := "", first, others;
      ExceedsAtOnce(first, others, max);
    } else {
      var k;
      k, line, more := OversizeDataLeaves(others, rest, max - |first|);
      kept := first + k;
      ExceedsLater(first, others, k, line, more, max);
    }
  }

  /** Collecting the first line of a stuffed message. */
  lemma FirstDataLine(message: string, rest: string, max: nat)
    requires MadeOfLines(message) && message != ""
    ensures var first, others := Line(message), Rest(message);
            var tail := Stuff(others) + TERMINATOR + rest;
            && first[|first| - 1] == '\n' && MadeOfLines(others)
            && Collect(Stuff(message) + TERMINATOR + rest, max)
               == if |first| > max then (None, tail) else Prepend(first, Collect(tail, max - |first|))
  {
    var first, others := Line(message), Rest(message);
    var tail := Stuff(others) + TERMINATOR + rest;
    assert Stuff(message) == StuffLine(first) + Stuff(others);
    assert Stuff(message) + TERMINATOR + rest == StuffLine(first) + tail by {
      Regroup(StuffLine(first), Stuff(others), TERMINATOR, rest);
    }
    LastLine(message);
    StuffedLine(first, tail);
    CollectLine(StuffLine(first), first, tail, max);
  }

  /** Reading a stuffed message leaves exactly what follows its terminator if and only if the
      message is within the limit. */
  lemma DataEndsInStepIff(message: string, rest: string, max: nat)
    requires MadeOfLines(message)
    ensures Collect(Stuff(message) + TERMINATOR + rest, max).1 == rest <==> |message| <= max
  {
    DataRoundTrip(message, rest, max);
    if |message| > max {
      var kept, line, more := OversizeDataLeaves(message, rest, max);
      assert |Stuff(more) + TERMINATOR + rest| > |rest|;
    }
  }

  lemma CollectLine(raw: string, line: string, tail: string, budget: int)
    requires raw != "" && raw != TERMINATOR && UnstuffLine(raw) == line
    requires Line(raw + tail) == raw && Rest(raw + tail) == tail
    ensures Collect(raw + tail, budget)
         == if |line| > budget then (None, tail) else Prepend(line, Collect(tail, budget - |line|))
  {
  }

  lemma LastLine(message: string)
    requires message != "" && MadeOfLines(message)
    ensures Line(message)[|Line(message)| - 1] == '\n'
    ensures MadeOfLines(Rest(message))
  {
    var more := Rest(message);
    assert more != "" ==> more[|more| - 1] == message[|message| - 1];
  }
}
