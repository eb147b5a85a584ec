/** Reading lines from a client connection (the readers of app/proxies/smtp/server.py and
    app/proxies/imap/server.py). Octets are represented by characters. */
module LineStream {
  import opened Options

  const MAX_LINE_BYTES := 8192

  /** StreamReader.readline: up to and including the first LF, or all that is left. */
  function Line(stream: string): (line: string)
    ensures line <= stream
    ensures stream != "" ==> line != ""
    ensures forall i | 0 <= i < |line| - 1 :: line[i] != '\n'
    ensures line != "" && line[|line| - 1] != '\n' ==> line == stream
  {
    if stream == "" then ""
    else if stream[0] == '\n' then stream[..1]
    else stream[..1] + Line(stream[1..])
  }

  /** What follows the first line. */
  function Rest(stream: string): (rest: string)
    ensures stream == Line(stream) + rest
    ensures stream != "" ==> |rest| < |stream|
  {
    stream[|Line(stream)|..]
  }

  /** The reading side of a connection: what the client sent and was not read yet. */
  class LineReader {
    var rest: string

    constructor (stream: string)
      ensures rest == stream
    {
      rest := stream;
    }

    method ReadRaw() returns (raw: string)
      modifies this
      ensures raw == Line(old(rest)) && rest == Rest(old(rest))
    {
      raw := Line(rest);
      rest := rest[|raw|..];
    }

    /** One command line without its line ending; None at the end of the stream or when the
        line is too long. */
    method ReadLine() returns (line: Option<string>)
      modifies this
      ensures (line, rest) == NextLine(old(rest))
    {
      var raw := ReadRaw();
      if raw == "" || |raw| > MAX_LINE_BYTES {
        return None;
      }
      line := Some(StripLineEnd(raw));
    }
  }

  /** raw.rstrip(b"\r\n") */
  function StripLineEnd(s: string): string
  {
    if s != "" && s[|s| - 1] in {'\r', '\n'} then StripLineEnd(s[..|s| - 1]) else s
  }

  /** The next command line and what follows it. */
  function NextLine(stream: string): (Option<string>, string)
  {
    var raw := Line(stream);
    (if raw == "" || |raw| > MAX_LINE_BYTES then None else Some(StripLineEnd(raw)), Rest(stream))
  }

  lemma LineAppend(line: string, tail: string)
    requires line != "" && line[|line| - 1] == '\n'
    requires forall i | 0 <= i < |line| - 1 :: line[i] != '\n'
    ensures Line(line + tail) == line && Rest(line + tail) == tail
  {
    if |line| > 1 {
      LineAppend(line[1..], tail);
      assert (line + tail)[1..] == line[1..] + tail;
    }
  }
}
