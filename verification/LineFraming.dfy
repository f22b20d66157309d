/**
 The newline framing of the worker's event stream: text arrives in arbitrary chunks, and a line is
 delivered as soon as its newline has arrived.
 */
module LineFraming {
  const NEWLINE: char := '\n'

  /** The newline-terminated lines of a text, without their newlines, and the unfinished rest. */
  function Lines(text: string): seq<string> {
    if NEWLINE !in text then [] else
    var i := FirstNewline(text);
    [text[..i]] + Lines(text[i + 1..])
  }

  function Rest(text: string): string {
    if NEWLINE !in text then text else Rest(text[FirstNewline(text) + 1..])
  }

  function FirstNewline(text: string): (i: nat)
    requires NEWLINE in text
    ensures i < |text| && text[i] == NEWLINE && NEWLINE !in text[..i]
  {
    if text[0] == NEWLINE then 0 else
    var j := FirstNewline(text[1..]);
    assert text[..j + 1] == [text[0]] + text[1..][..j];
    j + 1
  }

  function Concat(chunks: seq<string>): string {
    if chunks == [] then "" else Concat(chunks[..|chunks| - 1]) + chunks[|chunks| - 1]
  }

  /** Each message followed by a newline: what main writes to the stream. */
  function Frame(messages: seq<string>): string {
    if messages == [] then "" else messages[0] + [NEWLINE] + Frame(messages[1..])
  }

  lemma {:induction false} FirstNewlineIs(text: string, i: nat)
    requires i < |text| && text[i] == NEWLINE && NEWLINE !in text[..i]
    ensures FirstNewline(text) == i
  {
    NotBefore(text, i, FirstNewline(text));
    NotBefore(text, FirstNewline(text), i);
  }

  lemma {:induction false} NotBefore(text: string, i: nat, j: nat)
    requires i < |text| && text[i] == NEWLINE && j < |text| && NEWLINE !in text[..j]
    ensures i >= j
  {
    assert text[..j] == seq(j, k requires 0 <= k < j => text[k]);
  }

  /** A text that starts with a finished line. */
  lemma {:induction false} LinesOfFinished(line: string, text: string)
    requires NEWLINE !in line
    ensures Lines(line + [NEWLINE] + text) == [line] + Lines(text)
    ensures Rest(line + [NEWLINE] + text) == Rest(text)
  {
    var whole := line + [NEWLINE] + text;
    assert whole[..|line|] == line && whole[|line|] == NEWLINE && whole[|line| + 1..] == text;
    FirstNewlineIs(whole, |line|);
  }

  /** What more text adds depends on the unfinished rest only. */
  lemma {:induction false} LinesAppend(a: string, b: string)
    ensures Lines(a + b) == Lines(a) + Lines(Rest(a) + b)
    ensures Rest(a + b) == Rest(Rest(a) + b)
    decreases |a|
  {
    hide Lines, Rest;
    if NEWLINE in a {
      var i := FirstNewline(a);
      var line, more := a[..i], a[i + 1..];
      assert a == line + [NEWLINE] + more;
      assert a + b == line + [NEWLINE] + (more + b);
      LinesOfFinished(line, more);
      LinesOfFinished(line, more + b);
      LinesAppend(more, b);
    } else {
      NoFinishedLine(a);
    }
  }

  lemma {:induction false} FrameCons(line: string, lines: seq<string>, rest: string)
    ensures Frame([line] + lines) + rest == line + [NEWLINE] + (Frame(lines) + rest)
  {
    assert ([line] + lines)[1..] == lines;
  }

  /** Lines and rest are the text again, and no line holds a newline: this fixes them both. */
  lemma {:induction false} LinesReframe(text: string)
    ensures Frame(Lines(text)) + Rest(text) == text
    ensures NEWLINE !in Rest(text) && forall line <- Lines(text) :: NEWLINE !in line
  {
    hide Lines, Rest, Frame;
    if NEWLINE in text {
      var i := FirstNewline(text);
      var line, more := text[..i], text[i + 1..];
      LinesReframe(more);
      assert text == line + [NEWLINE] + more;
      LinesOfFinished(line, more);
      FrameCons(line, Lines(more), Rest(more));
    } else {
      NoFinishedLine(text);
      FrameEmpty();
    }
  }

  lemma {:induction false} FrameEmpty()
    ensures Frame([]) == ""
  {
  }

  /** Messages without embedded newlines survive framing, with any unfinished text after them. */
  lemma {:induction false} FramedMessagesRoundTrip(messages: seq<string>, unfinished: string)
    requires NEWLINE !in unfinished && forall m <- messages :: NEWLINE !in m
    ensures Lines(Frame(messages) + unfinished) == messages
    ensures Rest(Frame(messages) + unfinished) == unfinished
  {
    hide Lines, Rest, Frame;
    if messages != [] {
      var more := Frame(messages[1..]) + unfinished;
      FramedMessagesRoundTrip(messages[1..], unfinished);
      LinesOfFinished(messages[0], more);
      assert messages == [messages[0]] + messages[1..];
      FrameCons(messages[0], messages[1..], unfinished);
    } else {
      FrameEmpty();
      assert "" + unfinished == unfinished;
      NoFinishedLine(unfinished);
    }
  }

  method IndexOf(text: string, c: char) returns (i: int)
    ensures c in text <==> i >= 0
    ensures i >= 0 ==> i < |text| && text[i] == c && c !in text[..i]
  {
    i := 0;
    while i < |text|
      invariant 0 <= i <= |text| && c !in text[..i]
    {
      if text[i] == c {
        return;
      }
      i := i + 1;
    }
    i := -1;
  }

  lemma {:induction false} NoFinishedLine(text: string)
    requires NEWLINE !in text
    ensures Lines(text) == [] && Rest(text) == text
  {
  }

  /** Delivers every finished line of the buffer and keeps the rest. */
  method DeliverFinished(text: string) returns (delivered: seq<string>, buffered: string)
    ensures delivered == Lines(text) && buffered == Rest(text)
  {
    hide Lines, Rest;
    delivered, buffered := [], text;
    var newline := IndexOf(buffered, NEWLINE);
    while newline >= 0
      invariant NEWLINE in buffered <==> newline >= 0
      invariant newline >= 0 ==> newline < |buffered| && buffered[newline] == NEWLINE && NEWLINE !in buffered[..newline]
      invariant delivered + Lines(buffered) == Lines(text)
      invariant Rest(buffered) == Rest(text)
      decreases |buffered|
    {
      assert buffered == buffered[..newline] + [NEWLINE] + buffered[newline + 1..];
      LinesOfFinished(buffered[..newline], buffered[newline + 1..]);
      delivered := delivered + [buffered[..newline]];
      buffered := buffered[newline + 1..];
      newline := IndexOf(buffered, NEWLINE);
    }
    NoFinishedLine(buffered);
  }

  /** Reads a stream to its end or break: the lines delivered, however it was cut into chunks. */
  method ReadLines(chunks: seq<string>) returns (delivered: seq<string>, buffered: string)
    ensures delivered == Lines(Concat(chunks)) && buffered == Rest(Concat(chunks))
  {
    delivered, buffered := [], "";
    for k := 0 to |chunks|
      invariant delivered == Lines(Concat(chunks[..k])) && buffered == Rest(Concat(chunks[..k]))
    {
      hide Lines, Rest;
      assert chunks[..k + 1][..k] == chunks[..k];
      LinesAppend(Concat(chunks[..k]), chunks[k]);
      var lines;
      lines, buffered := DeliverFinished(buffered + chunks[k]);
      delivered := delivered + lines;
    }
    assert chunks[..|chunks|] == chunks;
  }
}
