/** The incremental decoder of newline-delimited streams. */
module Decoder {
  import opened Wrappers
  import opened Lists

  /** A UTF-16 code unit. Texts are cut between code units, so also inside a surrogate pair. */
  newtype CodeUnit = u: int | 0 <= u < 0x1_0000

  type Text = seq<CodeUnit>

  const NEWLINE: CodeUnit := 0xA

  /** The newline-terminated lines of a text, and what follows the last newline. */
  datatype Pieces = Pieces(lines: seq<Text>, tail: Text)

  function Split(text: Text): Pieces {
    if text == [] then Pieces([], [])
    else
      var n := |text| - 1;
      var before := Split(text[..n]);
      if text[n] == NEWLINE then Pieces(before.lines + [before.tail], [])
      else Pieces(before.lines, before.tail + [text[n]])
  }

  function Join(lines: seq<Text>): Text {
    if lines == [] then []
    else Join(lines[..|lines| - 1]) + lines[|lines| - 1] + [NEWLINE]
  }

  function Concat(chunks: seq<Text>): Text {
    if chunks == [] then []
    else Concat(chunks[..|chunks| - 1]) + chunks[|chunks| - 1]
  }

  ghost predicate NewlineFree(p: Pieces) {
    NEWLINE !in p.tail && forall i | 0 <= i < |p.lines| :: NEWLINE !in p.lines[i]
  }

  lemma {:induction false} SplitPieces(text: Text)
    ensures NewlineFree(Split(text))
    ensures Join(Split(text).lines) + Split(text).tail == text
  {
    if text != [] {
      var n := |text| - 1;
      var before := Split(text[..n]);
      SplitPieces(text[..n]);
      assert text == text[..n] + [text[n]];
      if text[n] == NEWLINE {
        assert (before.lines + [before.tail])[..|before.lines|] == before.lines;
      }
    }
  }

  lemma SplitSnoc(text: Text, c: CodeUnit)
    ensures Split(text + [c])
         == if c == NEWLINE then Pieces(Split(text).lines + [Split(text).tail], [])
            else Pieces(Split(text).lines, Split(text).tail + [c])
  {
    assert (text + [c])[..|text|] == text;
  }

  lemma {:induction false} SplitPlain(text: Text, plain: Text)
    requires NEWLINE !in plain
    ensures Split(text + plain) == Pieces(Split(text).lines, Split(text).tail + plain)
  {
    if plain == [] {
      assert text + plain == text;
    } else {
      var n := |plain| - 1;
      assert text + plain == (text + plain[..n]) + [plain[n]];
      SplitPlain(text, plain[..n]);
      SplitSnoc(text + plain[..n], plain[n]);
      assert plain == plain[..n] + [plain[n]];
    }
  }

  /** Cutting a text into newline-free lines and a newline-free rest is possible in one way only. */
  lemma {:induction false} SplitUnique(p: Pieces)
    requires NewlineFree(p)
    ensures Split(Join(p.lines) + p.tail) == p
    decreases |p.lines|
  {
    if p.lines == [] {
      assert Join(p.lines) + p.tail == [] + p.tail;
    } else {
      var n := |p.lines| - 1;
      var rest := Join(p.lines[..n]) + p.lines[n];
      assert p.lines == p.lines[..n] + [p.lines[n]];
      SplitUnique(Pieces(p.lines[..n], p.lines[n]));
      SplitSnoc(rest, NEWLINE);
      assert Join(p.lines) == rest + [NEWLINE];
    }
    SplitPlain(Join(p.lines), p.tail);
  }

  /** The results of the lines up to the first that does not parse. */
  function Parsed<T>(parse: Text -> Option<T>, lines: seq<Text>): (r: seq<T>)
    ensures |r| <= |lines|
  {
    if lines == [] then []
    else
      var n := |lines| - 1;
      var r := Parsed(parse, lines[..n]);
      match parse(lines[n])
      case Some(x) => if |r| == n then r + [x] else r
      case None => r
  }

  lemma {:induction false} ParsedStops<T>(parse: Text -> Option<T>, lines: seq<Text>, n: nat)
    requires n < |lines| && parse(lines[n]).None?
    ensures Parsed(parse, lines) == Parsed(parse, lines[..n])
    ensures |Parsed(parse, lines)| <= n
    decreases |lines|
  {
    if n < |lines| - 1 {
      assert lines[..|lines| - 1][..n] == lines[..n];
      ParsedStops(parse, lines[..|lines| - 1], n);
    }
  }

  lemma {:induction false} ParsedAll<T>(parse: Text -> Option<T>, lines: seq<Text>)
    ensures |Parsed(parse, lines)| == |lines| <==> forall i | 0 <= i < |lines| :: parse(lines[i]).Some?
    ensures |Parsed(parse, lines)| == |lines| ==>
              forall i | 0 <= i < |lines| :: parse(lines[i]) == Some(Parsed(parse, lines)[i])
  {
    if lines != [] {
      ParsedAll(parse, lines[..|lines| - 1]);
    }
  }

  /** Lines already split stay the first lines of any longer text. */
  lemma {:induction false} LinesGrow(text: Text, more: Text)
    ensures Split(text).lines <= Split(text + more).lines
  {
    if more == [] {
      assert text + more == text;
    } else {
      var n := |more| - 1;
      LinesGrow(text, more[..n]);
      assert text + more == (text + more[..n]) + [more[n]];
      SplitSnoc(text + more[..n], more[n]);
    }
  }

  lemma JoinSnoc(lines: seq<Text>, line: Text)
    ensures Join(lines + [line]) == Join(lines) + line + [NEWLINE]
  {
    assert (lines + [line])[..|lines|] == lines;
  }

  /** Examining one more code unit, seen from the text and from the buffer that holds the current line and the rest. */
  lemma NextUnit(text: Text, m: nat)
    requires m <= |text|
    ensures m < |text| <==> |Split(text[..m]).tail| < |Split(text[..m]).tail + text[m..]|
    ensures m < |text| ==>
              var before, after := Split(text[..m]), Split(text[..m + 1]);
              var buf := before.tail + text[m..];
              && buf[..|before.tail|] == before.tail
              && buf[|before.tail|] == text[m]
              && (if text[m] == NEWLINE
                  then after == Pieces(before.lines + [before.tail], []) && buf[|before.tail| + 1..] == text[m + 1..]
                  else after == Pieces(before.lines, before.tail + [text[m]]) && buf == after.tail + text[m + 1..])
  {
    if m < |text| {
      assert text[..m + 1] == text[..m] + [text[m]];
      SplitSnoc(text[..m], text[m]);
      assert text[m..] == [text[m]] + text[m + 1..];
    }
  }

  lemma ParsedSnoc<T>(parse: Text -> Option<T>, lines: seq<Text>, line: Text)
    requires |Parsed(parse, lines)| == |lines| && parse(line).Some?
    ensures Parsed(parse, lines + [line]) == Parsed(parse, lines) + [parse(line).value]
  {
    assert (lines + [line])[..|lines|] == lines;
  }

  /** In the middle of a chunk: `m` code units of `text` have been examined. */
  ghost predicate Scanned<T>(
    parse: Text -> Option<T>, text: Text, m: nat, buf: Text, pos: nat, emitted: seq<T>)
  {
    m <= |text| && Holds(parse, Split(text[..m]), text[m..], buf, pos, emitted)
  }

  /** The buffer holds the current line and the unexamined text; every line before has been parsed and emitted. */
  ghost predicate Holds<T>(
    parse: Text -> Option<T>, seen: Pieces, unseen: Text, buf: Text, pos: nat, emitted: seq<T>)
  {
    && pos == |seen.tail|
    && buf == seen.tail + unseen
    && emitted == Parsed(parse, seen.lines)
    && |emitted| == |seen.lines|
  }

  lemma ScanLine<T>(parse: Text -> Option<T>, text: Text, m: nat, buf: Text, pos: nat, emitted: seq<T>)
    requires Scanned(parse, text, m, buf, pos, emitted)
    requires pos < |buf| && buf[pos] == NEWLINE && parse(buf[..pos]).Some?
    ensures Scanned(parse, text, m + 1, buf[pos + 1..], 0, emitted + [parse(buf[..pos]).value])
  {
    NextUnit(text, m);
    ParsedSnoc(parse, Split(text[..m]).lines, buf[..pos]);
  }

  lemma ScanPlain<T>(parse: Text -> Option<T>, text: Text, m: nat, buf: Text, pos: nat, emitted: seq<T>)
    requires Scanned(parse, text, m, buf, pos, emitted)
    requires pos < |buf| && buf[pos] != NEWLINE
    ensures Scanned(parse, text, m + 1, buf, pos + 1, emitted)
  {
    NextUnit(text, m);
  }

  /** The line that ends at `m` is the first that does not parse. */
  lemma FailedAt<T>(parse: Text -> Option<T>, text: Text, m: nat, line: Text)
    requires m < |text| && text[m] == NEWLINE && parse(line).None?
    requires line == Split(text[..m]).tail
    requires |Parsed(parse, Split(text[..m]).lines)| == |Split(text[..m]).lines|
    ensures var lines := Split(text).lines;
            && Parsed(parse, lines) == Parsed(parse, Split(text[..m]).lines)
            && |Parsed(parse, lines)| < |lines|
            && lines[|Parsed(parse, lines)|] == line
            && Join(lines[..|Parsed(parse, lines)|]) + line + text[m..] == text
  {
    var before, lines := Split(text[..m]), Split(text).lines;
    SplitPieces(text[..m]);
    assert text[..m + 1] == text[..m] + [text[m]];
    SplitSnoc(text[..m], text[m]);
    assert text == text[..m + 1] + text[m + 1..];
    LinesGrow(text[..m + 1], text[m + 1..]);
    var n := |before.lines|;
    assert lines[..n + 1] == before.lines + [line];
    assert lines[..n] == lines[..n + 1][..n] == before.lines;
    ParsedStops(parse, lines, n);
    assert text == text[..m] + text[m..];
  }

  lemma ScanFailed<T>(parse: Text -> Option<T>, text: Text, m: nat, buf: Text, pos: nat, emitted: seq<T>)
    requires Scanned(parse, text, m, buf, pos, emitted)
    requires pos < |buf| && buf[pos] == NEWLINE && parse(buf[..pos]).None?
    ensures emitted == Parsed(parse, Split(text).lines)
    ensures |emitted| < |Split(text).lines|
    ensures buf[..pos] == Split(text).lines[|emitted|]
    ensures Join(Split(text).lines[..|emitted|]) + buf == text
  {
    NextUnit(text, m);
    var line := Split(text[..m]).tail;
    assert buf[..pos] == line && text[m] == NEWLINE;
    FailedAt(parse, text, m, line);
    Associative(Join(Split(text).lines[..|emitted|]), line, text[m..]);
  }

  lemma StartScan<T>(parse: Text -> Option<T>, received: Text, chunk: Text, buf: Text, emitted: seq<T>)
    requires buf == Split(received).tail
    requires emitted == Parsed(parse, Split(received).lines) && |emitted| == |Split(received).lines|
    ensures Scanned(parse, received + chunk, |received|, buf + chunk, |buf|, emitted)
  {
    assert (received + chunk)[..|received|] == received && (received + chunk)[|received|..] == chunk;
  }

  lemma ScanDone<T>(parse: Text -> Option<T>, text: Text, m: nat, buf: Text, pos: nat, emitted: seq<T>)
    requires Scanned(parse, text, m, buf, pos, emitted) && pos >= |buf|
    ensures m == |text| && pos == |buf| && buf == Split(text).tail
    ensures emitted == Parsed(parse, Split(text).lines) && |emitted| == |Split(text).lines|
    ensures Join(Split(text).lines[..|emitted|]) + buf == text
  {
    assert text[..|text|] == text;
    assert Split(text).lines[..|emitted|] == Split(text).lines;
    SplitPieces(text);
  }

  class LineDecoder<T> {
    /** Parsing a line and taking its result; nothing when either throws. */
    const parse: Text -> Option<T>

    var buf: Text
    var pos: nat
    // What has been enqueued downstream.
    var emitted: seq<T>

    ghost var received: Text

    /** Between chunks of a stream that has not failed. */
    ghost predicate Valid()
      reads this
    {
      && pos == |buf|
      && buf == Split(received).tail
      && emitted == Parsed(parse, Split(received).lines)
      && |emitted| == |Split(received).lines|
    }

    constructor (parse: Text -> Option<T>)
      ensures Valid() && received == [] && this.parse == parse
    {
      this.parse := parse;
      buf, pos, emitted, received := [], 0, [], [];
    }

    /** At a newline: parses the line before it, and enqueues its result and cuts it off if it parses. */
    method TakeLine(ghost text: Text, ghost m: nat) returns (ok: bool)
      requires Scanned(parse, text, m, buf, pos, emitted)
      requires pos < |buf| && buf[pos] == NEWLINE
      modifies this`buf, this`pos, this`emitted
      ensures ok <==> parse(old(buf[..pos])).Some?
      ensures ok ==> Scanned(parse, text, m + 1, buf, pos, emitted) && |buf| - pos == old(|buf| - pos) - 1
      ensures !ok ==> unchanged(this)
    {
      var line, rest := buf[..pos], buf[pos + 1..];
      var response := parse(line);
      if response.None? {
        return false;
      }
      ScanLine(parse, text, m, buf, pos, emitted);
      emitted := emitted + [response.value];
      buf, pos := rest, 0;
      ok := true;
    }

    /**
     Takes one chunk. What is enqueued depends on the text received so far, not on its chunks. The call fails on
     the first line that does not parse; otherwise it makes one loop iteration per code unit of the chunk.
     */
    method Transform(chunk: Text) returns (ok: bool, ghost iterations: nat)
      requires Valid()
      modifies this
      ensures received == old(received) + chunk
      ensures emitted == Parsed(parse, Split(received).lines)
      ensures ok <==> |emitted| == |Split(received).lines|
      ensures ok ==> Valid() && iterations == |chunk|
      ensures !ok ==> iterations < |chunk| && pos < |buf| && buf[..pos] == Split(received).lines[|emitted|]
      ensures Join(Split(received).lines[..|emitted|]) + buf == received
    {
      ghost var text, m := received + chunk, |received|;
      StartScan(parse, received, chunk, buf, emitted);
      received := text;
      buf := buf + chunk;
      iterations := 0;
      while pos < |buf|
        invariant received == text && m == |old(received)| + iterations
        invariant Scanned(parse, text, m, buf, pos, emitted)
        decreases |buf| - pos
      {
        ghost var left := |buf| - pos;
        if buf[pos] == NEWLINE {
          ok := TakeLine(text, m);
          if !ok {
            ScanFailed(parse, text, m, buf, pos, emitted);
            return false, iterations;
          }
        } else {
          ScanPlain(parse, text, m, buf, pos, emitted);
          pos := pos + 1;
        }
        iterations := iterations + 1;
        m := m + 1;
        assert |buf| - pos == left - 1;
      }
      ScanDone(parse, text, m, buf, pos, emitted);
      ok := true;
    }

    /** Feeds a stream, chunk by chunk, until it ends or fails. */
    method Feed(chunks: seq<Text>) returns (ok: bool, ghost iterations: nat)
      requires Valid() && received == []
      modifies this
      ensures emitted == Parsed(parse, Split(Concat(chunks)).lines)
      ensures ok <==> forall i | 0 <= i < |Split(Concat(chunks)).lines| :: parse(Split(Concat(chunks)).lines[i]).Some?
      ensures ok ==> buf == Split(Concat(chunks)).tail && iterations == |Concat(chunks)|
    {
      iterations := 0;
      for i := 0 to |chunks|
        invariant Valid() && received == Concat(chunks[..i])
        invariant iterations == |Concat(chunks[..i])|
      {
        assert chunks[..i + 1][..i] == chunks[..i];
        ghost var n;
        ok, n := Transform(chunks[i]);
        if !ok {
          FailsForGood(chunks, i + 1);
          return false, iterations;
        }
        iterations := iterations + n;
      }
      assert chunks[..|chunks|] == chunks;
      ParsedAll(parse, Split(received).lines);
      ok := true;
    }

    /** Text after a line that does not parse changes nothing any more. */
    lemma FailsForGood(chunks: seq<Text>, n: nat)
      requires n <= |chunks|
      requires |Parsed(parse, Split(Concat(chunks[..n])).lines)| < |Split(Concat(chunks[..n])).lines|
      ensures Parsed(parse, Split(Concat(chunks)).lines) == Parsed(parse, Split(Concat(chunks[..n])).lines)
      ensures !forall i | 0 <= i < |Split(Concat(chunks)).lines| :: parse(Split(Concat(chunks)).lines[i]).Some?
    {
      var early, all := Split(Concat(chunks[..n])).lines, Split(Concat(chunks)).lines;
      ConcatPrefix(chunks, n);
      LinesGrow(Concat(chunks[..n]), Concat(chunks[n..]));
      ParsedAll(parse, early);
      var i :| 0 <= i < |early| && parse(early[i]).None?;
      assert all[i] == early[i] && all[..i] == early[..i];
      ParsedStops(parse, early, i);
      ParsedStops(parse, all, i);
    }
  }

  lemma {:induction false} ConcatPrefix(chunks: seq<Text>, n: nat)
    requires n <= |chunks|
    ensures Concat(chunks) == Concat(chunks[..n]) + Concat(chunks[n..])
    decreases |chunks|
  {
    if n == |chunks| {
      assert chunks[..n] == chunks;
    } else {
      var k := |chunks| - 1;
      ConcatPrefix(chunks[..k], n);
      assert chunks[..k][..n] == chunks[..n];
      assert chunks[n..][..k - n] == chunks[..k][n..];
    }
  }
}
