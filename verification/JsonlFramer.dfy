/**
 * Incremental framing of a JSON-lines stream. Decoding a line is an oracle from bytes to an object, another value or
 * nothing; everything about buffering, limits and line ends is modelled.
 */
module JsonlFramer {
  import opened Prelude

  type Byte = b: int | 0 <= b < 256

  type Bytes = seq<Byte>

  const LF: Byte := 10
  const CR: Byte := 13

  datatype Decoded<+V> = Malformed | NotObject | Object(value: V)

  datatype JsonlError = LineTooLarge | BufferTooLarge | LineMalformed | LineNotObject | Truncated

  datatype Limits = Limits(maxLine: nat, maxBuffer: nat)

  /** What a push returns and what it leaves in the buffer. */
  datatype Pushed<V> = Pushed(result: Result<seq<V>, JsonlError>, buffer: Bytes)

  /** The position of the first newline, or the length if there is none. */
  function FirstNewline(bytes: Bytes): (n: nat)
    ensures n <= |bytes|
    ensures n < |bytes| ==> bytes[n] == LF
    ensures forall i :: 0 <= i < n ==> bytes[i] != LF
  {
    if bytes == [] || bytes[0] == LF then 0 else 1 + FirstNewline(bytes[1..])
  }

  function StripReturn(line: Bytes): Bytes {
    if line != [] && line[|line| - 1] == CR then line[..|line| - 1] else line
  }

  // ----- what one push does -------------------------------------------------------------------------------

  /** Takes complete lines off the buffer until none is left or one is refused. */
  function Drain<V>(limits: Limits, decode: Bytes -> Decoded<V>, buffer: Bytes, frames: seq<V>): Pushed<V>
    decreases |buffer|
  {
    var n := FirstNewline(buffer);
    if n == |buffer| then
      if |buffer| > limits.maxLine then Pushed(Err(LineTooLarge), []) else Pushed(Ok(frames), buffer)
    else
      var line, rest := StripReturn(buffer[..n]), buffer[n + 1..];
      if line == [] then Drain(limits, decode, rest, frames)
      else if |line| > limits.maxLine then Pushed(Err(LineTooLarge), [])
      else
        match decode(line)
        case Malformed => Pushed(Err(LineMalformed), rest)
        case NotObject => Pushed(Err(LineNotObject), rest)
        case Object(value) => Drain(limits, decode, rest, frames + [value])
  }

  function Push<V>(limits: Limits, decode: Bytes -> Decoded<V>, buffer: Bytes, bytes: Bytes): Pushed<V> {
    if |buffer + bytes| > limits.maxBuffer then Pushed(Err(BufferTooLarge), [])
    else Drain(limits, decode, buffer + bytes, [])
  }

  predicate Whitespace(b: Byte) {
    b == 32 || b == 9 || b == 10 || b == 12 || b == 13
  }

  class Framer<V(!new)> {
    const limits: Limits
    const decode: Bytes -> Decoded<V>
    var buffer: Bytes

    constructor (limits: Limits, decode: Bytes -> Decoded<V>)
      ensures this.limits == limits && this.decode == decode && buffer == []
    {
      this.limits := limits;
      this.decode := decode;
      buffer := [];
    }

    method PushBytes(bytes: Bytes) returns (result: Result<seq<V>, JsonlError>)
      modifies this
      ensures Pushed(result, buffer) == Push(limits, decode, old(buffer), bytes)
    {
      buffer := buffer + bytes;
      if |buffer| > limits.maxBuffer {
        buffer := [];
        return Err(BufferTooLarge);
      }
      ghost var whole := buffer;
      var frames: seq<V> := [];
      var newline := FirstNewline(buffer);
      while newline < |buffer|
        invariant newline == FirstNewline(buffer)
        invariant Drain(limits, decode, whole, []) == Drain(limits, decode, buffer, frames)
        decreases |buffer|
      {
        var line := StripReturn(buffer[..newline]);
        buffer := buffer[newline + 1..];
        newline := FirstNewline(buffer);
        if line == [] {
          continue;
        }
        if |line| > limits.maxLine {
          buffer := [];
          return Err(LineTooLarge);
        }
        match decode(line) {
          case Malformed => return Err(LineMalformed);
          case NotObject => return Err(LineNotObject);
          case Object(value) => frames := frames + [value];
        }
      }
      if |buffer| > limits.maxLine {
        buffer := [];
        return Err(LineTooLarge);
      }
      result := Ok(frames);
    }

    method Finish() returns (result: Result<(), JsonlError>)
      modifies this
      ensures result == if forall i :: 0 <= i < |old(buffer)| ==> old(buffer)[i] in [9, 10, 12, 13, 32] then Ok(()) else Err(Truncated)
      ensures buffer == if result.Ok? then [] else old(buffer)
    {
      for i := 0 to |buffer|
        invariant forall j :: 0 <= j < i ==> Whitespace(buffer[j])
      {
        if !Whitespace(buffer[i]) {
          return Err(Truncated);
        }
      }
      buffer := [];
      result := Ok(());
    }
  }

  // ----- the reference: split the whole stream at once ----------------------------------------------------

  /** The complete lines of a stream, without their newlines. */
  function Lines(stream: Bytes): seq<Bytes>
    decreases |stream|
  {
    var n := FirstNewline(stream);
    if n == |stream| then [] else [stream[..n]] + Lines(stream[n + 1..])
  }

  /** What follows the last newline. */
  function Tail(stream: Bytes): Bytes
    decreases |stream|
  {
    var n := FirstNewline(stream);
    if n == |stream| then stream else Tail(stream[n + 1..])
  }

  lemma {:induction false} TailIsTheUnfinishedLine(stream: Bytes) returns (cut: nat)
    ensures cut <= |stream| && Tail(stream) == stream[cut..]
    ensures cut == 0 || stream[cut - 1] == LF
    ensures LF !in Tail(stream)
    decreases |stream|
  {
    hide FirstNewline;
    var n := FirstNewline(stream);
    if n == |stream| {
      cut := 0;
    } else {
      var rest := TailIsTheUnfinishedLine(stream[n + 1..]);
      cut := n + 1 + rest;
      assert stream[n + 1..][rest..] == stream[cut..];
    }
  }

  /** The line is blank, or it fits and decodes to an object. */
  predicate Acceptable<V>(limits: Limits, decode: Bytes -> Decoded<V>, line: Bytes) {
    var stripped := StripReturn(line);
    stripped == [] || (|stripped| <= limits.maxLine && decode(stripped).Object?)
  }

  ghost predicate AllAcceptable<V>(limits: Limits, decode: Bytes -> Decoded<V>, lines: seq<Bytes>) {
    forall i :: 0 <= i < |lines| ==> Acceptable(limits, decode, lines[i])
  }

  /** What one line contributes: nothing when it is blank, its object otherwise. */
  function Contribution<V>(decode: Bytes -> Decoded<V>, line: Bytes): seq<V> {
    var stripped := StripReturn(line);
    if stripped == [] || !decode(stripped).Object? then [] else [decode(stripped).value]
  }

  /** The objects of the lines, in order. */
  function Values<V>(decode: Bytes -> Decoded<V>, lines: seq<Bytes>): seq<V> {
    if lines == [] then [] else Contribution(decode, lines[0]) + Values(decode, lines[1..])
  }

  lemma {:induction false} ValuesAppend<V>(decode: Bytes -> Decoded<V>, a: seq<Bytes>, b: seq<Bytes>)
    ensures Values(decode, a + b) == Values(decode, a) + Values(decode, b)
  {
    if a == [] {
      assert a + b == b;
    } else {
      assert (a + b)[1..] == a[1..] + b;
      ValuesAppend(decode, a[1..], b);
    }
  }

  /** Splitting may stop after any prefix and go on from its unfinished line. */
  lemma {:induction false} SplittingResumes(a: Bytes, b: Bytes)
    ensures Lines(a + b) == Lines(a) + Lines(Tail(a) + b)
    ensures Tail(a + b) == Tail(Tail(a) + b)
    decreases |a|
  {
    var n := FirstNewline(a);
    if n < |a| {
      FirstNewlineOfPrefix(a, b);
      assert (a + b)[..n] == a[..n];
      assert (a + b)[n + 1..] == a[n + 1..] + b;
      SplittingResumes(a[n + 1..], b);
    }
  }

  lemma FirstNewlineOfPrefix(a: Bytes, b: Bytes)
    requires FirstNewline(a) < |a|
    ensures FirstNewline(a + b) == FirstNewline(a)
  {
    var n, m := FirstNewline(a), FirstNewline(a + b);
    assert (a + b)[n] == LF;
    assert forall i :: 0 <= i < n ==> (a + b)[i] != LF;
  }

  lemma FirstLine<V>(limits: Limits, decode: Bytes -> Decoded<V>, line: Bytes, lines: seq<Bytes>)
    ensures AllAcceptable(limits, decode, [line] + lines)
            <==> Acceptable(limits, decode, line) && AllAcceptable(limits, decode, lines)
    ensures Values(decode, [line] + lines) == Contribution(decode, line) + Values(decode, lines)
  {
    hide Acceptable, Contribution;
    var all := [line] + lines;
    assert all[0] == line && all[1..] == lines;
    assert forall i :: 0 <= i < |lines| ==> all[i + 1] == lines[i];
  }

  lemma DrainTakesLine<V>(limits: Limits, decode: Bytes -> Decoded<V>, buffer: Bytes, frames: seq<V>)
    requires FirstNewline(buffer) < |buffer|
    ensures var n := FirstNewline(buffer); var line, rest := buffer[..n], buffer[n + 1..];
            if Acceptable(limits, decode, line)
            then Drain(limits, decode, buffer, frames) == Drain(limits, decode, rest, frames + Contribution(decode, line))
            else
              Drain(limits, decode, buffer, frames).result.Err?
              && Drain(limits, decode, buffer, frames).result != Err(BufferTooLarge)
  {
    assert frames + [] == frames;
  }

  lemma SplitTakesLine(stream: Bytes)
    requires FirstNewline(stream) < |stream|
    ensures var n := FirstNewline(stream);
            Lines(stream) == [stream[..n]] + Lines(stream[n + 1..]) && Tail(stream) == Tail(stream[n + 1..])
  {
    hide FirstNewline;
  }

  /** Draining succeeds exactly when every complete line is acceptable and the unfinished one is not too long. */
  ghost predicate Agrees<V>(
    limits: Limits, decode: Bytes -> Decoded<V>, drained: Pushed<V>, frames: seq<V>, lines: seq<Bytes>, tail: Bytes)
  {
    && (drained.result.Ok? <==> AllAcceptable(limits, decode, lines) && |tail| <= limits.maxLine)
    && (drained.result.Ok? ==> drained.buffer == tail && drained.result.value == frames + Values(decode, lines))
    && drained.result != Err(BufferTooLarge)
  }

  lemma UnfinishedAgrees<V>(limits: Limits, decode: Bytes -> Decoded<V>, buffer: Bytes, frames: seq<V>)
    requires FirstNewline(buffer) == |buffer|
    ensures Agrees(limits, decode, Drain(limits, decode, buffer, frames), frames, Lines(buffer), Tail(buffer))
  {
    assert Lines(buffer) == [] && Tail(buffer) == buffer;
  }

  lemma LineAgrees<V>(
    limits: Limits, decode: Bytes -> Decoded<V>, drained: Pushed<V>, frames: seq<V>, line: Bytes, lines: seq<Bytes>, tail: Bytes)
    requires if Acceptable(limits, decode, line) then Agrees(limits, decode, drained, frames + Contribution(decode, line), lines, tail)
             else drained.result.Err? && drained.result != Err(BufferTooLarge)
    ensures Agrees(limits, decode, drained, frames, [line] + lines, tail)
  {
    FirstLine(limits, decode, line, lines);
    hide AllAcceptable, Acceptable, Contribution, Values;
    assert (frames + Contribution(decode, line)) + Values(decode, lines)
        == frames + (Contribution(decode, line) + Values(decode, lines));
  }

  lemma {:induction false} DrainAgreesWithReference<V>(
    limits: Limits, decode: Bytes -> Decoded<V>, buffer: Bytes, frames: seq<V>)
    ensures Agrees(limits, decode, Drain(limits, decode, buffer, frames), frames, Lines(buffer), Tail(buffer))
    decreases |buffer|
  {
    hide Agrees, Acceptable, Contribution, Lines, Tail, Drain;
    var n := FirstNewline(buffer);
    if n == |buffer| {
      UnfinishedAgrees(limits, decode, buffer, frames);
    } else {
      var line, rest := buffer[..n], buffer[n + 1..];
      SplitTakesLine(buffer);
      DrainTakesLine(limits, decode, buffer, frames);
      if Acceptable(limits, decode, line) {
        DrainAgreesWithReference(limits, decode, rest, frames + Contribution(decode, line));
      }
      LineAgrees(limits, decode, Drain(limits, decode, buffer, frames), frames, line, Lines(rest), Tail(rest));
    }
  }

  // ----- lines and errors, byte by byte -------------------------------------------------------------------

  lemma NewlineIsAt(line: Bytes, rest: Bytes)
    requires 10 !in line
    ensures FirstNewline(line + [10] + rest) == |line| && FirstNewline(line) == |line|
  {
    var stream := line + [10] + rest;
    assert stream[|line|] == 10;
    assert forall i :: 0 <= i < |line| ==> stream[i] in line && line[i] in line;
  }

  /** A line ends at byte 10, and one byte 13 before that does not belong to it. */
  lemma LinesEnd(line: Bytes, rest: Bytes)
    requires 10 !in line
    ensures Lines(line + [10] + rest) == [line] + Lines(rest) && Tail(line + [10] + rest) == Tail(rest)
    ensures Lines(line) == [] && Tail(line) == line
    ensures StripReturn(line + [13]) == line
    ensures line == [] || line[|line| - 1] != 13 ==> StripReturn(line) == line
  {
    var stream := line + [10] + rest;
    NewlineIsAt(line, rest);
    hide FirstNewline;
    assert stream[..|line|] == line && stream[|line| + 1..] == rest;
    SplitTakesLine(stream);
  }

  /** A push that would grow the buffer over its limit empties it; any other is decided by draining. */
  lemma OverflowDecides<V>(limits: Limits, decode: Bytes -> Decoded<V>, buffer: Bytes, bytes: Bytes)
    ensures Push(limits, decode, buffer, bytes) == Pushed(Err(BufferTooLarge), []) <==> |buffer| + |bytes| > limits.maxBuffer
  {
    DrainAgreesWithReference(limits, decode, buffer + bytes, []);
    hide Drain, Lines, Tail, Values, AllAcceptable;
  }

  /** Lines, each followed by byte 10. */
  function Framed(lines: seq<Bytes>): Bytes {
    if lines == [] then [] else lines[0] + [10] + Framed(lines[1..])
  }

  /** Why a line is refused; a line that is too long empties the buffer, after another one reading can go on. */
  ghost predicate RefusedWith<V>(limits: Limits, decode: Bytes -> Decoded<V>, line: Bytes, unread: Bytes, pushed: Pushed<V>) {
    var stripped := StripReturn(line);
    && stripped != []
    && (|stripped| > limits.maxLine ==> pushed == Pushed(Err(LineTooLarge), []))
    && (|stripped| <= limits.maxLine && decode(stripped).Malformed? ==> pushed == Pushed(Err(LineMalformed), unread))
    && (|stripped| <= limits.maxLine && decode(stripped).NotObject? ==> pushed == Pushed(Err(LineNotObject), unread))
  }

  lemma BadLineDecides<V>(limits: Limits, decode: Bytes -> Decoded<V>, buffer: Bytes, frames: seq<V>)
    requires var n := FirstNewline(buffer); n < |buffer| && !Acceptable(limits, decode, buffer[..n])
    ensures var n := FirstNewline(buffer);
            RefusedWith(limits, decode, buffer[..n], buffer[n + 1..], Drain(limits, decode, buffer, frames))
  {
    hide FirstNewline;
  }

  /** The line at place `k` is the first that is not acceptable. */
  ghost predicate FirstBad<V>(limits: Limits, decode: Bytes -> Decoded<V>, lines: seq<Bytes>, k: nat) {
    k < |lines| && !Acceptable(limits, decode, lines[k]) && forall i :: 0 <= i < k ==> Acceptable(limits, decode, lines[i])
  }

  lemma BadOneLater<V>(limits: Limits, decode: Bytes -> Decoded<V>, line: Bytes, lines: seq<Bytes>, k: nat)
    requires FirstBad(limits, decode, [line] + lines, k)
    ensures if k == 0 then !Acceptable(limits, decode, line)
            else Acceptable(limits, decode, line) && FirstBad(limits, decode, lines, k - 1) && ([line] + lines)[k] == lines[k - 1]
  {
    hide Acceptable;
    var all := [line] + lines;
    assert all[0] == line;
    assert forall i :: 0 <= i < |lines| ==> lines[i] == all[i + 1];
  }

  /** A stream starts with its first lines. */
  ghost predicate StartsWith(stream: Bytes, lines: seq<Bytes>, k: nat, rest: Bytes)
    requires k <= |lines|
  {
    stream == Framed(lines[..k]) + rest
  }

  lemma StartsWithOneMore(stream: Bytes, line: Bytes, rest: Bytes, lines: seq<Bytes>, k: nat, unread: Bytes)
    requires k <= |lines| && stream == line + [10] + rest && StartsWith(rest, lines, k, unread)
    ensures StartsWith(stream, [line] + lines, k + 1, unread)
  {
    var all := [line] + lines;
    assert all[..k + 1][0] == line && all[..k + 1][1..] == lines[..k];
    assert line + [10] + (Framed(lines[..k]) + unread) == (line + [10] + Framed(lines[..k])) + unread;
  }

  lemma SplitAtNewline(buffer: Bytes)
    requires FirstNewline(buffer) < |buffer|
    ensures var n := FirstNewline(buffer); buffer == buffer[..n] + [10] + buffer[n + 1..]
  {
    hide FirstNewline;
  }

  lemma LinesNeedNewlines(buffer: Bytes)
    requires Lines(buffer) != []
    ensures FirstNewline(buffer) < |buffer|
  {
    hide FirstNewline;
  }

  /** The first line that is not acceptable decides how draining fails and what is left to read. */
  lemma {:induction false} FirstBadLineDecides<V>(
    limits: Limits, decode: Bytes -> Decoded<V>, buffer: Bytes, frames: seq<V>, k: nat) returns (unread: Bytes)
    requires FirstBad(limits, decode, Lines(buffer), k)
    ensures StartsWith(buffer, Lines(buffer), k + 1, unread)
    ensures RefusedWith(limits, decode, Lines(buffer)[k], unread, Drain(limits, decode, buffer, frames))
    decreases k
  {
    hide FirstNewline, Lines, Acceptable, Contribution, RefusedWith, Drain, StartsWith, Framed;
    LinesNeedNewlines(buffer);
    SplitTakesLine(buffer);
    SplitAtNewline(buffer);
    var n := FirstNewline(buffer);
    var line, rest := buffer[..n], buffer[n + 1..];
    BadOneLater(limits, decode, line, Lines(rest), k);
    hide FirstBad;
    if k == 0 {
      BadLineDecides(limits, decode, buffer, frames);
      unread := rest;
      NothingRead(rest, Lines(rest));
    } else {
      DrainTakesLine(limits, decode, buffer, frames);
      unread := FirstBadLineDecides(limits, decode, rest, frames + Contribution(decode, line), k - 1);
    }
    StartsWithOneMore(buffer, line, rest, Lines(rest), k, unread);
  }

  lemma NothingRead(rest: Bytes, lines: seq<Bytes>)
    ensures StartsWith(rest, lines, 0, rest)
  {
  }

  /** When every line is acceptable, only an unfinished line that is too long fails, and it empties the buffer. */
  lemma {:induction false} LongTailDecides<V>(limits: Limits, decode: Bytes -> Decoded<V>, buffer: Bytes, frames: seq<V>)
    requires AllAcceptable(limits, decode, Lines(buffer)) && |Tail(buffer)| > limits.maxLine
    ensures Drain(limits, decode, buffer, frames) == Pushed(Err(LineTooLarge), [])
    decreases |buffer|
  {
    var n := FirstNewline(buffer);
    if n < |buffer| {
      hide FirstNewline, Acceptable, Drain, Contribution, Lines, Tail, Values, AllAcceptable;
      SplitTakesLine(buffer);
      var line, rest := buffer[..n], buffer[n + 1..];
      FirstLine(limits, decode, line, Lines(rest));
      DrainTakesLine(limits, decode, buffer, frames);
      LongTailDecides(limits, decode, rest, frames + Contribution(decode, line));
    }
  }

  /** One line without a line end in it that fits and decodes to the value. */
  ghost predicate Encodes<V>(limits: Limits, decode: Bytes -> Decoded<V>, line: Bytes, value: V) {
    line != [] && 10 !in line && line[|line| - 1] != 13 && |line| <= limits.maxLine && decode(line) == Object(value)
  }

  /** Framing is a round trip: the lines of encoded frames are acceptable and give back the values, and nothing is left over. */
  lemma {:induction false} FramingRoundTrip<V>(limits: Limits, decode: Bytes -> Decoded<V>, encoded: seq<Bytes>, values: seq<V>)
    requires |encoded| == |values| && forall i :: 0 <= i < |values| ==> Encodes(limits, decode, encoded[i], values[i])
    ensures AllAcceptable(limits, decode, Lines(Framed(encoded))) && Values(decode, Lines(Framed(encoded))) == values
    ensures Tail(Framed(encoded)) == []
  {
    if encoded != [] {
      FramingRoundTrip(limits, decode, encoded[1..], values[1..]);
      LinesEnd(encoded[0], Framed(encoded[1..]));
      FirstLine(limits, decode, encoded[0], Lines(Framed(encoded[1..])));
      assert Contribution(decode, encoded[0]) == [values[0]];
      hide Lines, Tail, Values, AllAcceptable;
      assert values == [values[0]] + values[1..];
    }
  }

  // ----- a stream cut into chunks -------------------------------------------------------------------------

  /** The first `n` chunks of a stream, put together. */
  function Stream(chunks: seq<Bytes>, n: nat): Bytes
    requires n <= |chunks|
  {
    if n == 0 then [] else Stream(chunks, n - 1) + chunks[n - 1]
  }

  datatype Accepted<V> = Accepted(frames: seq<V>, buffer: Bytes)

  /** All frames and the buffer after pushing the first `n` chunks, if every push succeeded. */
  function PushAll<V>(limits: Limits, decode: Bytes -> Decoded<V>, chunks: seq<Bytes>, n: nat): Option<Accepted<V>>
    requires n <= |chunks|
  {
    if n == 0 then Some(Accepted([], []))
    else
      var before := PushAll(limits, decode, chunks, n - 1);
      if before.None? then None
      else
        var pushed := Push(limits, decode, before.value.buffer, chunks[n - 1]);
        if pushed.result.Err? then None
        else Some(Accepted(before.value.frames + pushed.result.value, pushed.buffer))
  }

  lemma AcceptableSplits<V>(limits: Limits, decode: Bytes -> Decoded<V>, a: seq<Bytes>, b: seq<Bytes>)
    ensures AllAcceptable(limits, decode, a + b) <==> AllAcceptable(limits, decode, a) && AllAcceptable(limits, decode, b)
  {
    var all := a + b;
    assert forall i :: 0 <= i < |a| ==> all[i] == a[i];
    assert forall i :: 0 <= i < |b| ==> all[|a| + i] == b[i];
  }

  /** One more chunk, seen from the whole stream so far. */
  lemma PushAgrees<V>(limits: Limits, decode: Bytes -> Decoded<V>, whole: Bytes, chunk: Bytes)
    requires AllAcceptable(limits, decode, Lines(whole))
    ensures var pushed := Push(limits, decode, Tail(whole), chunk);
            && (pushed.result.Ok? ==>
                  && AllAcceptable(limits, decode, Lines(whole + chunk)) && |Tail(whole + chunk)| <= limits.maxLine
                  && pushed.buffer == Tail(whole + chunk)
                  && Values(decode, Lines(whole + chunk)) == Values(decode, Lines(whole)) + pushed.result.value)
            && (|Tail(whole)| + |chunk| <= limits.maxBuffer && pushed.result.Err? ==>
                  !(AllAcceptable(limits, decode, Lines(whole + chunk)) && |Tail(whole + chunk)| <= limits.maxLine))
  {
    hide Drain, Lines, Tail, Values, Acceptable;
    DrainAgreesWithReference(limits, decode, Tail(whole) + chunk, []);
    SplittingResumes(whole, chunk);
    ValuesAppend(decode, Lines(whole), Lines(Tail(whole) + chunk));
    AcceptableSplits(limits, decode, Lines(whole), Lines(Tail(whole) + chunk));
  }

  /** However a stream is cut: pushes that all succeed yield the frames and the leftover of the whole stream. */
  lemma {:induction false} ChunkingDoesNotMatter<V>(limits: Limits, decode: Bytes -> Decoded<V>, chunks: seq<Bytes>, n: nat)
    requires n <= |chunks| && PushAll(limits, decode, chunks, n).Some?
    ensures var whole := Stream(chunks, n);
            && PushAll(limits, decode, chunks, n).value == Accepted(Values(decode, Lines(whole)), Tail(whole))
            && AllAcceptable(limits, decode, Lines(whole)) && |Tail(whole)| <= limits.maxLine
  {
    if n > 0 {
      hide Push, Lines, Tail, Values, AllAcceptable;
      ChunkingDoesNotMatter(limits, decode, chunks, n - 1);
      PushAgrees(limits, decode, Stream(chunks, n - 1), chunks[n - 1]);
    }
  }

  /** Two cuts of one stream whose pushes all succeed give the same frames and the same leftover. */
  lemma CutsAgree<V>(limits: Limits, decode: Bytes -> Decoded<V>, a: seq<Bytes>, b: seq<Bytes>)
    requires Stream(a, |a|) == Stream(b, |b|)
    requires PushAll(limits, decode, a, |a|).Some? && PushAll(limits, decode, b, |b|).Some?
    ensures PushAll(limits, decode, a, |a|) == PushAll(limits, decode, b, |b|)
  {
    ChunkingDoesNotMatter(limits, decode, a, |a|);
    ChunkingDoesNotMatter(limits, decode, b, |b|);
  }

  /** At no cut is the unfinished line, a trailing CR included, longer than a line may be. */
  ghost predicate UnfinishedFit(limits: Limits, chunks: seq<Bytes>, n: nat)
    requires n <= |chunks|
  {
    forall i :: 0 <= i <= n ==> |Tail(Stream(chunks, i))| <= limits.maxLine
  }

  ghost predicate ChunksFit(limits: Limits, chunks: seq<Bytes>) {
    forall i :: 0 <= i < |chunks| ==> limits.maxLine + |chunks[i]| <= limits.maxBuffer
  }

  /**
   * With chunks that the buffer limit leaves room for, every push succeeds exactly when all complete lines of the stream
   * are acceptable and no cut leaves an unfinished line over the limit.
   */
  lemma {:induction false} PushesSucceedExactlyWhen<V>(
    limits: Limits, decode: Bytes -> Decoded<V>, chunks: seq<Bytes>, n: nat)
    requires n <= |chunks| && ChunksFit(limits, chunks)
    ensures PushAll(limits, decode, chunks, n).Some?
            <==> AllAcceptable(limits, decode, Lines(Stream(chunks, n))) && UnfinishedFit(limits, chunks, n)
  {
    hide Push, Lines, Tail, Values, AllAcceptable, UnfinishedFit, Drain;
    UnfinishedFitGrows(limits, chunks, n);
    if n > 0 {
      PushesSucceedExactlyWhen(limits, decode, chunks, n - 1);
      PrefixAcceptable(limits, decode, Stream(chunks, n - 1), chunks[n - 1]);
      if PushAll(limits, decode, chunks, n - 1).Some? {
        ChunkingDoesNotMatter(limits, decode, chunks, n - 1);
        PushAgrees(limits, decode, Stream(chunks, n - 1), chunks[n - 1]);
      }
    } else {
      NoLines(limits, decode);
    }
  }

  lemma NoLines<V>(limits: Limits, decode: Bytes -> Decoded<V>)
    ensures AllAcceptable(limits, decode, Lines([]))
  {
  }

  lemma UnfinishedFitGrows(limits: Limits, chunks: seq<Bytes>, n: nat)
    requires n <= |chunks|
    ensures n == 0 ==> UnfinishedFit(limits, chunks, 0)
    ensures n > 0 ==>
              (UnfinishedFit(limits, chunks, n)
               <==> UnfinishedFit(limits, chunks, n - 1) && |Tail(Stream(chunks, n))| <= limits.maxLine)
  {
    hide Tail, Stream;
    if n == 0 {
      EmptyTail(chunks);
    }
  }

  lemma EmptyTail(chunks: seq<Bytes>)
    ensures Tail(Stream(chunks, 0)) == []
  {
  }

  lemma PrefixAcceptable<V>(limits: Limits, decode: Bytes -> Decoded<V>, a: Bytes, b: Bytes)
    ensures AllAcceptable(limits, decode, Lines(a + b)) ==> AllAcceptable(limits, decode, Lines(a))
  {
    SplittingResumes(a, b);
    AcceptableSplits(limits, decode, Lines(a), Lines(Tail(a) + b));
  }

  /** An unfinished line is the beginning of a complete line or of the last unfinished one. */
  lemma {:induction false} UnfinishedStartsALine(a: Bytes, b: Bytes)
    ensures (exists i :: 0 <= i < |Lines(a + b)| && Tail(a) <= Lines(a + b)[i]) || Tail(a) <= Tail(a + b)
  {
    SplittingResumes(a, b);
    var cut := TailIsTheUnfinishedLine(a);
    var t := Tail(a) + b;
    var n := FirstNewline(t);
    if n == |t| {
      assert Tail(a) <= t;
    } else {
      assert n >= |Tail(a)|;
      assert Lines(t)[0] == t[..n] && Tail(a) <= t[..n];
      assert Lines(a + b)[|Lines(a)|] == t[..n];
    }
  }

  lemma {:induction false} StreamExtends(chunks: seq<Bytes>, i: nat, n: nat) returns (more: Bytes)
    requires i <= n <= |chunks|
    ensures Stream(chunks, n) == Stream(chunks, i) + more
  {
    if i == n {
      more := [];
    } else {
      var before := StreamExtends(chunks, i, n - 1);
      more := before + chunks[n - 1];
    }
  }

  /** If every line, with its CR, fits the line limit and is blank or an object, then no cut makes a push fail. */
  lemma FittingLinesNeverFail<V>(limits: Limits, decode: Bytes -> Decoded<V>, chunks: seq<Bytes>)
    requires ChunksFit(limits, chunks)
    requires var whole := Stream(chunks, |chunks|);
             && |Tail(whole)| <= limits.maxLine
             && AllAcceptable(limits, decode, Lines(whole))
             && forall i :: 0 <= i < |Lines(whole)| ==> |Lines(whole)[i]| <= limits.maxLine
    ensures PushAll(limits, decode, chunks, |chunks|).Some?
  {
    forall i | 0 <= i <= |chunks| ensures |Tail(Stream(chunks, i))| <= limits.maxLine {
      var more := StreamExtends(chunks, i, |chunks|);
      UnfinishedStartsALine(Stream(chunks, i), more);
    }
    PushesSucceedExactlyWhen(limits, decode, chunks, |chunks|);
  }

  // ----- the limits in use --------------------------------------------------------------------------------

  const DEFAULT_LIMITS := Limits(16 * 1024 * 1024, 32 * 1024 * 1024)
  const SUPPORT_LIMITS := Limits(96 * 1024, 128 * 1024)
  const READ_CHUNK := 16 * 1024

  /** The reader, which stops at the first error and reads at most 16 KiB at a time, never overflows the buffer. */
  lemma ReaderNeverOverflows<V>(limits: Limits, decode: Bytes -> Decoded<V>, chunks: seq<Bytes>, n: nat)
    requires limits == DEFAULT_LIMITS || limits == SUPPORT_LIMITS
    requires n < |chunks| && |chunks[n]| <= READ_CHUNK && PushAll(limits, decode, chunks, n).Some?
    ensures Push(limits, decode, PushAll(limits, decode, chunks, n).value.buffer, chunks[n]).result != Err(BufferTooLarge)
  {
    ChunkingDoesNotMatter(limits, decode, chunks, n);
    DrainAgreesWithReference(limits, decode, Tail(Stream(chunks, n)) + chunks[n], []);
  }

  const BRACES: Bytes := [123, 125]

  lemma DrainBraces<V>(decode: Bytes -> Decoded<V>, v: V)
    requires decode(BRACES) == Object(v)
    ensures Drain(Limits(2, 9), decode, BRACES + [CR, LF], []) == Pushed(Ok([v]), [])
  {
    var whole := BRACES + [CR, LF];
    assert FirstNewline(whole[3..]) == 0 && FirstNewline(whole[2..]) == 1 && FirstNewline(whole[1..]) == 2 && FirstNewline(whole) == 3;
    assert whole[..3] == BRACES + [CR] && StripReturn(whole[..3]) == BRACES && whole[4..] == [];
    var frames: seq<V> := [] + [v];
    assert frames == [v];
    assert Drain(Limits(2, 9), decode, [], frames) == Pushed(Ok(frames), []);
  }

  lemma UnfinishedBraces<V>(decode: Bytes -> Decoded<V>)
    ensures Drain(Limits(2, 9), decode, BRACES + [CR], []) == Pushed(Err(LineTooLarge), [])
  {
    var line := BRACES + [CR];
    assert FirstNewline(line[3..]) == 0 && FirstNewline(line[2..]) == 1 && FirstNewline(line[1..]) == 2 && FirstNewline(line) == 3;
  }

  /** The line `{}` with CR and newline, under a limit of two bytes: accepted whole, refused when cut before the newline. */
  lemma CutBeforeNewlineCanRefuse<V>(decode: Bytes -> Decoded<V>, v: V)
    requires decode([123, 125]) == Object(v)
    ensures PushAll(Limits(2, 9), decode, [[123, 125, CR, LF]], 1) == Some(Accepted([v], []))
    ensures PushAll(Limits(2, 9), decode, [[123, 125, CR], [LF]], 2) == None
  {
    var limits := Limits(2, 9);
    var line: Bytes := [123, 125, CR];
    var whole: Bytes := [123, 125, CR, LF];
    DrainBraces(decode, v);
    UnfinishedBraces(decode);
    hide Drain, FirstNewline;
    assert BRACES + [CR] == line == [] + line && BRACES + [CR, LF] == whole == [] + whole;
    assert Push(limits, decode, [], line).result == Err(LineTooLarge);
    assert PushAll(limits, decode, [line, [LF]], 0) == Some(Accepted([], []));
    assert PushAll(limits, decode, [line, [LF]], 1) == None;
    assert Push(limits, decode, [], whole) == Pushed(Ok([v]), []);
    assert PushAll(limits, decode, [whole], 0) == Some(Accepted([], []));
    assert [] + [v] == [v];
  }
}
