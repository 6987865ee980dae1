/**
 * The desktop shell's side of the newline-delimited protocol with the worker:
 * the stdout line framer (`outputBuffer` and the `data` handler) and the
 * encoding of outbound commands written to the worker's stdin.
 *
 * Chunks are modelled as already-decoded text; JSON parsing is an abstract
 * `decode` that either yields a message or fails.
 */
module Framer {
  import opened Wrappers
  import opened Lines

  // ---------------------------------------------------------------------
  // Line acceptance: blank lines skipped, undecodable lines skipped
  // ---------------------------------------------------------------------

  /** The characters String.prototype.trim() removes (ECMAScript WhiteSpace and LineTerminator). */
  predicate IsJsSpace(c: char) {
    c == '\t' || c == '\n' || c == '\U{000B}' || c == '\U{000C}' || c == '\r' || c == ' '
    || c == '\U{00A0}' || c == '\U{1680}' || ('\U{2000}' <= c <= '\U{200A}')
    || c == '\U{2028}' || c == '\U{2029}' || c == '\U{202F}' || c == '\U{205F}'
    || c == '\U{3000}' || c == '\U{FEFF}'
  }

  /** `line.trim()` is the empty string, i.e. falsy. */
  predicate IsBlank(line: string) {
    forall i :: 0 <= i < |line| ==> IsJsSpace(line[i])
  }

  /** The messages the handler sends on for one line: none for a blank or unparsable line. */
  function DeliverLine<V>(decode: string -> Option<V>, line: string): seq<V> {
    if IsBlank(line) then []
    else match decode(line)
      case Some(v) => [v]
      case None => []
  }

  /** The messages sent on for a list of complete lines, in order. */
  function Deliver<V>(decode: string -> Option<V>, lines: seq<string>): seq<V> {
    if lines == [] then [] else DeliverLine(decode, lines[0]) + Deliver(decode, lines[1..])
  }

  /** Lines are handled independently: what comes after a line does not depend on how it went. */
  lemma {:induction false} DeliverAppend<V>(decode: string -> Option<V>, a: seq<string>, b: seq<string>)
    ensures Deliver(decode, a + b) == Deliver(decode, a) + Deliver(decode, b)
    decreases |a|
  {
    if a == [] {
      assert a + b == b;
    } else {
      assert (a + b)[0] == a[0] && (a + b)[1..] == a[1..] + b;
      DeliverAppend(decode, a[1..], b);
    }
  }

  /** The messages from position `i` on: those of line `i`, then those of the rest. */
  lemma DeliverFrom<V>(decode: string -> Option<V>, lines: seq<string>, i: nat)
    requires i < |lines|
    ensures Deliver(decode, lines[i..]) == DeliverLine(decode, lines[i]) + Deliver(decode, lines[i + 1..])
  {
    assert lines[i..][1..] == lines[i + 1..];
  }

  lemma Regroup<T>(a: seq<T>, b: seq<T>, c: seq<T>)
    ensures a + (b + c) == (a + b) + c
  {
  }

  /** A single line delivers what the line itself does. */
  lemma DeliverSingle<V>(decode: string -> Option<V>, line: string)
    ensures Deliver(decode, [line]) == DeliverLine(decode, line)
  {
    assert [line][1..] == [];
  }

  /** A line between two runs of lines contributes its own messages, in its place. */
  lemma DeliverAround<V>(decode: string -> Option<V>, before: seq<string>, line: string, after: seq<string>)
    ensures Deliver(decode, before + [line] + after)
         == Deliver(decode, before) + DeliverLine(decode, line) + Deliver(decode, after)
  {
    DeliverAppend(decode, before + [line], after);
    DeliverAppend(decode, before, [line]);
    DeliverSingle(decode, line);
  }

  /**
   * A blank line, or one that fails to parse, is dropped and nothing else is:
   * the lines before and after it are delivered as if it were absent.
   */
  lemma SkippedLineDropsOnlyItself<V>(decode: string -> Option<V>, before: seq<string>, line: string, after: seq<string>)
    requires IsBlank(line) || decode(line).None?
    ensures Deliver(decode, before + [line] + after) == Deliver(decode, before) + Deliver(decode, after)
  {
    DeliverAround(decode, before, line, after);
    assert DeliverLine(decode, line) == [];
  }

  /** A non-blank line that parses to `v` contributes exactly `v`, in its place. */
  lemma ParsedLineDeliveredInPlace<V>(decode: string -> Option<V>, before: seq<string>, line: string, after: seq<string>, v: V)
    requires !IsBlank(line) && decode(line) == Some(v)
    ensures Deliver(decode, before + [line] + after) == Deliver(decode, before) + [v] + Deliver(decode, after)
  {
    DeliverAround(decode, before, line, after);
  }

  /** Whitespace-only lines are never handed to the parser, so nothing sent on comes from one. */
  lemma {:induction false} BlankLinesNeverDelivered<V>(decode: string -> Option<V>, lines: seq<string>)
    requires forall i :: 0 <= i < |lines| ==> IsBlank(lines[i])
    ensures Deliver(decode, lines) == []
    decreases |lines|
  {
    if lines != [] {
      BlankLinesNeverDelivered(decode, lines[1..]);
    }
  }

  // ---------------------------------------------------------------------
  // Outbound encoding and chunk-independence
  // ---------------------------------------------------------------------

  /** `JSON.stringify(args) + "\n"`: the serialised command, one line. */
  function Encode(payload: string): (r: string)
    ensures |r| == |payload| + 1 && r[|payload|] == '\n' && r[..|payload|] == payload
  {
    payload + "\n"
  }

  /** The concatenation of a list of chunks, as the stream delivers them. */
  function Concat(chunks: seq<string>): string {
    if chunks == [] then [] else chunks[0] + Concat(chunks[1..])
  }

  /** The lines completed while feeding `chunks`, one `data` event each, starting from `buffer`. */
  function FramedLines(buffer: string, chunks: seq<string>): seq<string>
    decreases |chunks|
  {
    if chunks == [] then []
    else CompleteLines(buffer + chunks[0]) + FramedLines(Pending(buffer + chunks[0]), chunks[1..])
  }

  /** The buffer left after feeding `chunks` starting from `buffer`. */
  function FinalBuffer(buffer: string, chunks: seq<string>): string
    decreases |chunks|
  {
    if chunks == [] then buffer
    else FinalBuffer(Pending(buffer + chunks[0]), chunks[1..])
  }

  /**
   * How the stream is cut into chunks does not matter: feeding the chunks one by
   * one completes the same lines, and leaves the same buffer, as feeding their
   * concatenation at once.
   */
  lemma {:induction false} ChunkingIsIrrelevant(buffer: string, chunks: seq<string>)
    requires '\n' !in buffer
    ensures FramedLines(buffer, chunks) == CompleteLines(buffer + Concat(chunks))
    ensures FinalBuffer(buffer, chunks) == Pending(buffer + Concat(chunks))
    decreases |chunks|
  {
    if chunks == [] {
      assert buffer + Concat(chunks) == buffer;
      SplitWithoutNewline(buffer);
    } else {
      var c, rest := chunks[0], Concat(chunks[1..]);
      SplitParts(buffer + c);
      ChunkingIsIrrelevant(Pending(buffer + c), chunks[1..]);
      Regroup(buffer, c, rest);
      CompleteLinesAppend(buffer + c, rest);
    }
  }

  /**
   * One encoded command, however its characters are cut into chunks, comes out
   * of an idle framer as exactly one line equal to the payload, and the framer
   * is idle again afterwards.
   */
  lemma EncodedPayloadFramesAsOneLine(payload: string, chunks: seq<string>)
    requires '\n' !in payload
    requires Concat(chunks) == Encode(payload)
    ensures FramedLines("", chunks) == [payload]
    ensures FinalBuffer("", chunks) == ""
  {
    ChunkingIsIrrelevant("", chunks);
    assert "" + Concat(chunks) == Terminated([payload]) + "";
    SplitOfTerminated([payload], "");
  }

  /** The same, carried through the parser: exactly the decoded message, once. */
  lemma EncodedPayloadDeliveredOnce<V>(decode: string -> Option<V>, payload: string, chunks: seq<string>, v: V)
    requires '\n' !in payload && !IsBlank(payload) && decode(payload) == Some(v)
    requires Concat(chunks) == Encode(payload)
    ensures Deliver(decode, FramedLines("", chunks)) == [v]
  {
    EncodedPayloadFramesAsOneLine(payload, chunks);
    assert Deliver(decode, [payload]) == DeliverLine(decode, payload) + Deliver(decode, []);
  }

  /**
   * A stream of printed lines (each payload followed by "\n", as the worker
   * prints its responses), however it is cut into chunks, comes out of an idle
   * framer as exactly those payloads in order, and leaves the framer idle.
   * A worker whose stdout writes "\r\n" is covered by CrLfStreamDeliversSamePayloads.
   */
  lemma PrintedStreamFramesInOrder(payloads: seq<string>, chunks: seq<string>)
    requires NoNewlines(payloads)
    requires Concat(chunks) == Terminated(payloads)
    ensures FramedLines("", chunks) == payloads
    ensures FinalBuffer("", chunks) == ""
  {
    ChunkingIsIrrelevant("", chunks);
    assert "" + Concat(chunks) == Terminated(payloads) + "";
    PartsOfTerminated(payloads, "");
  }

  /** Each payload followed by the "\r" that a text-mode stdout on Windows writes before "\n". */
  function WithCarriageReturns(payloads: seq<string>): seq<string> {
    seq(|payloads|, i requires 0 <= i < |payloads| => payloads[i] + "\r")
  }

  /** `trim()` removes a trailing "\r", so it never makes a line blank or non-blank. */
  lemma CarriageReturnKeepsBlankness(line: string)
    ensures IsBlank(line + "\r") <==> IsBlank(line)
  {
    assert (line + "\r")[|line|] == '\r';
    assert forall i :: 0 <= i < |line| ==> (line + "\r")[i] == line[i];
  }

  /**
   * When the decoder ignores a trailing "\r", as `JSON.parse` ignores trailing
   * white space, lines ending in "\r" deliver what the bare lines do.
   */
  lemma {:induction false} DeliverIgnoresCarriageReturns<V>(decode: string -> Option<V>, payloads: seq<string>)
    requires forall k :: 0 <= k < |payloads| ==> decode(payloads[k] + "\r") == decode(payloads[k])
    ensures Deliver(decode, WithCarriageReturns(payloads)) == Deliver(decode, payloads)
    decreases |payloads|
  {
    if payloads != [] {
      var crs := WithCarriageReturns(payloads);
      assert crs[0] == payloads[0] + "\r";
      assert crs[1..] == WithCarriageReturns(payloads[1..]);
      CarriageReturnKeepsBlankness(payloads[0]);
      DeliverIgnoresCarriageReturns(decode, payloads[1..]);
    }
  }

  /**
   * A stream whose lines end in "\r\n" instead of "\n", however it is cut
   * into chunks, delivers the same messages as the bare payloads and leaves
   * the framer idle.
   */
  lemma CrLfStreamDeliversSamePayloads<V>(decode: string -> Option<V>, payloads: seq<string>, chunks: seq<string>)
    requires NoNewlines(payloads)
    requires forall k :: 0 <= k < |payloads| ==> decode(payloads[k] + "\r") == decode(payloads[k])
    requires Concat(chunks) == Terminated(WithCarriageReturns(payloads))
    ensures Deliver(decode, FramedLines("", chunks)) == Deliver(decode, payloads)
    ensures FinalBuffer("", chunks) == ""
  {
    var crs := WithCarriageReturns(payloads);
    forall i | 0 <= i < |crs|
      ensures '\n' !in crs[i]
    {
      assert crs[i] == payloads[i] + "\r";
    }
    PrintedStreamFramesInOrder(crs, chunks);
    DeliverIgnoresCarriageReturns(decode, payloads);
  }

  /** Lines that all parse, none of them blank, are all delivered, in order. */
  lemma {:induction false} DeliverAllParsed<V>(decode: string -> Option<V>, lines: seq<string>, msgs: seq<V>)
    requires |lines| == |msgs|
    requires forall i :: 0 <= i < |lines| ==> !IsBlank(lines[i]) && decode(lines[i]) == Some(msgs[i])
    ensures Deliver(decode, lines) == msgs
  {
    if lines != [] {
      var n := |lines| - 1;
      DeliverAllParsed(decode, lines[..n], msgs[..n]);
      assert lines == lines[..n] + [lines[n]];
      DeliverAppend(decode, lines[..n], [lines[n]]);
      assert Deliver(decode, [lines[n]]) == DeliverLine(decode, lines[n]) + Deliver(decode, []);
      assert msgs == msgs[..n] + [msgs[n]];
    }
  }

  // ---------------------------------------------------------------------
  // The stdout handler
  // ---------------------------------------------------------------------

  /**
   * The `data` listener on the worker's stdout with its `outputBuffer`.
   * `received` and `lines` are the ghost history: everything received so far and
   * every line completed so far; `sent` is every message passed on to the UI.
   */
  class StdoutFramer<V> {
    const decode: string -> Option<V>
    var outputBuffer: string
    ghost var received: string
    ghost var lines: seq<string>
    ghost var sent: seq<V>

    ghost predicate Valid()
      reads this
    {
      && lines == CompleteLines(received)
      && outputBuffer == Pending(received)
      && sent == Deliver(decode, lines)
    }

    constructor (decode: string -> Option<V>)
      ensures Valid() && this.decode == decode
      ensures outputBuffer == "" && received == "" && lines == [] && sent == []
    {
      this.decode := decode;
      outputBuffer := "";
      received := "";
      lines := [];
      sent := [];
    }

    /**
     * The `forEach` over one chunk's complete lines: each non-blank line is
     * parsed, a parsed one is sent on, a failed one is logged and skipped.
     */
    method HandleLines(complete: seq<string>) returns (msgs: seq<V>)
      ensures msgs == Deliver(decode, complete)
    {
      msgs := [];
      var i := 0;
      while i < |complete|
        invariant 0 <= i <= |complete|
        invariant Deliver(decode, complete) == msgs + Deliver(decode, complete[i..])
      {
        var line := complete[i];
        ghost var prior := msgs;
        if !IsBlank(line) {
          var parsed := decode(line);
          match parsed
          case Some(v) => msgs := msgs + [v];
          case None => // logged and skipped
        }
        assert msgs == prior + DeliverLine(decode, line);
        DeliverFrom(decode, complete, i);
        Regroup(prior, DeliverLine(decode, line), Deliver(decode, complete[i + 1..]));
        i := i + 1;
      }
      assert complete[i..] == [];
    }

    /**
     * Handles one chunk: returns the messages sent on for it, in order.
     * Afterwards the buffer is the text after the last newline of everything
     * received, and the completed lines are the old ones followed by the new ones.
     */
    method OnData(data: string) returns (msgs: seq<V>)
      requires Valid()
      modifies this
      ensures Valid()
      ensures received == old(received) + data
      ensures lines == old(lines) + CompleteLines(old(outputBuffer) + data)
      ensures outputBuffer == Pending(old(outputBuffer) + data)
      ensures msgs == Deliver(decode, CompleteLines(old(outputBuffer) + data))
      ensures sent == old(sent) + msgs
    {
      ghost var before := outputBuffer + data;
      outputBuffer := outputBuffer + data;
      var parts := Split(outputBuffer);
      var complete := parts[..|parts| - 1];
      outputBuffer := parts[|parts| - 1];
      assert complete == CompleteLines(before);
      msgs := HandleLines(complete);
      CompleteLinesAppend(received, data);
      DeliverAppend(decode, lines, complete);
      received := received + data;
      lines := lines + complete;
      sent := sent + msgs;
    }
  }
}
