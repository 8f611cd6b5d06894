/**
 * Newline framing of the ACP byte stream (`encodeAcpFrame` and `AcpFrameDecoder`,
 * src/acp/framing.ts). Decoding the bytes of one line is the parameter `decode`.
 */
module Framing {
  import opened Wrappers

  newtype byte = b: int | 0 <= b < 256

  const NEWLINE: byte := 10

  // ---- Splitting a stream at its newlines ------------------------------------------

  /** The complete lines of a stream, without their newlines. */
  function Lines(s: seq<byte>): seq<seq<byte>> {
    if s == [] then []
    else
      var m := |s| - 1;
      if s[m] == NEWLINE then Lines(s[..m]) + [Tail(s[..m])] else Lines(s[..m])
  }

  /** The bytes after the last newline. */
  function Tail(s: seq<byte>): seq<byte> {
    if s == [] then []
    else
      var m := |s| - 1;
      if s[m] == NEWLINE then [] else Tail(s[..m]) + [s[m]]
  }

  /** Every line followed by a newline: the bytes of a sequence of frames. */
  function Frames(lines: seq<seq<byte>>): seq<byte> {
    if lines == [] then []
    else Frames(lines[..|lines| - 1]) + lines[|lines| - 1] + [NEWLINE]
  }

  lemma {:induction false} NewlineFreeTail(s: seq<byte>, t: seq<byte>)
    requires NEWLINE !in t
    ensures Lines(s + t) == Lines(s) && Tail(s + t) == Tail(s) + t
  {
    if t == [] {
      assert s + t == s;
    } else {
      var m := |t| - 1;
      assert (s + t)[..|s + t| - 1] == s + t[..m];
      assert t == t[..m] + [t[m]];
      NewlineFreeTail(s, t[..m]);
    }
  }

  lemma {:induction false} NewlineEndsLine(s: seq<byte>, t: seq<byte>)
    requires NEWLINE !in t
    ensures Lines(s + t + [NEWLINE]) == Lines(s) + [Tail(s) + t] && Tail(s + t + [NEWLINE]) == []
  {
    NewlineFreeTail(s, t);
    assert (s + t + [NEWLINE])[..|s + t|] == s + t;
  }

  lemma {:induction false} TailIsNewlineFree(s: seq<byte>)
    ensures NEWLINE !in Tail(s)
    ensures forall line | line in Lines(s) :: NEWLINE !in line
  {
    if s != [] {
      TailIsNewlineFree(s[..|s| - 1]);
    }
  }

  /** Splitting loses nothing: framing the lines again, then the tail, gives the stream back. */
  lemma {:induction false} FramesOfLines(s: seq<byte>)
    ensures Frames(Lines(s)) + Tail(s) == s
  {
    if s != [] {
      var m := |s| - 1;
      FramesOfLines(s[..m]);
      assert s == s[..m] + [s[m]];
      if s[m] == NEWLINE {
        var lines := Lines(s[..m]) + [Tail(s[..m])];
        assert lines[..|lines| - 1] == Lines(s[..m]);
      }
    }
  }

  /** Framing newline-free lines and splitting returns those lines, with any newline-free rest. */
  lemma {:induction false} LinesOfFrames(lines: seq<seq<byte>>, rest: seq<byte>)
    requires forall line | line in lines :: NEWLINE !in line
    requires NEWLINE !in rest
    ensures Lines(Frames(lines) + rest) == lines && Tail(Frames(lines) + rest) == rest
  {
    if lines == [] {
      assert Frames(lines) + rest == [] + rest;
      NewlineFreeTail([], rest);
    } else {
      var m := |lines| - 1;
      LinesOfFrames(lines[..m], []);
      assert Frames(lines[..m]) + [] == Frames(lines[..m]);
      assert lines[m] in lines;
      NewlineEndsLine(Frames(lines[..m]), lines[m]);
      assert [] + lines[m] == lines[m];
      assert lines == lines[..m] + [lines[m]];
      NewlineFreeTail(Frames(lines), rest);
    }
  }

  // ---- One chunk at a time -------------------------------------------------------------

  /** The lines completed by a chunk when `pending` bytes are waiting. */
  function Completed(pending: seq<byte>, chunk: seq<byte>): seq<seq<byte>> {
    var lines := Lines(chunk);
    if lines == [] then [] else [pending + lines[0]] + lines[1..]
  }

  /** The bytes waiting after the chunk. */
  function Waiting(pending: seq<byte>, chunk: seq<byte>): seq<byte> {
    if Lines(chunk) == [] then pending + chunk else Tail(chunk)
  }

  lemma {:induction false} NoLinesMeansNoNewline(s: seq<byte>)
    ensures Lines(s) == [] <==> NEWLINE !in s
    ensures NEWLINE !in s ==> Tail(s) == s
  {
    if s != [] {
      var m := |s| - 1;
      NoLinesMeansNoNewline(s[..m]);
      assert s == s[..m] + [s[m]];
    }
  }

  /** Splitting the stream so far and then the chunk is splitting the longer stream. */
  lemma {:induction false} ChunkStep(stream: seq<byte>, chunk: seq<byte>)
    ensures Lines(stream + chunk) == Lines(stream) + Completed(Tail(stream), chunk)
    ensures Tail(stream + chunk) == Waiting(Tail(stream), chunk)
  {
    if chunk == [] {
      assert stream + chunk == stream;
    } else {
      var m := |chunk| - 1;
      var front := chunk[..m];
      ChunkStep(stream, front);
      assert chunk == front + [chunk[m]];
      CompletedSnoc(Tail(stream), front, chunk[m]);
      assert (stream + chunk)[..|stream + chunk| - 1] == stream + front;
    }
  }

  lemma CompletedSnoc(pending: seq<byte>, front: seq<byte>, last: byte)
    ensures Completed(pending, front + [last])
      == if last == NEWLINE then Completed(pending, front) + [Waiting(pending, front)] else Completed(pending, front)
    ensures Waiting(pending, front + [last]) == if last == NEWLINE then [] else Waiting(pending, front) + [last]
  {
    NoLinesMeansNoNewline(front);
    assert (front + [last])[..|front|] == front;
    if last == NEWLINE {
      assert Lines(front + [last]) == Lines(front) + [Tail(front)];
    }
  }

  function Concat(chunks: seq<seq<byte>>): seq<byte> {
    if chunks == [] then [] else Concat(chunks[..|chunks| - 1]) + chunks[|chunks| - 1]
  }

  /** All the lines a decoder completes while it receives the chunks, and what it holds after. */
  function Received(chunks: seq<seq<byte>>): (r: (seq<seq<byte>>, seq<byte>)) {
    if chunks == [] then ([], [])
    else
      var (lines, pending) := Received(chunks[..|chunks| - 1]);
      (lines + Completed(pending, chunks[|chunks| - 1]), Waiting(pending, chunks[|chunks| - 1]))
  }

  /** The output depends on the bytes alone, never on how they were cut into chunks. */
  lemma {:induction false} ChunkingDoesNotMatter(chunks: seq<seq<byte>>)
    ensures Received(chunks) == (Lines(Concat(chunks)), Tail(Concat(chunks)))
  {
    if chunks != [] {
      var m := |chunks| - 1;
      ChunkingDoesNotMatter(chunks[..m]);
      ChunkStep(Concat(chunks[..m]), chunks[m]);
    }
  }

  /** Frames of newline-free messages come back message by message under any chunking. */
  lemma {:induction false} FramedMessagesComeBack(messages: seq<seq<byte>>, chunks: seq<seq<byte>>)
    requires forall m | m in messages :: NEWLINE !in m
    requires Concat(chunks) == Frames(messages)
    ensures Received(chunks) == (messages, [])
  {
    ChunkingDoesNotMatter(chunks);
    LinesOfFrames(messages, []);
    assert Frames(messages) + [] == Frames(messages);
  }

  // ---- The decoder -----------------------------------------------------------------------

  function EncodeFrame(serializedMessage: string): string {
    serializedMessage + "\n"
  }

  function DecodeAll(decode: seq<byte> -> string, lines: seq<seq<byte>>): seq<string>
  {
    seq(|lines|, k requires 0 <= k < |lines| => decode(lines[k]))
  }

  function IndexOfNewline(s: seq<byte>, start: nat): (r: int)
    requires start <= |s|
    ensures r == -1 ==> NEWLINE !in s[start..]
    ensures r != -1 ==> start <= r < |s| && s[r] == NEWLINE && NEWLINE !in s[start..r]
    decreases |s| - start
  {
    if start == |s| then -1
    else if s[start] == NEWLINE then start
    else
      assert s[start..] == [s[start]] + s[start + 1..];
      var r := IndexOfNewline(s, start + 1);
      assert r != -1 ==> s[start..r] == [s[start]] + s[start + 1..r];
      r
  }

  ghost function Bytes(parts: seq<array<byte>>): seq<byte>
    reads parts
  {
    if parts == [] then [] else Bytes(parts[..|parts| - 1]) + parts[|parts| - 1][..]
  }

  method CopyOf(bytes: seq<byte>) returns (copy: array<byte>)
    ensures fresh(copy) && copy[..] == bytes
  {
    copy := new byte[|bytes|](k requires 0 <= k < |bytes| => bytes[k]);
  }

  /** `TypedArray.prototype.set`. */
  method SetBytes(line: array<byte>, bytes: seq<byte>, offset: nat)
    requires offset + |bytes| <= line.Length
    modifies line
    ensures line[..offset + |bytes|] == old(line[..offset]) + bytes
  {
    forall i | 0 <= i < |bytes| {
      line[offset + i] := bytes[i];
    }
  }

  class FrameDecoder {
    var pending: seq<array<byte>>
    const decode: seq<byte> -> string

    /** Pending parts are never empty. */
    ghost predicate Valid()
      reads this
    {
      forall part | part in pending :: part.Length > 0
    }

    ghost function PendingBytes(): seq<byte>
      reads this, pending
    {
      Bytes(pending)
    }

    constructor (decode: seq<byte> -> string)
      ensures Valid() && pending == [] && this.decode == decode
    {
      this.decode := decode;
      pending := [];
    }

    /**
     * The bytes are the caller's array itself, not a copy, exactly when the chunk is
     * newline-free (and not empty); a remainder after a newline is copied.
     */
    method Push(chunk: array<byte>) returns (lines: seq<string>)
      requires Valid()
      modifies this
      ensures Valid()
      ensures lines == DecodeAll(decode, Completed(old(PendingBytes()), chunk[..]))
      ensures PendingBytes() == Waiting(old(PendingBytes()), chunk[..])
      ensures NEWLINE !in chunk[..] ==> pending == old(pending) + if chunk.Length > 0 then [chunk] else []
      ensures NEWLINE in chunk[..] ==> forall part | part in pending :: fresh(part)
    {
      lines := [];
      var bytes := chunk[..];
      var start := 0;
      var newlineIndex := IndexOfNewline(bytes, start);
      ghost var before, done := PendingBytes(), [];
      while newlineIndex != -1
        invariant 0 <= start <= |bytes| && newlineIndex == IndexOfNewline(bytes, start)
        invariant start == 0 ==> pending == old(pending)
        invariant start > 0 ==> pending == []
        invariant PendingBytes() == if start == 0 then before else []
        invariant ScannedTo(before, bytes, start, done) && lines == DecodeAll(decode, done)
        decreases |bytes| - start
      {
        NextLine(before, bytes, start, newlineIndex, done);
        done := done + [PendingBytes() + bytes[start..newlineIndex]];
        var line := TakeLine(bytes[start..newlineIndex]);
        lines := lines + [line];
        assert [] + bytes[start..newlineIndex] == bytes[start..newlineIndex];
        start := newlineIndex + 1;
        newlineIndex := IndexOfNewline(bytes, start);
      }
      LastBytes(before, bytes, start, done);
      KeepRest(chunk, start);
    }

    /** The array itself when nothing was consumed, otherwise a copy of what is left. */
    method KeepRest(chunk: array<byte>, start: nat)
      requires Valid() && start <= chunk.Length && (start > 0 ==> pending == [])
      modifies this
      ensures Valid() && PendingBytes() == old(PendingBytes()) + chunk[start..]
      ensures start == 0 ==> pending == old(pending) + if chunk.Length > 0 then [chunk] else []
      ensures start > 0 ==> forall part | part in pending :: fresh(part)
    {
      if start < chunk.Length {
        if start == 0 {
          Append(chunk);
        } else {
          var copy := CopyOf(chunk[start..]);
          Append(copy);
        }
      }
    }

    method Append(part: array<byte>)
      requires Valid() && part.Length > 0
      modifies this
      ensures Valid() && pending == old(pending) + [part]
      ensures PendingBytes() == old(PendingBytes()) + part[..]
    {
      pending := pending + [part];
      assert pending[..|pending| - 1] == old(pending);
    }

    /** Undefined exactly when no bytes are waiting. */
    method Flush() returns (line: Option<string>)
      requires Valid()
      modifies this
      ensures Valid() && pending == []
      ensures line == if old(PendingBytes()) == [] then None else Some(decode(old(PendingBytes())))
    {
      if |pending| == 0 {
        return None;
      }
      assert pending[|pending| - 1] in pending;
      assert PendingBytes() + [] == PendingBytes();
      var text := TakeLine([]);
      return Some(text);
    }

    method TakeLine(tail: seq<byte>) returns (text: string)
      modifies this
      ensures pending == []
      ensures text == decode(old(PendingBytes()) + tail)
    {
      var line := Concatenated(pending, tail, PendingBytes());
      pending := [];
      text := decode(line[..]);
    }

    static method TotalLength(parts: seq<array<byte>>, tail: seq<byte>) returns (total: nat)
      ensures total == |Bytes(parts)| + |tail|
    {
      total := |tail|;
      for k := 0 to |parts|
        invariant total == |tail| + |Bytes(parts[..k])|
      {
        assert parts[..k + 1][..k] == parts[..k];
        total := total + parts[k].Length;
      }
      assert parts[..|parts|] == parts;
    }

    /** All the parts and the tail, copied into one buffer at a moving offset. */
    static method Concatenated(parts: seq<array<byte>>, tail: seq<byte>, ghost all: seq<byte>) returns (line: array<byte>)
      requires all == Bytes(parts)
      ensures fresh(line) && line[..] == all + tail
    {
      ghost var texts := seq(|parts|, i requires 0 <= i < |parts| reads parts => parts[i][..]);
      BytesAreConcat(parts, texts);
      var total := TotalLength(parts, tail);
      line := new byte[total];
      var offset := 0;
      for k := 0 to |parts|
        invariant forall i | 0 <= i < |parts| :: parts[i][..] == texts[i]
        invariant offset == |Concat(texts[..k])| <= total - |tail|
        invariant line[..offset] == Concat(texts[..k])
      {
        ConcatGrows(texts, k);
        SetBytes(line, parts[k][..], offset);
        offset := offset + parts[k].Length;
      }
      assert texts[..|parts|] == texts;
      SetBytes(line, tail, offset);
      assert line[..] == line[..total];
    }
  }

  /**
   * A caller that overwrites its buffer after pushing it. The comment in `push` promises
   * that pending bytes are copied so that this is safe, and it is safe when the chunk
   * held a newline.
   */
  method OverwriteAfterNewline(d: FrameDecoder, chunk: array<byte>, i: nat, b: byte)
    requires d.Valid() && i < chunk.Length && NEWLINE in chunk[..]
    modifies d, chunk
    ensures d.PendingBytes() == Waiting(old(d.PendingBytes()), old(chunk[..]))
  {
    var lines := d.Push(chunk);
    assert chunk !in d.pending;
    label pushed:
    chunk[i] := b;
    assert unchanged@pushed(d.pending);
  }

  /** A newline-free chunk is retained: the decoder will deliver the overwritten byte. */
  method OverwriteWhilePending(d: FrameDecoder, chunk: array<byte>, i: nat, b: byte)
    requires d.Valid() && i < chunk.Length && NEWLINE !in chunk[..] && chunk !in d.pending
    modifies d, chunk
    ensures d.PendingBytes() == old(d.PendingBytes()) + old(chunk[..])[i := b]
  {
    ghost var before := d.pending;
    var lines := d.Push(chunk);
    chunk[i] := b;
    assert unchanged(before);
    assert d.pending[..|d.pending| - 1] == before;
  }

  ghost function Contents(chunks: seq<array<byte>>): (c: seq<seq<byte>>)
    reads chunks
    ensures |c| == |chunks| && forall k | 0 <= k < |c| :: c[k] == chunks[k][..]
  {
    seq(|chunks|, k requires 0 <= k < |chunks| reads chunks => chunks[k][..])
  }

  lemma ReceivedOneMore(decode: seq<byte> -> string, cs: seq<seq<byte>>, k: nat)
    requires k < |cs|
    ensures var (lines, pending) := Received(cs[..k]);
      && Received(cs[..k + 1]) == (lines + Completed(pending, cs[k]), Waiting(pending, cs[k]))
      && DecodeAll(decode, lines + Completed(pending, cs[k]))
         == DecodeAll(decode, lines) + DecodeAll(decode, Completed(pending, cs[k]))
  {
    assert cs[..k + 1][..k] == cs[..k];
    var a, b := Received(cs[..k]).0, Completed(Received(cs[..k]).1, cs[k]);
    assert DecodeAll(decode, a + b) == DecodeAll(decode, a) + DecodeAll(decode, b);
  }

  /** A whole stream: the chunks pushed in order, then the end of the input. */
  method DecodeStream(decode: seq<byte> -> string, chunks: seq<array<byte>>)
    returns (lines: seq<string>, rest: Option<string>)
    ensures lines == DecodeAll(decode, Lines(Concat(Contents(chunks))))
    ensures var tail := Tail(Concat(Contents(chunks)));
      rest == if tail == [] then None else Some(decode(tail))
  {
    ghost var cs := Contents(chunks);
    var d := new FrameDecoder(decode);
    lines := PushAll(d, chunks, cs);
    rest := d.Flush();
    assert Contents(chunks) == cs;
    assert Received(cs) == (Lines(Concat(cs)), Tail(Concat(cs))) by { ChunkingDoesNotMatter(cs); }
  }

  method PushAll(d: FrameDecoder, chunks: seq<array<byte>>, ghost cs: seq<seq<byte>>) returns (lines: seq<string>)
    requires d.Valid() && d.pending == []
    requires |cs| == |chunks| && forall j | 0 <= j < |chunks| :: chunks[j][..] == cs[j]
    modifies d
    ensures d.Valid()
    ensures lines == DecodeAll(d.decode, Received(cs).0) && d.PendingBytes() == Received(cs).1
  {
    lines := [];
    for k := 0 to |chunks|
      invariant d.Valid()
      invariant lines == DecodeAll(d.decode, Received(cs[..k]).0) && d.PendingBytes() == Received(cs[..k]).1
    {
      ReceivedOneMore(d.decode, cs, k);
      var more := d.Push(chunks[k]);
      lines := lines + more;
    }
    assert cs[..|chunks|] == cs;
  }

  lemma {:induction false} BytesAreConcat(parts: seq<array<byte>>, texts: seq<seq<byte>>)
    requires |texts| == |parts| && forall i | 0 <= i < |parts| :: parts[i][..] == texts[i]
    ensures Bytes(parts) == Concat(texts)
  {
    if parts != [] {
      BytesAreConcat(parts[..|parts| - 1], texts[..|parts| - 1]);
    }
  }

  lemma {:induction false} ConcatGrows(texts: seq<seq<byte>>, k: nat)
    requires k < |texts|
    ensures Concat(texts[..k + 1]) == Concat(texts[..k]) + texts[k] && |Concat(texts[..k + 1])| <= |Concat(texts)|
    decreases |texts|
  {
    if k + 1 < |texts| {
      var m := |texts| - 1;
      assert texts[..m][..k + 1] == texts[..k + 1] && texts[..m][..k] == texts[..k];
      ConcatGrows(texts[..m], k);
    } else {
      assert texts[..k + 1] == texts;
    }
  }

  /** The part before start holds whole lines, completed as `done`. */
  ghost predicate ScannedTo(pending: seq<byte>, chunk: seq<byte>, start: nat, done: seq<seq<byte>>)
    requires start <= |chunk|
  {
    && done == Completed(pending, chunk[..start])
    && (start > 0 ==> Tail(chunk[..start]) == [] && Lines(chunk[..start]) != [])
  }

  lemma NextLine(pending: seq<byte>, chunk: seq<byte>, start: nat, end: nat, done: seq<seq<byte>>)
    requires start <= end < |chunk| && chunk[end] == NEWLINE && NEWLINE !in chunk[start..end]
    requires ScannedTo(pending, chunk, start, done)
    ensures ScannedTo(pending, chunk, end + 1,
                      done + [if start == 0 then pending + chunk[start..end] else chunk[start..end]])
  {
    assert chunk[..end + 1] == chunk[..start] + chunk[start..end] + [NEWLINE];
    NewlineEndsLine(chunk[..start], chunk[start..end]);
    assert [] + chunk[start..end] == chunk[start..end];
  }

  lemma LastBytes(pending: seq<byte>, chunk: seq<byte>, start: nat, done: seq<seq<byte>>)
    requires start <= |chunk| && NEWLINE !in chunk[start..] && ScannedTo(pending, chunk, start, done)
    ensures Completed(pending, chunk) == done
    ensures Waiting(pending, chunk) == (if start == 0 then pending else []) + chunk[start..]
  {
    assert chunk == chunk[..start] + chunk[start..];
    NewlineFreeTail(chunk[..start], chunk[start..]);
  }
}
