/**
 * The receiver thread (app/src/receiver.c): it appends what recv() returns to a fixed
 * buffer, handles every complete message, and moves the rest to the front.
 */
module Receiver {
  import opened Common
  import opened Binary
  import opened DeviceMsg

  /** Pending: the bytes of an incomplete message. */
  datatype End = Pending(rest: seq<Byte>) | Failed
  datatype Parsed = Parsed(msgs: seq<Msg>, end: End)

  /** The messages of a byte stream taken as a whole. */
  function ParseAll(b: seq<Byte>): (p: Parsed)
    ensures p.end.Pending? ==> |p.end.rest| <= |b|
    decreases |b|
  {
    match Deserialize(b)
    case Incomplete => Parsed([], Pending(b))
    case Invalid => Parsed([], Failed)
    case Complete(msg, size) =>
      var p := ParseAll(b[size..]);
      Parsed([msg] + p.msgs, p.end)
  }

  /** Parsing more bytes after what was parsed already. */
  function Resume(p: Parsed, more: seq<Byte>): Parsed {
    match p.end
    case Failed => p
    case Pending(rest) =>
      var q := ParseAll(rest + more);
      Parsed(p.msgs + q.msgs, q.end)
  }

  /** What the thread has delivered, and its buffer or its error, after some calls to recv(). */
  function Received(chunks: seq<seq<Byte>>): Parsed {
    if chunks == [] then Parsed([], Pending([])) else Resume(Received(DropLast(chunks)), Last(chunks))
  }

  /** recv() returns at least one byte, and at most as many as there is room for. */
  predicate Fits(chunks: seq<seq<Byte>>) {
    chunks != [] ==>
      && Fits(DropLast(chunks))
      && Last(chunks) != []
      && (var end := Received(DropLast(chunks)).end; end.Pending? ==> |end.rest| + |Last(chunks)| <= MAX_SIZE)
  }

  function Concat(chunks: seq<seq<Byte>>): seq<Byte> {
    if chunks == [] then [] else Concat(DropLast(chunks)) + Last(chunks)
  }

  lemma ResumeAfter(msg: Msg, p: Parsed, more: seq<Byte>)
    ensures var q := Resume(p, more);
            Resume(Parsed([msg] + p.msgs, p.end), more) == Parsed([msg] + q.msgs, q.end)
  {
    hide ParseAll;
  }

  lemma ParseAllOfEnd(b: seq<Byte>)
    ensures Deserialize(b).Invalid? ==> ParseAll(b) == Parsed([], Failed)
    ensures Deserialize(b).Incomplete? ==> ParseAll(b) == Parsed([], Pending(b))
  {
    hide Deserialize;
  }

  lemma ParseAllOfNothing()
    ensures ParseAll([]) == Parsed([], Pending([]))
  {
  }

  lemma ParseAllOfComplete(b: seq<Byte>)
    requires Deserialize(b).Complete?
    ensures var r := Deserialize(b);
            var p := ParseAll(b[r.size..]);
            ParseAll(b) == Parsed([r.msg] + p.msgs, p.end)
  {
    hide Deserialize;
  }

  /** Parsing a stream, then more of it, is parsing all of it. */
  lemma {:induction false} ParseAllAppend(b: seq<Byte>, more: seq<Byte>)
    ensures ParseAll(b + more) == Resume(ParseAll(b), more)
    decreases |b|
  {
    hide Deserialize, ParseAll, Resume;
    match Deserialize(b)
    case Incomplete => ResumeIncomplete(b, more);
    case Invalid =>
      DeserializeIsStable(b, more);
      ResumeInvalid(b, more);
    case Complete(msg, size) =>
      DeserializeIsStable(b, more);
      ParseAllAppend(b[size..], more);
      assert (b + more)[size..] == b[size..] + more;
      ParseAllOfComplete(b);
      ParseAllOfComplete(b + more);
      ResumeAfter(msg, ParseAll(b[size..]), more);
  }

  lemma ResumeIncomplete(b: seq<Byte>, more: seq<Byte>)
    requires Deserialize(b).Incomplete?
    ensures ParseAll(b + more) == Resume(ParseAll(b), more)
  {
    hide Deserialize;
    assert ParseAll(b) == Parsed([], Pending(b));
  }

  lemma ResumeInvalid(b: seq<Byte>, more: seq<Byte>)
    requires Deserialize(b).Invalid? && Deserialize(b + more).Invalid?
    ensures ParseAll(b + more) == Resume(ParseAll(b), more)
  {
    hide Deserialize;
  }

  lemma {:induction false} ReceivedIsParseAll(chunks: seq<seq<Byte>>)
    ensures Received(chunks) == ParseAll(Concat(chunks))
  {
    if chunks != [] {
      ReceivedIsParseAll(DropLast(chunks));
      ParseAllAppend(Concat(DropLast(chunks)), Last(chunks));
    }
  }

  /** The messages delivered and the error do not depend on how the stream was split. */
  lemma {:induction false} SplitsAgree(chunks: seq<seq<Byte>>, chunks': seq<seq<Byte>>)
    requires Concat(chunks) == Concat(chunks')
    ensures Received(chunks) == Received(chunks')
  {
    ReceivedIsParseAll(chunks);
    ReceivedIsParseAll(chunks');
  }

  function EncodeAll(msgs: seq<Msg>): seq<Byte>
    requires forall m | m in msgs :: Encodable(m)
  {
    if msgs == [] then [] else Encode(msgs[0]) + EncodeAll(msgs[1..])
  }

  /** Whatever messages the device sends, and however they are split, exactly these are delivered. */
  lemma {:induction false} DeliversWhatIsSent(msgs: seq<Msg>)
    requires forall m | m in msgs :: Encodable(m)
    ensures ParseAll(EncodeAll(msgs)) == Parsed(msgs, Pending([]))
  {
    if msgs != [] {
      DeliversWhatIsSent(msgs[1..]);
      DeserializeOfEncode(msgs[0], EncodeAll(msgs[1..]));
      assert EncodeAll(msgs)[|Encode(msgs[0])|..] == EncodeAll(msgs[1..]);
    }
  }

  // ---------------------------------------------------------------- assert(head < DEVICE_MSG_MAX_SIZE)

  /** The assertion at the start of the next iteration of the loop. */
  predicate RoomLeft(p: Parsed) {
    p.end.Pending? ==> |p.end.rest| < MAX_SIZE
  }

  /** The stream reaches a clipboard message with a too long text, and a whole buffer of it. */
  predicate HasOversized(b: seq<Byte>)
    decreases |b|
  {
    match Deserialize(b)
    case Incomplete => |b| >= MAX_SIZE && b[0] == TYPE_CLIPBOARD && Read32(b[1..]) > TEXT_MAX_LENGTH
    case Invalid => false
    case Complete(_, size) => HasOversized(b[size..])
  }

  /** Every clipboard length announced in the stream is at most DEVICE_MSG_TEXT_MAX_LENGTH. */
  predicate TextLengthsInRange(b: seq<Byte>)
    decreases |b|
  {
    && (|b| >= 5 && b[0] == TYPE_CLIPBOARD ==> Read32(b[1..]) <= TEXT_MAX_LENGTH)
    && (var r := Deserialize(b); r.Complete? ==> TextLengthsInRange(b[r.size..]))
  }

  lemma {:induction false} PendingIsFullIff(b: seq<Byte>)
    ensures RoomLeft(ParseAll(b)) <==> !HasOversized(b)
    decreases |b|
  {
    match Deserialize(b)
    case Incomplete =>
    case Invalid =>
    case Complete(_, size) => PendingIsFullIff(b[size..]);
  }

  lemma {:induction false} InRangeIsNotOversized(b: seq<Byte>)
    requires TextLengthsInRange(b)
    ensures !HasOversized(b)
    decreases |b|
  {
    match Deserialize(b)
    case Incomplete =>
    case Invalid =>
    case Complete(_, size) => InRangeIsNotOversized(b[size..]);
  }

  /**
   * The assertion of the loop holds exactly when the bytes received so far do not
   * contain a whole buffer of a clipboard message announcing a too long text; in
   * particular it always holds if no announced length is out of range.
   */
  lemma {:induction false} AssertionHoldsIff(chunks: seq<seq<Byte>>)
    ensures RoomLeft(Received(chunks)) <==> !HasOversized(Concat(chunks))
    ensures TextLengthsInRange(Concat(chunks)) ==> RoomLeft(Received(chunks))
  {
    ReceivedIsParseAll(chunks);
    PendingIsFullIff(Concat(chunks));
    if TextLengthsInRange(Concat(chunks)) {
      InRangeIsNotOversized(Concat(chunks));
    }
  }

  /** A device that sends a clipboard text one byte too long fills the buffer. */
  lemma OversizedExample(text: seq<Byte>)
    requires |text| == TEXT_MAX_LENGTH + 1
    ensures var chunk := Encode(Clipboard(text))[..MAX_SIZE];
            Fits([chunk]) && !RoomLeft(Received([chunk]))
  {
    var b := Encode(Clipboard(text));
    var chunk := b[..MAX_SIZE];
    Read32OfBe32(|text|, text);
    assert b[1..] == Be32(|text|) + text;
    Read32OfBe32(|text|, text[..MAX_SIZE - 5]);
    assert chunk[1..] == Be32(|text|) + text[..MAX_SIZE - 5];
    assert Deserialize(chunk).Incomplete?;
    assert DropLast([chunk]) == [] && [] + chunk == chunk;
  }

  // ---------------------------------------------------------------- the loops

  /** process_msgs(): handles the complete messages of the first `len` bytes; consumed is -1 on error. */
  method ProcessMsgs(buf: array<Byte>, len: nat) returns (msgs: seq<Msg>, consumed: int)
    requires len <= buf.Length
    ensures var p := ParseAll(buf[..len]);
            && msgs == p.msgs
            && (if p.end.Failed? then consumed == -1 else 0 <= consumed <= len && buf[consumed..len] == p.end.rest)
  {
    hide Deserialize, ParseAll;
    msgs := [];
    var head := 0;
    while true
      invariant 0 <= head <= len
      invariant var p, q := ParseAll(buf[..len]), ParseAll(buf[head..len]);
                p.msgs == msgs + q.msgs && p.end == q.end
      decreases len - head
    {
      var r := Deserialize(buf[head..len]);
      ParseAllOfEnd(buf[head..len]);
      assert msgs + [] == msgs;
      if r.Invalid? {
        return msgs, -1;
      }
      if r.Incomplete? {
        return msgs, head;
      }
      ParseAllOfComplete(buf[head..len]);
      ParseAllOfNothing();
      assert buf[head..len][r.size..] == buf[head + r.size..len];
      msgs := msgs + [r.msg];
      head := head + r.size;
      if head == len {
        assert buf[head..len] == [] && msgs + [] == msgs;
        return msgs, head;
      }
    }
  }

  /** memmove(buf, &buf[from], count) */
  method ShiftToFront(buf: array<Byte>, from: nat, count: nat)
    requires from + count <= buf.Length
    modifies buf
    ensures buf[..count] == old(buf[from..from + count])
  {
    var i := 0;
    while i < count
      invariant 0 <= i <= count
      invariant forall k | 0 <= k < i :: buf[k] == old(buf[from + k])
      invariant forall k | i <= k < buf.Length :: buf[k] == old(buf[k])
    {
      buf[i] := buf[from + i];
      i := i + 1;
    }
  }

  /** recv(buf + head) returns the bytes of `chunk`. */
  method ReceiveInto(buf: array<Byte>, head: nat, chunk: seq<Byte>)
    requires head + |chunk| <= buf.Length
    modifies buf
    ensures buf[..head + |chunk|] == old(buf[..head]) + chunk
  {
    var i := 0;
    while i < |chunk|
      invariant 0 <= i <= |chunk|
      invariant buf[..head + i] == old(buf[..head]) + chunk[..i]
    {
      buf[head + i] := chunk[i];
      i := i + 1;
    }
    assert chunk[..|chunk|] == chunk;
  }

  /** One iteration of run_receiver(): the rest is moved to the front of the buffer. */
  method HandleChunk(buf: array<Byte>, head: nat, chunk: seq<Byte>) returns (msgs: seq<Msg>, error: bool, next: nat)
    requires head + |chunk| <= buf.Length
    modifies buf
    ensures var p := ParseAll(old(buf[..head]) + chunk);
            && msgs == p.msgs
            && (error <==> p.end.Failed?)
            && (!error ==> next <= head + |chunk| && buf[..next] == p.end.rest)
  {
    hide ParseAll;
    ReceiveInto(buf, head, chunk);
    next := head + |chunk|;
    var consumed;
    msgs, consumed := ProcessMsgs(buf, next);
    error := consumed == -1;
    if !error && consumed != 0 {
      next := next - consumed;
      ShiftToFront(buf, consumed, next);
    }
  }

  /** run_receiver(), for a connection that returns these chunks and is then closed. */
  method RunReceiver(chunks: seq<seq<Byte>>) returns (msgs: seq<Msg>, error: bool)
    requires Fits(chunks)
    ensures msgs == Received(chunks).msgs
    ensures error <==> Received(chunks).end.Failed?
  {
    var buf := new Byte[MAX_SIZE];
    var head := 0;
    msgs := [];
    error := false;
    assert buf[..head] == [];
    assert Received(chunks[..0]) == Parsed([], Pending([]));
    hide ParseAll, Received, Fits;
    var i := 0;
    while i < |chunks|
      invariant 0 <= i <= |chunks| && 0 <= head <= MAX_SIZE
      invariant Received(chunks[..i]) == Parsed(msgs, Pending(buf[..head]))
    {
      NextFits(chunks, i);
      assert head < MAX_SIZE;
      var more;
      more, error, head := HandleChunk(buf, head, chunks[i]);
      msgs := msgs + more;
      if error {
        FailedPrefix(chunks, i + 1);
        return;
      }
      i := i + 1;
    }
    assert chunks[..i] == chunks;
  }

  lemma NextFits(chunks: seq<seq<Byte>>, i: nat)
    requires Fits(chunks) && i < |chunks|
    ensures Received(chunks[..i + 1]) == Resume(Received(chunks[..i]), chunks[i])
    ensures chunks[i] != []
    ensures var end := Received(chunks[..i]).end;
            end.Pending? ==> |end.rest| + |chunks[i]| <= MAX_SIZE
  {
    hide Resume;
    FitsPrefix(chunks, i + 1);
    assert DropLast(chunks[..i + 1]) == chunks[..i] && Last(chunks[..i + 1]) == chunks[i];
  }

  lemma {:induction false} FitsPrefix(chunks: seq<seq<Byte>>, n: nat)
    requires Fits(chunks) && n <= |chunks|
    ensures Fits(chunks[..n])
    decreases |chunks|
  {
    if n < |chunks| {
      FitsPrefix(DropLast(chunks), n);
      assert DropLast(chunks)[..n] == chunks[..n];
    } else {
      assert chunks[..n] == chunks;
    }
  }

  lemma {:induction false} FailedPrefix(chunks: seq<seq<Byte>>, n: nat)
    requires n <= |chunks| && Received(chunks[..n]).end.Failed?
    ensures Received(chunks) == Received(chunks[..n])
    decreases |chunks|
  {
    if n < |chunks| {
      assert DropLast(chunks)[..n] == chunks[..n];
      FailedPrefix(DropLast(chunks), n);
    } else {
      assert chunks[..n] == chunks;
    }
  }
}
