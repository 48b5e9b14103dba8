/** How unix_socket_server.cpp cuts the bytes of a connection into messages, whatever the reads return. */
module Framing {
  import opened Basics

  const HEADER_SIZE := 32
  const MAGIC := 0x55434F4E

  /** What a read returns: up to 1 + extra bytes, or no bytes and an error. */
  datatype Outcome = Got(extra: nat) | Again | Interrupted | Failed

  /** What became of bytes that were read: a message that was dispatched, or part of one that was forgotten. */
  datatype Piece = Dispatched(bytes: seq<byte>) | Forgotten(bytes: seq<byte>)

  /** pos bytes of the stream have been read; those of the message being read are in partial. */
  datatype Conn = Conn(pos: nat, partial: seq<byte>, pieces: seq<Piece>, open: bool)

  const FRESH := Conn(0, [], [], true)

  // ---------------------------------------------------------------- messages

  function ReadU32(b: seq<byte>, at: nat): nat
    requires at + 4 <= |b|
  {
    b[at] as int * 0x100_0000 + b[at + 1] as int * 0x1_0000 + b[at + 2] as int * 0x100 + b[at + 3]
  }

  function U32(v: nat): (b: seq<byte>)
    requires v < 0x1_0000_0000
    ensures |b| == 4
  {
    [v / 0x100_0000, v / 0x1_0000 % 0x100, v / 0x100 % 0x100, v % 0x100]
  }

  function PayloadSize(b: seq<byte>): nat
    requires |b| >= HEADER_SIZE
  {
    ReadU32(b, 4)
  }

  predicate HeaderOk(b: seq<byte>, cap: nat)
    requires |b| >= HEADER_SIZE
  {
    ReadU32(b, 0) == MAGIC && PayloadSize(b) + HEADER_SIZE <= cap
  }

  /** A message as it is sent: magic, payload size, the other header fields, payload. */
  datatype Message = Message(fields: seq<byte>, payload: seq<byte>)

  predicate Sendable(m: Message, cap: nat) {
    |m.fields| == HEADER_SIZE - 8 && |m.payload| < 0x1_0000_0000 && HEADER_SIZE + |m.payload| <= cap
  }

  function Encode(m: Message): seq<byte>
    requires |m.payload| < 0x1_0000_0000
  {
    U32(MAGIC) + U32(|m.payload|) + m.fields + m.payload
  }

  predicate AllSendable(ms: seq<Message>, cap: nat) { forall m :: m in ms ==> Sendable(m, cap) }

  function EncodeEach(ms: seq<Message>, cap: nat): (r: seq<seq<byte>>)
    requires AllSendable(ms, cap)
    ensures |r| == |ms|
  {
    if ms == [] then [] else assert Sendable(ms[0], cap); [Encode(ms[0])] + EncodeEach(ms[1..], cap)
  }

  function Flatten(parts: seq<seq<byte>>): seq<byte> {
    if parts == [] then [] else parts[0] + Flatten(parts[1..])
  }

  // ---------------------------------------------------------------- cutting a stream at once

  /** The messages at the front of bytes, and what is left: an incomplete message or a bad header. */
  function Cut(bytes: seq<byte>, cap: nat): (seq<seq<byte>>, seq<byte>)
    decreases |bytes|
  {
    if |bytes| < HEADER_SIZE || !HeaderOk(bytes, cap) || |bytes| < HEADER_SIZE + PayloadSize(bytes) then ([], bytes)
    else
      var size := HEADER_SIZE + PayloadSize(bytes);
      var (msgs, rest) := Cut(bytes[size..], cap);
      ([bytes[..size]] + msgs, rest)
  }

  lemma U32RoundTrip(v: nat)
    requires v < 0x1_0000_0000
    ensures ReadU32(U32(v), 0) == v
  {
    var high := v / 0x1_0000;
    assert v / 0x100 == high * 0x100 + v / 0x100 % 0x100;
    assert high == v / 0x100_0000 * 0x100 + high % 0x100;
  }

  lemma EncodeHeader(m: Message, cap: nat, behind: seq<byte>)
    requires Sendable(m, cap)
    ensures var b := Encode(m) + behind;
            && |Encode(m)| == HEADER_SIZE + |m.payload| && HeaderOk(b, cap) && PayloadSize(b) == |m.payload|
            && b[..HEADER_SIZE + |m.payload|] == Encode(m) && b[HEADER_SIZE + |m.payload|..] == behind
  {
    var b := Encode(m) + behind;
    U32RoundTrip(MAGIC);
    U32RoundTrip(|m.payload|);
    assert b[..4] == U32(MAGIC) && b[4..8] == U32(|m.payload|);
    assert ReadU32(b, 0) == ReadU32(b[..4], 0) && ReadU32(b, 4) == ReadU32(b[4..8], 0);
  }

  /** Messages that are sent one behind the other are cut into just those messages. */
  lemma {:induction false} CutRoundTrip(ms: seq<Message>, cap: nat)
    requires AllSendable(ms, cap)
    ensures Cut(Flatten(EncodeEach(ms, cap)), cap) == (EncodeEach(ms, cap), [])
  {
    if ms != [] {
      CutRoundTrip(ms[1..], cap);
      EncodeHeader(ms[0], cap, Flatten(EncodeEach(ms[1..], cap)));
      assert EncodeEach(ms, cap)[1..] == EncodeEach(ms[1..], cap);
    }
  }

  // ---------------------------------------------------------------- reading piece by piece

  /** How many bytes the next read asks for. */
  function Wanted(partial: seq<byte>): nat {
    if |partial| < HEADER_SIZE then HEADER_SIZE - |partial|
    else if |partial| < HEADER_SIZE + PayloadSize(partial) then HEADER_SIZE + PayloadSize(partial) - |partial|
    else 0
  }

  /** After bytes have come in: a bad header ends the connection, a complete message is dispatched. */
  function Settle(c: Conn, cap: nat): Conn {
    if |c.partial| < HEADER_SIZE then c
    else if !HeaderOk(c.partial, cap) then c.(open := false)
    else if |c.partial| < HEADER_SIZE + PayloadSize(c.partial) then c
    else c.(partial := [], pieces := c.pieces + [Dispatched(c.partial)])
  }

  function Min(a: nat, b: nat): nat { if a <= b then a else b }

  /** How many bytes a read brings; none at the end of the stream. */
  function Brought(stream: seq<byte>, c: Conn, extra: nat): nat {
    if c.pos <= |stream| then Min(Min(1 + extra, Wanted(c.partial)), |stream| - c.pos) else 0
  }

  function Grown(stream: seq<byte>, c: Conn, n: nat): Conn
    requires c.pos + n <= |stream|
  {
    c.(pos := c.pos + n, partial := c.partial + stream[c.pos..c.pos + n])
  }

  /** One read. EAGAIN ends read_from_client, whose next call starts on a new message. */
  function Receive(stream: seq<byte>, c: Conn, outcome: Outcome, cap: nat): Conn {
    if !c.open then c
    else
      match outcome
      case Got(extra) =>
        var n := Brought(stream, c, extra);
        if n == 0 then c.(open := false)
        else Settle(Grown(stream, c, n), cap)
      case Again =>
        if c.partial == [] then c else c.(partial := [], pieces := c.pieces + [Forgotten(c.partial)])
      case Interrupted => c
      case Failed => c.(open := false)
  }

  function Drive(stream: seq<byte>, outcomes: seq<Outcome>, cap: nat): Conn {
    if outcomes == [] then FRESH
    else Receive(stream, Drive(stream, outcomes[..|outcomes| - 1], cap), outcomes[|outcomes| - 1], cap)
  }

  function Messages(pieces: seq<Piece>): seq<seq<byte>> {
    if pieces == [] then []
    else if pieces[0].Dispatched? then [pieces[0].bytes] + Messages(pieces[1..])
    else Messages(pieces[1..])
  }

  function Bytes(pieces: seq<Piece>): seq<byte> {
    if pieces == [] then [] else pieces[0].bytes + Bytes(pieces[1..])
  }

  predicate NothingForgotten(pieces: seq<Piece>) { forall piece :: piece in pieces ==> piece.Dispatched? }

  /** A message in itself: good header, exactly the payload it announces. */
  predicate Whole(b: seq<byte>, cap: nat) {
    |b| >= HEADER_SIZE && HeaderOk(b, cap) && |b| == HEADER_SIZE + PayloadSize(b)
  }

  /** What is in partial is neither a whole message nor, in an open connection, a bad header. */
  predicate Unfinished(c: Conn, cap: nat) {
    |c.partial| >= HEADER_SIZE ==>
      if HeaderOk(c.partial, cap) then |c.partial| < HEADER_SIZE + PayloadSize(c.partial)
      else |c.partial| == HEADER_SIZE && !c.open
  }

  predicate PiecesOk(pieces: seq<Piece>, cap: nat) {
    forall piece :: piece in pieces ==> if piece.Dispatched? then Whole(piece.bytes, cap) else piece.bytes != []
  }

  predicate Sound(stream: seq<byte>, c: Conn, cap: nat) {
    && c.pos <= |stream| && Bytes(c.pieces) + c.partial == stream[..c.pos]
    && PiecesOk(c.pieces, cap)
    && Unfinished(c, cap)
    && |c.partial| <= cap
  }

  lemma {:induction false} BytesSnoc(pieces: seq<Piece>, piece: Piece)
    ensures Bytes(pieces + [piece]) == Bytes(pieces) + piece.bytes
  {
    if pieces == [] {
      assert [piece][1..] == [] && piece.bytes + [] == piece.bytes;
    } else {
      assert (pieces + [piece])[1..] == pieces[1..] + [piece];
      BytesSnoc(pieces[1..], piece);
    }
  }

  lemma SameHeader(b: seq<byte>, more: seq<byte>, cap: nat)
    requires |b| >= HEADER_SIZE
    ensures HeaderOk(b + more, cap) == HeaderOk(b, cap) && PayloadSize(b + more) == PayloadSize(b)
  {
  }

  /** Where a read can leave partial before it is looked at. */
  predicate Growing(partial: seq<byte>, cap: nat) {
    && 0 < |partial| <= cap
    && (|partial| > HEADER_SIZE ==> HeaderOk(partial, cap) && |partial| <= HEADER_SIZE + PayloadSize(partial))
  }

  lemma ReadGrows(c: Conn, more: seq<byte>, cap: nat)
    requires cap >= HEADER_SIZE && c.open && Unfinished(c, cap) && 0 < |more| <= Wanted(c.partial)
    ensures Growing(c.partial + more, cap)
  {
    if |c.partial| >= HEADER_SIZE { SameHeader(c.partial, more, cap); }
  }

  /** The unfinished message becomes a piece. */
  lemma PieceAdded(stream: seq<byte>, c: Conn, piece: Piece, cap: nat)
    requires c.pos <= |stream| && Bytes(c.pieces) + c.partial == stream[..c.pos] && PiecesOk(c.pieces, cap)
    requires piece.bytes == c.partial != [] && (piece.Dispatched? ==> Whole(c.partial, cap))
    ensures Sound(stream, c.(partial := [], pieces := c.pieces + [piece]), cap)
  {
    BytesSnoc(c.pieces, piece);
    assert stream[..c.pos] + [] == stream[..c.pos];
    forall x | x in c.pieces + [piece] ensures if x.Dispatched? then Whole(x.bytes, cap) else x.bytes != [] {
      assert x == piece || x in c.pieces;
    }
  }

  lemma SettleSound(stream: seq<byte>, c: Conn, cap: nat)
    requires c.pos <= |stream| && Bytes(c.pieces) + c.partial == stream[..c.pos]
    requires PiecesOk(c.pieces, cap) && Growing(c.partial, cap)
    ensures Sound(stream, Settle(c, cap), cap)
  {
    if Whole(c.partial, cap) { PieceAdded(stream, c, Dispatched(c.partial), cap); }
  }

  lemma GotSound(stream: seq<byte>, c: Conn, n: nat, cap: nat)
    requires cap >= HEADER_SIZE && Sound(stream, c, cap) && c.open
    requires 0 < n <= Wanted(c.partial) && c.pos + n <= |stream|
    ensures Sound(stream, Settle(Grown(stream, c, n), cap), cap)
  {
    var more := stream[c.pos..c.pos + n];
    ReadGrows(c, more, cap);
    assert stream[..c.pos + n] == stream[..c.pos] + more;
    assert Bytes(c.pieces) + (c.partial + more) == Bytes(c.pieces) + c.partial + more;
    SettleSound(stream, Grown(stream, c, n), cap);
  }

  lemma ReceiveSound(stream: seq<byte>, c: Conn, outcome: Outcome, cap: nat)
    requires cap >= HEADER_SIZE && Sound(stream, c, cap)
    ensures Sound(stream, Receive(stream, c, outcome, cap), cap)
  {
    if c.open {
      match outcome {
        case Got(extra) =>
          if Brought(stream, c, extra) > 0 { GotSound(stream, c, Brought(stream, c, extra), cap); }
        case Again =>
          if c.partial != [] { PieceAdded(stream, c, Forgotten(c.partial), cap); }
        case _ =>
      }
    }
  }

  /**
   For any bytes and any outcomes of the reads: the bytes read are the dispatched messages, each whole, the
   forgotten pieces and the unfinished message, in order; and the buffer of cap bytes is never overrun.
   */
  lemma {:induction false} DriveSound(stream: seq<byte>, outcomes: seq<Outcome>, cap: nat)
    requires cap >= HEADER_SIZE
    ensures Sound(stream, Drive(stream, outcomes, cap), cap)
  {
    if outcomes != [] {
      DriveSound(stream, outcomes[..|outcomes| - 1], cap);
      ReceiveSound(stream, Drive(stream, outcomes[..|outcomes| - 1], cap), outcomes[|outcomes| - 1], cap);
    }
  }

  lemma CutWhole(b: seq<byte>, rest: seq<byte>, cap: nat)
    requires Whole(b, cap)
    ensures var (msgs, left) := Cut(rest, cap); Cut(b + rest, cap) == ([b] + msgs, left)
  {
    SameHeader(b, rest, cap);
    assert (b + rest)[..|b|] == b && (b + rest)[|b|..] == rest;
  }

  /** With nothing forgotten, the pieces and the unfinished message are how the bytes would be cut at once. */
  lemma {:induction false} PiecesAreCut(pieces: seq<Piece>, rest: seq<byte>, all: seq<byte>, cap: nat)
    requires NothingForgotten(pieces) && PiecesOk(pieces, cap) && Cut(rest, cap) == ([], rest)
    requires all == Bytes(pieces) + rest
    ensures Cut(all, cap) == (Messages(pieces), rest)
    decreases |pieces|
  {
    if pieces == [] {
      assert all == rest;
    } else {
      var first := pieces[0].bytes;
      assert pieces[0] in pieces;
      var tail := AfterFirst(pieces, rest, all);
      PiecesAreCut(pieces[1..], rest, tail, cap);
      CutWhole(first, tail, cap);
    }
  }

  lemma AfterFirst(pieces: seq<Piece>, rest: seq<byte>, all: seq<byte>) returns (tail: seq<byte>)
    requires pieces != [] && all == Bytes(pieces) + rest
    ensures all == pieces[0].bytes + tail && tail == Bytes(pieces[1..]) + rest
  {
    tail := Bytes(pieces[1..]) + rest;
  }

  lemma CutUnfinished(c: Conn, cap: nat)
    requires Unfinished(c, cap)
    ensures Cut(c.partial, cap) == ([], c.partial)
  {
  }

  // ---------------------------------------------------------------- headers, byte by byte

  /** The four bytes that a message begins with. */
  const MAGIC_BYTES: seq<byte> := [0x55, 0x43, 0x4F, 0x4E]

  /** The size that a header announces, highest byte first. */
  function Announced(b: seq<byte>): nat
    requires |b| >= HEADER_SIZE
  {
    ((b[4] as int * 256 + b[5] as int) * 256 + b[6] as int) * 256 + b[7] as int
  }

  /** A header for a buffer of cap bytes: the magic, and a size that leaves room for the header. */
  predicate GenuineHeader(b: seq<byte>, cap: nat)
    requires |b| >= HEADER_SIZE
  {
    b[..4] == MAGIC_BYTES && Announced(b) <= cap - HEADER_SIZE
  }

  lemma MagicIsBytes(b: seq<byte>)
    requires |b| >= 4
    ensures ReadU32(b, 0) == MAGIC <==> b[..4] == MAGIC_BYTES
  {
    assert ReadU32(b, 0) == MAGIC ==> b[0] == 0x55 && b[1] == 0x43 && b[2] == 0x4F && b[3] == 0x4E;
  }

  lemma HeaderIsGenuine(b: seq<byte>, cap: nat)
    requires |b| >= HEADER_SIZE
    ensures HeaderOk(b, cap) <==> GenuineHeader(b, cap)
    ensures PayloadSize(b) == Announced(b)
  {
    MagicIsBytes(b);
  }

  /** What is sent begins with the magic and the size of the payload, highest byte first, and ends in the payload. */
  lemma SentBytes(m: Message, cap: nat)
    requires Sendable(m, cap)
    ensures var b := Encode(m);
            && b[..4] == MAGIC_BYTES && |b| == HEADER_SIZE + |m.payload| && b[HEADER_SIZE..] == m.payload
            && Announced(b) == |m.payload|
  {
    EncodeHeader(m, cap, []);
    assert Encode(m) + [] == Encode(m);
    HeaderIsGenuine(Encode(m), cap);
  }

  /** Whatever is read, only messages with a genuine header are dispatched, each with the payload it announces. */
  lemma DispatchedAreGenuine(stream: seq<byte>, outcomes: seq<Outcome>, cap: nat, b: seq<byte>)
    requires cap >= HEADER_SIZE && Dispatched(b) in Drive(stream, outcomes, cap).pieces
    ensures |b| >= HEADER_SIZE && GenuineHeader(b, cap)
    ensures |b| == HEADER_SIZE + Announced(b)
  {
    DriveSound(stream, outcomes, cap);
    HeaderIsGenuine(b, cap);
  }

  // ---------------------------------------------------------------- when a connection is closed

  /** A read that fails, one at the end of the stream, and one that completes a header that is not genuine. */
  predicate Closes(stream: seq<byte>, c: Conn, outcome: Outcome, cap: nat) {
    || outcome.Failed?
    || (outcome.Got? && c.pos >= |stream|)
    || (outcome.Got? && |c.partial| < HEADER_SIZE
        && var b := c.partial + stream[c.pos..c.pos + Brought(stream, c, outcome.extra)];
           |b| == HEADER_SIZE && !GenuineHeader(b, cap))
  }

  lemma ReceiveCloses(stream: seq<byte>, c: Conn, outcome: Outcome, cap: nat)
    requires cap >= HEADER_SIZE && Sound(stream, c, cap) && c.open
    ensures Receive(stream, c, outcome, cap).open <==> !Closes(stream, c, outcome, cap)
  {
    if outcome.Got? && c.pos < |stream| {
      var n := Brought(stream, c, outcome.extra);
      var b := c.partial + stream[c.pos..c.pos + n];
      if |c.partial| >= HEADER_SIZE { SameHeader(c.partial, stream[c.pos..c.pos + n], cap); }
      if |b| >= HEADER_SIZE { HeaderIsGenuine(b, cap); }
    }
  }

  /** No read so far has closed the connection. */
  predicate NeverCloses(stream: seq<byte>, outcomes: seq<Outcome>, cap: nat) {
    outcomes != [] ==>
      var before, last := outcomes[..|outcomes| - 1], outcomes[|outcomes| - 1];
      NeverCloses(stream, before, cap) && !Closes(stream, Drive(stream, before, cap), last, cap)
  }

  /** A connection stays open just as long as no read closes it. */
  lemma {:induction false} ClosedExactly(stream: seq<byte>, outcomes: seq<Outcome>, cap: nat)
    requires cap >= HEADER_SIZE
    ensures Drive(stream, outcomes, cap).open <==> NeverCloses(stream, outcomes, cap)
  {
    if outcomes != [] {
      var before, last := outcomes[..|outcomes| - 1], outcomes[|outcomes| - 1];
      ClosedExactly(stream, before, cap);
      DriveSound(stream, before, cap);
      var c := Drive(stream, before, cap);
      if c.open { ReceiveCloses(stream, c, last, cap); }
    }
  }

  /** As long as no read says EAGAIN inside a message, how the reads split the bytes makes no difference. */
  lemma SplitDoesNotMatter(stream: seq<byte>, outcomes: seq<Outcome>, cap: nat)
    requires cap >= HEADER_SIZE && AgainOnlyBetween(stream, outcomes, cap)
    ensures var c := Drive(stream, outcomes, cap);
            c.pos <= |stream| && Cut(stream[..c.pos], cap) == (Messages(c.pieces), c.partial)
  {
    var c := Drive(stream, outcomes, cap);
    DriveSound(stream, outcomes, cap);
    ForgottenOnAgain(stream, outcomes, cap);
    CutUnfinished(c, cap);
    PiecesAreCut(c.pieces, c.partial, stream[..c.pos], cap);
  }

  lemma {:induction false} ForgottenIsMissing(pieces: seq<Piece>, cap: nat)
    requires PiecesOk(pieces, cap)
    ensures |Flatten(Messages(pieces))| <= |Bytes(pieces)|
    ensures |Flatten(Messages(pieces))| == |Bytes(pieces)| ==> NothingForgotten(pieces)
  {
    if pieces != [] {
      assert pieces[0] in pieces && forall piece :: piece in pieces ==> piece == pieces[0] || piece in pieces[1..];
      ForgottenIsMissing(pieces[1..], cap);
    }
  }

  /** EAGAIN comes only where no message has been begun. */
  predicate AgainOnlyBetween(stream: seq<byte>, outcomes: seq<Outcome>, cap: nat) {
    forall k :: 0 <= k < |outcomes| && outcomes[k].Again? ==>
      var c := Drive(stream, outcomes[..k], cap); c.open ==> c.partial == []
  }

  lemma {:induction false} ForgottenOnAgain(stream: seq<byte>, outcomes: seq<Outcome>, cap: nat)
    ensures NothingForgotten(Drive(stream, outcomes, cap).pieces) <==> AgainOnlyBetween(stream, outcomes, cap)
  {
    if outcomes != [] {
      var last := |outcomes| - 1;
      ForgottenOnAgain(stream, outcomes[..last], cap);
      ForgottenByLast(stream, Drive(stream, outcomes[..last], cap), outcomes[last], cap);
      assert forall k :: 0 <= k < last ==> outcomes[..last][..k] == outcomes[..k];
    }
  }

  lemma ForgottenByLast(stream: seq<byte>, c: Conn, outcome: Outcome, cap: nat)
    ensures NothingForgotten(Receive(stream, c, outcome, cap).pieces)
            <==> NothingForgotten(c.pieces) && (outcome.Again? && c.open ==> c.partial == [])
  {
    var d := Receive(stream, c, outcome, cap);
    if d.pieces != c.pieces {
      var piece := d.pieces[|c.pieces|];
      assert d.pieces == c.pieces + [piece] && piece in d.pieces;
    }
  }

  /**
   When all of a stream of messages has been read, in whatever pieces, those messages and no others were
   dispatched, in order, if and only if no read said EAGAIN inside a message.
   */
  lemma AllDelivered(ms: seq<Message>, outcomes: seq<Outcome>, cap: nat)
    requires cap >= HEADER_SIZE && AllSendable(ms, cap)
    requires Drive(Flatten(EncodeEach(ms, cap)), outcomes, cap).pos == |Flatten(EncodeEach(ms, cap))|
    ensures var stream := Flatten(EncodeEach(ms, cap));
            Messages(Drive(stream, outcomes, cap).pieces) == EncodeEach(ms, cap)
            <==> AgainOnlyBetween(stream, outcomes, cap)
  {
    var stream := Flatten(EncodeEach(ms, cap));
    var c := Drive(stream, outcomes, cap);
    DriveSound(stream, outcomes, cap);
    ForgottenOnAgain(stream, outcomes, cap);
    assert stream[..c.pos] == stream;
    if NothingForgotten(c.pieces) {
      SplitDoesNotMatter(stream, outcomes, cap);
      CutRoundTrip(ms, cap);
    }
    if Messages(c.pieces) == EncodeEach(ms, cap) { ForgottenIsMissing(c.pieces, cap); }
  }

  /** A byte of a message, EAGAIN, the rest of it: the message never arrives. */
  lemma AgainInsideMessage(m: Message, cap: nat)
    requires Sendable(m, cap) && m.payload == []
    ensures var c := Drive(Encode(m), [Got(0), Again, Got(HEADER_SIZE)], cap);
            c.pos == |Encode(m)| && Messages(c.pieces) == []
  {
    EncodeHeader(m, cap, []);
    var stream, os := Encode(m), [Got(0), Again, Got(HEADER_SIZE)];
    assert os[..2][..1] == os[..1] && os[..1][..0] == [];
    var c1 := Drive(stream, os[..1], cap);
    assert Drive(stream, os[..0], cap) == FRESH && Brought(stream, FRESH, 0) == 1;
    assert FRESH.partial + stream[0..1] == stream[0..1];
    assert c1 == Conn(1, stream[0..1], [], true);
    var c2 := Drive(stream, os[..2], cap);
    assert c2 == Conn(1, [], [Forgotten(stream[0..1])], true);
    assert Messages(c2.pieces) == Messages(c2.pieces[1..]) == [];
    assert Drive(stream, os, cap) == Receive(stream, c2, Got(HEADER_SIZE), cap);
  }

  // ---------------------------------------------------------------- the connection

  lemma DriveSnoc(stream: seq<byte>, seen: seq<Outcome>, outcome: Outcome, cap: nat)
    ensures Drive(stream, seen + [outcome], cap) == Receive(stream, Drive(stream, seen, cap), outcome, cap)
  {
    assert (seen + [outcome])[..|seen|] == seen;
  }

  lemma MessagesSnoc(pieces: seq<Piece>, b: seq<byte>)
    ensures Messages(pieces + [Dispatched(b)]) == Messages(pieces) + [b]
    ensures Messages(pieces + [Forgotten(b)]) == Messages(pieces)
    decreases |pieces|
  {
    if pieces == [] {
      assert [Dispatched(b)][1..] == [] && [Forgotten(b)][1..] == [];
    } else {
      assert (pieces + [Dispatched(b)])[1..] == pieces[1..] + [Dispatched(b)];
      assert (pieces + [Forgotten(b)])[1..] == pieces[1..] + [Forgotten(b)];
      MessagesSnoc(pieces[1..], b);
    }
  }

  /** The message being read is to have size bytes: those of a header, or those that its header announces. */
  predicate Filling(raw: Conn, size: nat, cap: nat) {
    && raw.open && |raw.partial| <= size <= cap
    && if |raw.partial| < HEADER_SIZE then size == HEADER_SIZE
       else size == HEADER_SIZE
            || (HeaderOk(raw.partial, cap) && size == HEADER_SIZE + PayloadSize(raw.partial))
  }

  lemma Unsettled(raw: Conn, size: nat, cap: nat)
    requires Filling(raw, size, cap) && |raw.partial| < size
    ensures Settle(raw, cap) == raw && Wanted(raw.partial) == size - |raw.partial|
  {
  }

  /** The connection after a read, before it settles. */
  function Filled(stream: seq<byte>, c: Conn, outcome: Outcome): Conn {
    if outcome.Got? && Brought(stream, c, outcome.extra) > 0 then Grown(stream, c, Brought(stream, c, outcome.extra))
    else c
  }

  lemma ReceiveFills(stream: seq<byte>, raw: Conn, outcome: Outcome, size: nat, cap: nat)
    requires Filling(raw, size, cap) && |raw.partial| < size && raw.pos <= |stream|
    ensures var c := Receive(stream, raw, outcome, cap);
            match outcome
            case Got(extra) =>
              var next := Filled(stream, raw, outcome);
              if Brought(stream, raw, extra) == 0 then !c.open && c.pieces == raw.pieces
              else c == Settle(next, cap) && Filling(next, size, cap)
                   && |next.partial| == |raw.partial| + Brought(stream, raw, extra)
            case Again => c.open && c.partial == [] && Messages(c.pieces) == Messages(raw.pieces)
            case Interrupted => c == raw
            case Failed => !c.open && c.pieces == raw.pieces
  {
    Unsettled(raw, size, cap);
    match outcome {
      case Got(extra) =>
        var n := Brought(stream, raw, extra);
        if |raw.partial| >= HEADER_SIZE && n > 0 {
          SameHeader(raw.partial, stream[raw.pos..raw.pos + n], cap);
        }
      case Again => MessagesSnoc(raw.pieces, raw.partial);
      case _ =>
    }
  }

  /** With its header in, a message is refused, or there is a payload to read, or it is dispatched. */
  lemma SettlesTo(raw: Conn, cap: nat)
    requires |raw.partial| >= HEADER_SIZE && raw.open
    ensures var c, b := Settle(raw, cap), raw.partial;
            if !HeaderOk(b, cap) then !c.open && c.pieces == raw.pieces
            else
              && (|b| <= HEADER_SIZE + PayloadSize(b) ==> Filling(raw, HEADER_SIZE + PayloadSize(b), cap))
              && (|b| == HEADER_SIZE + PayloadSize(b) ==>
                    c.open && c.partial == [] && Messages(c.pieces) == Messages(raw.pieces) + [b])
  {
    MessagesSnoc(raw.pieces, raw.partial);
  }

  class Connection {
    const stream: seq<byte>
    const buf: array<byte>
    var pos: nat                      // how much of the stream the socket has given out
    var script: seq<Outcome>          // what the reads to come return; then there is no more data
    ghost const plan: seq<Outcome>    // the whole script
    var received: seq<seq<byte>>      // what the callback was given
    ghost var seen: seq<Outcome>
    ghost var conn: Conn

    ghost predicate Reading()
      reads this
    {
      && buf.Length >= HEADER_SIZE && pos == conn.pos <= |stream|
      && conn == Drive(stream, seen, buf.Length) && Planned()
    }

    /** The reads so far returned what the script says, and EAGAIN behind its end. */
    ghost predicate Planned()
      reads this
    {
      if |seen| <= |plan| then seen + script == plan
      else script == [] && seen[..|plan|] == plan && forall i :: |plan| <= i < |seen| ==> seen[i] == Again
    }

    ghost predicate Valid()
      reads this
    {
      Reading() && received == Messages(conn.pieces) && (conn.open ==> conn.partial == [])
    }

    constructor (stream: seq<byte>, cap: nat, script: seq<Outcome>)
      requires cap >= HEADER_SIZE
      ensures Valid() && conn == FRESH && fresh(buf)
      ensures this.stream == stream && buf.Length == cap && plan == script
    {
      plan := script;
      this.stream, this.script, pos, received, seen, conn := stream, script, 0, [], [], FRESH;
      buf := new byte[cap];
    }

    method Draw() returns (outcome: Outcome)
      requires Planned()
      modifies this`script, this`seen
      ensures Planned() && seen == old(seen) + [outcome]
      ensures |script| == if old(script) == [] then 0 else |old(script)| - 1
      ensures outcome.Again? || |script| < |old(script)|
    {
      outcome := if script == [] then Again else script[0];
      assert script != [] ==> script == [outcome] + script[1..];
      script := if script == [] then [] else script[1..];
      seen := seen + [outcome];
    }

    /** One read of up to want bytes to place at. */
    method Read(at: nat, want: nat) returns (outcome: Outcome, n: nat)
      requires Reading() && conn.open && at + want <= buf.Length
      requires conn.partial == buf[..at] && want == Wanted(conn.partial) > 0
      modifies this`script, this`pos, this`seen, this`conn, buf
      ensures Reading() && seen == old(seen) + [outcome]
      ensures |script| == if old(script) == [] then 0 else |old(script)| - 1
      ensures outcome.Again? || |script| < |old(script)|
      ensures conn == Receive(stream, old(conn), outcome, buf.Length)
      ensures n == if outcome.Got? then Brought(stream, old(conn), outcome.extra) else 0
      ensures n <= want && old(conn).pos + n <= |stream|
      ensures buf[..at + n] == Filled(stream, old(conn), outcome).partial
    {
      outcome := Draw();
      n := if outcome.Got? then Min(Min(1 + outcome.extra, want), |stream| - pos) else 0;
      CopyIn(at, n);
      DriveSnoc(stream, old(seen), outcome, buf.Length);
      conn, pos := Receive(stream, conn, outcome, buf.Length), pos + n;
    }

    method CopyIn(at: nat, n: nat)
      requires at + n <= buf.Length && pos + n <= |stream|
      modifies buf
      ensures buf[..at + n] == old(buf[..at]) + stream[pos..pos + n]
    {
      for i := 0 to n
        invariant buf[..at + i] == old(buf[..at]) + stream[pos..pos + i]
      {
        buf[at + i] := stream[pos + i];
      }
    }

    /**
     Reads until size bytes of a message are in buf, or no more come. All the while, conn is what raw settles
     to: raw still has the message in its partial.
     */
    method Fill(at: nat, size: nat, ghost from: Conn) returns (rc: int, ghost raw: Conn)
      requires Reading() && conn == Settle(from, buf.Length) && at <= size
      requires at <= buf.Length && from.partial == buf[..at] && Filling(from, size, buf.Length)
      modifies this`script, this`pos, this`seen, this`conn, buf
      ensures Reading() && rc in {-1, 0, 1} && Extends(old(seen))
      ensures rc == 1 ==> |raw.partial| == size && raw.partial == buf[..size] && Filling(raw, size, buf.Length)
                          && raw.pieces == from.pieces && conn == Settle(raw, buf.Length)
      ensures rc == 1 && at == size ==> raw == from
      ensures rc == 0 ==> conn.open && conn.partial == [] && Messages(conn.pieces) == Messages(from.pieces)
      ensures rc == 0 ==> |seen| > 0 && seen[|seen| - 1] == Again
      ensures rc == -1 ==> !conn.open && conn.pieces == from.pieces
      ensures |script| <= |old(script)| && (at < size && rc == 1 ==> |script| < |old(script)|)
      ensures at < size ==> |seen| > |old(seen)|
    {
      var have := at;
      raw := from;
      while have < size
        invariant Reading() && Extends(old(seen)) && conn == Settle(raw, buf.Length)
        invariant at <= have <= size && raw.partial == buf[..have] && raw.pieces == from.pieces
        invariant Filling(raw, size, buf.Length) && (at == size ==> raw == from)
        invariant |script| <= |old(script)| && (at < have ==> |script| < |old(script)| && |seen| > |old(seen)|)
        decreases |script|, size - have
      {
        Unsettled(raw, size, buf.Length);
        var outcome, n := Read(have, size - have);
        ReceiveFills(stream, raw, outcome, size, buf.Length);
        match outcome {
          case Got(_) =>
            if n == 0 { return -1, raw; }
          case Again => return 0, raw;
          case Interrupted =>
          case Failed => return -1, raw;
        }
        raw := Filled(stream, raw, outcome);
        have := have + n;
      }
      return 1, raw;
    }

    ghost predicate Extends(was: seq<Outcome>)
      reads this
    {
      |was| <= |seen| && seen[..|was|] == was
    }

    /** One turn of the loop in read_from_client: 1 when a message was dispatched. */
    method ReadMessage() returns (rc: int)
      requires Valid() && conn.open
      modifies this`script, this`pos, this`seen, this`conn, this`received, buf
      ensures Valid() && Extends(old(seen)) && |seen| > |old(seen)| && rc in {-1, 0, 1}
      ensures rc == 1 ==> conn.open && |script| < |old(script)| && |received| == |old(received)| + 1
      ensures rc == 0 ==> conn.open && seen[|seen| - 1] == Again
      ensures rc != 1 ==> received == old(received)
      ensures rc == -1 ==> !conn.open
    {
      ghost var raw;
      rc, raw := Fill(0, HEADER_SIZE, conn);
      if rc != 1 { return; }
      SettlesTo(raw, buf.Length);
      if ReadU32(buf[..HEADER_SIZE], 0) != MAGIC { return -1; }
      var payload := PayloadSize(buf[..HEADER_SIZE]);
      if payload > buf.Length - HEADER_SIZE { return -1; }
      rc, raw := Fill(HEADER_SIZE, HEADER_SIZE + payload, raw);
      if rc != 1 { return; }
      SettlesTo(raw, buf.Length);
      received := received + [buf[..HEADER_SIZE + payload]];
    }

    /** read_from_client: 0 when there is no more data for now, -1 when the connection is to be closed. */
    method ReadFromClient() returns (rc: int)
      requires Valid() && conn.open
      modifies this`script, this`pos, this`seen, this`conn, this`received, buf
      ensures Valid() && Extends(old(seen)) && |seen| > |old(seen)|
      ensures rc == if conn.open then 0 else -1
      ensures conn.open ==> |seen| > 0 && seen[|seen| - 1] == Again
    {
      while true
        invariant Valid() && conn.open && Extends(old(seen))
        decreases |script|
      {
        rc := ReadMessage();
        if rc != 1 { return; }
      }
    }
  }

  /** What a connection's callback has received is what the bytes read so far would be cut into at once. */
  lemma ReceivedIsCut(c: Connection)
    requires c.Valid() && AgainOnlyBetween(c.stream, c.seen, c.buf.Length)
    ensures c.received == Cut(c.stream[..c.conn.pos], c.buf.Length).0
  {
    SplitDoesNotMatter(c.stream, c.seen, c.buf.Length);
  }
}
