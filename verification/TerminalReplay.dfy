/**
 The native terminal's replay buffer (backend/agent_server.py): every read is appended, the
 buffer is cut to its last 4 MiB, and an attaching viewer is sent the buffer in chunks.
 */
module TerminalReplay {
  import opened Common
  import opened TerminalFrame

  const REPLAY_LIMIT: nat := 4 * 1024 * 1024

  /** What the session remembers of its output. */
  datatype Replay = Replay(bytes: seq<Byte>, sequence: nat, truncated: bool)

  const EMPTY: Replay := Replay([], 0, false)

  /** One read, as the locked section applies it. */
  function Absorb(r: Replay, payload: seq<Byte>): Replay {
    var extended := r.bytes + payload;
    if |extended| > REPLAY_LIMIT
    then Replay(extended[|extended| - REPLAY_LIMIT..], r.sequence + |payload|, true)
    else Replay(extended, r.sequence + |payload|, r.truncated)
  }

  function AbsorbAll(pieces: seq<seq<Byte>>): Replay {
    if pieces == [] then EMPTY else Absorb(AbsorbAll(pieces[..|pieces| - 1]), pieces[|pieces| - 1])
  }

  lemma AbsorbSnoc(pieces: seq<seq<Byte>>, payload: seq<Byte>)
    ensures AbsorbAll(pieces + [payload]) == Absorb(AbsorbAll(pieces), payload)
  {
    assert (pieces + [payload])[..|pieces + [payload]| - 1] == pieces;
  }

  /** What the buffer should be after `output`, said without the buffer. */
  function Remembered(output: seq<Byte>): Replay {
    Replay(Newest(output, REPLAY_LIMIT), |output|, |output| > REPLAY_LIMIT)
  }

  lemma AbsorbRemembers(output: seq<Byte>, payload: seq<Byte>)
    ensures Absorb(Remembered(output), payload) == Remembered(output + payload)
  {
    var extended := Remembered(output).bytes + payload;
    assert Newest(output + payload, REPLAY_LIMIT) == Newest(extended, REPLAY_LIMIT);
  }

  /** After any reads the buffer holds the last 4 MiB of everything read, and the counters say how much that was. */
  lemma {:induction false} ReplayIsSuffixOfOutput(pieces: seq<seq<Byte>>)
    ensures AbsorbAll(pieces) == Remembered(Concat(pieces))
  {
    if pieces != [] {
      ReplayIsSuffixOfOutput(pieces[..|pieces| - 1]);
      AbsorbRemembers(Concat(pieces[..|pieces| - 1]), pieces[|pieces| - 1]);
    }
  }

  /** The buffer cut into payloads of at most 64 KiB, in order. */
  function Chunks(bytes: seq<Byte>): seq<seq<Byte>> {
    if |bytes| <= MAX_PAYLOAD then (if bytes == [] then [] else [bytes])
    else [bytes[..MAX_PAYLOAD]] + Chunks(bytes[MAX_PAYLOAD..])
  }

  function ChunksFrom(bytes: seq<Byte>, offset: nat): seq<seq<Byte>> {
    if offset < |bytes| then Chunks(bytes[offset..]) else []
  }

  lemma ChunkStep(bytes: seq<Byte>, offset: nat, end: nat)
    requires offset < |bytes|
    requires end == if offset + MAX_PAYLOAD <= |bytes| then offset + MAX_PAYLOAD else |bytes|
    ensures ChunksFrom(bytes, offset) == [bytes[offset..end]] + ChunksFrom(bytes, offset + MAX_PAYLOAD)
  {
    var rest := bytes[offset..];
    if offset + MAX_PAYLOAD < |bytes| {
      assert rest[..MAX_PAYLOAD] == bytes[offset..end];
      assert rest[MAX_PAYLOAD..] == bytes[offset + MAX_PAYLOAD..];
    } else {
      assert rest == bytes[offset..end];
    }
  }

  lemma {:induction false} ChunksCoverBuffer(bytes: seq<Byte>)
    ensures Concat(Chunks(bytes)) == bytes
    ensures forall i :: 0 <= i < |Chunks(bytes)| ==> 0 < |Chunks(bytes)[i]| <= MAX_PAYLOAD
  {
    if |bytes| <= MAX_PAYLOAD {
      ConcatOne(bytes);
    } else {
      var head := bytes[..MAX_PAYLOAD];
      ChunksCoverBuffer(bytes[MAX_PAYLOAD..]);
      ConcatAppend([head], Chunks(bytes[MAX_PAYLOAD..]));
      ConcatOne(head);
    }
  }

  datatype Read = Data(payload: seq<Byte>, watched: bool) | EndOfFile | OsError

  /** The payloads read before the first end of file, empty read or error. */
  function Payloads(pieces: seq<Read>): seq<seq<Byte>> {
    if pieces == [] || !pieces[0].Data? || pieces[0].payload == [] then []
    else [pieces[0].payload] + Payloads(pieces[1..])
  }

  /** The live frames: for each watched read, the offset at which it ends and its bytes. */
  function Broadcasts(start: nat, pieces: seq<Read>): seq<(nat, seq<Byte>)>
    decreases |pieces|
  {
    if pieces == [] || !pieces[0].Data? || pieces[0].payload == [] then []
    else
      var end := start + |pieces[0].payload|;
      (if pieces[0].watched then [(end, pieces[0].payload)] else []) + Broadcasts(end, pieces[1..])
  }

  /** The reads that count: those before the first end, empty read or error. */
  lemma {:induction false} PayloadsAreReads(pieces: seq<Read>)
    ensures var ps := Payloads(pieces);
            && |ps| <= |pieces|
            && (forall j :: 0 <= j < |ps| ==> pieces[j].Data? && pieces[j].payload == ps[j] && ps[j] != [])
            && (|ps| < |pieces| ==> !pieces[|ps|].Data? || pieces[|ps|].payload == [])
  {
    if pieces != [] && pieces[0].Data? && pieces[0].payload != [] {
      PayloadsAreReads(pieces[1..]);
    }
  }

  /** A live frame is sent exactly for each watched read, with its bytes and the offset at which they end in the output. */
  lemma {:induction false} BroadcastsAreReads(start: nat, pieces: seq<Read>, f: (nat, seq<Byte>))
    ensures |Payloads(pieces)| <= |pieces|
    ensures f in Broadcasts(start, pieces) <==>
            exists j :: 0 <= j < |Payloads(pieces)| && Sent(start, pieces, j) == Some(f)
    decreases |pieces|
  {
    PayloadsAreReads(pieces);
    if pieces != [] && pieces[0].Data? && pieces[0].payload != [] {
      var end, rest := start + |pieces[0].payload|, pieces[1..];
      BroadcastsAreReads(end, rest, f);
      PayloadsAreReads(rest);
      forall j | 0 <= j < |Payloads(rest)| ensures Sent(end, rest, j) == Sent(start, pieces, j + 1) {
        SentLater(start, pieces, j);
      }
      SentFirst(start, pieces);
      if j :| 0 <= j < |Payloads(pieces)| && Sent(start, pieces, j) == Some(f) {
        assert j > 0 ==> Sent(end, rest, j - 1) == Some(f);
      }
      if j :| 0 <= j < |Payloads(rest)| && Sent(end, rest, j) == Some(f) {
        assert Sent(start, pieces, j + 1) == Some(f);
      }
    }
  }

  /** The frame of read `j`, if somebody watches. */
  function Sent(start: nat, pieces: seq<Read>, j: nat): Option<(nat, seq<Byte>)>
    requires j < |Payloads(pieces)| <= |pieces|
  {
    if pieces[j].Data? && pieces[j].watched
    then Some((start + |Concat(Payloads(pieces)[..j + 1])|, Payloads(pieces)[j])) else None
  }

  lemma SentFirst(start: nat, pieces: seq<Read>)
    requires pieces != [] && pieces[0].Data? && pieces[0].payload != [] && |Payloads(pieces)| <= |pieces|
    ensures Sent(start, pieces, 0) == if pieces[0].watched then Some((start + |pieces[0].payload|, pieces[0].payload)) else None
  {
    assert Payloads(pieces)[..1] == [pieces[0].payload];
    ConcatOne(pieces[0].payload);
  }

  lemma SentLater(start: nat, pieces: seq<Read>, j: nat)
    requires pieces != [] && pieces[0].Data? && pieces[0].payload != [] && |Payloads(pieces)| <= |pieces|
    requires j < |Payloads(pieces[1..])| <= |pieces[1..]|
    ensures Sent(start + |pieces[0].payload|, pieces[1..], j) == Sent(start, pieces, j + 1)
  {
    var head, rest := pieces[0].payload, Payloads(pieces[1..]);
    assert Payloads(pieces)[..j + 2] == [head] + rest[..j + 1];
    ConcatAppend([head], rest[..j + 1]);
    ConcatOne(head);
  }

  lemma PieceStep(pieces: seq<Read>, i: nat, start: nat)
    requires i < |pieces| && pieces[i].Data? && pieces[i].payload != []
    ensures Payloads(pieces[i..]) == [pieces[i].payload] + Payloads(pieces[i + 1..])
    ensures var end := start + |pieces[i].payload|;
            Broadcasts(start, pieces[i..])
            == (if pieces[i].watched then [(end, pieces[i].payload)] else []) + Broadcasts(end, pieces[i + 1..])
  {
    assert pieces[i..][0] == pieces[i] && pieces[i..][1..] == pieces[i + 1..];
  }

  /** The frames of a snapshot; a frame whose counter does not fit 64 bits is not sent. */
  function SnapshotFrames(session: string, attachment: string, sequence: nat, chunks: seq<seq<Byte>>): seq<seq<Byte>>
    requires IsCanonicalUuid(session) && IsCanonicalUuid(attachment)
  {
    if chunks == [] then []
    else
      var frame := EdgeEncodeOutput(session, attachment, sequence, chunks[0]);
      (if frame.Some? then [frame.value] else []) + SnapshotFrames(session, attachment, sequence, chunks[1..])
  }

  lemma {:induction false} ChunkFramesDecode(session: string, attachment: string, sequence: nat, chunks: seq<seq<Byte>>)
    requires IsCanonicalUuid(session) && IsCanonicalUuid(attachment)
    requires sequence < SEQUENCE_LIMIT
    requires forall i :: 0 <= i < |chunks| ==> 0 < |chunks[i]| <= MAX_PAYLOAD
    ensures var frames := SnapshotFrames(session, attachment, sequence, chunks);
            && |frames| == |chunks|
            && forall i :: 0 <= i < |frames| ==>
                 Decode(frames[i]) == Ok(Frame(OUTPUT, session, attachment, sequence, chunks[i]))
  {
    if chunks != [] {
      EdgeOutputReachesCenter(session, attachment, sequence, chunks[0]);
      ChunkFramesDecode(session, attachment, sequence, chunks[1..]);
    }
  }

  /**
   The center's decoder accepts every frame of a snapshot, and the payloads it reads
   concatenate to the replay buffer, as long as the output counter fits in 64 bits.
   */
  lemma SnapshotReachesCenter(session: string, attachment: string, r: Replay)
    requires IsCanonicalUuid(session) && IsCanonicalUuid(attachment)
    requires r.sequence < SEQUENCE_LIMIT
    ensures var frames := SnapshotFrames(session, attachment, r.sequence, Chunks(r.bytes));
            && (forall i :: 0 <= i < |frames| ==> Decode(frames[i]).Ok?)
            && Concat(seq(|frames|, i requires 0 <= i < |frames| && Decode(frames[i]).Ok? => Decode(frames[i]).value.payload))
               == r.bytes
  {
    var chunks := Chunks(r.bytes);
    ChunksCoverBuffer(r.bytes);
    ChunkFramesDecode(session, attachment, r.sequence, chunks);
    var frames := SnapshotFrames(session, attachment, r.sequence, chunks);
    assert seq(|frames|, i requires 0 <= i < |frames| && Decode(frames[i]).Ok? => Decode(frames[i]).value.payload) == chunks;
  }

  class NativeTerminal {
    const session: string
    var replay: seq<Byte>
    var sequence: nat
    var truncated: bool
    ghost var history: seq<seq<Byte>>

    /** The fields are what the reads so far leave behind, which `ReplayIsSuffixOfOutput` spells out. */
    ghost predicate Valid()
      reads this
    {
      Replay(replay, sequence, truncated) == AbsorbAll(history)
    }

    constructor (session: string)
      ensures Valid() && history == [] && this.session == session
    {
      this.session := session;
      replay, sequence, truncated, history := [], 0, false, [];
    }

    /** The locked section of the reader. */
    method Append(payload: seq<Byte>)
      requires Valid()
      modifies this
      ensures Valid() && history == old(history) + [payload]
      ensures sequence == old(sequence) + |payload|
    {
      sequence := sequence + |payload|;
      replay := replay + payload;
      if |replay| > REPLAY_LIMIT {
        var overflow := |replay| - REPLAY_LIMIT;
        replay := replay[overflow..];
        truncated := true;
      }
      AbsorbSnoc(history, payload);
      history := history + [payload];
    }

    /** The reader loop: absorb until the terminal ends, broadcasting each watched read. */
    method ReadUntilClosed(pieces: seq<Read>) returns (sent: seq<(nat, seq<Byte>)>)
      requires Valid()
      modifies this
      ensures Valid() && history == old(history) + Payloads(pieces)
      ensures sent == Broadcasts(old(sequence), pieces)
    {
      sent := [];
      var i := 0;
      while i < |pieces|
        invariant 0 <= i <= |pieces| && Valid()
        invariant history + Payloads(pieces[i..]) == old(history) + Payloads(pieces)
        invariant sent + Broadcasts(sequence, pieces[i..]) == Broadcasts(old(sequence), pieces)
      {
        if !pieces[i].Data? || pieces[i].payload == [] {
          return;
        }
        var payload := pieces[i].payload;
        PieceStep(pieces, i, sequence);
        Assoc(history, [payload], Payloads(pieces[i + 1..]));
        Append(payload);
        var live: seq<(nat, seq<Byte>)> := if pieces[i].watched then [(sequence, payload)] else [];
        Assoc(sent, live, Broadcasts(sequence, pieces[i + 1..]));
        sent := sent + live;
        i := i + 1;
      }
    }

    /** The snapshot loop of an attach. */
    method Snapshot(attachment: string) returns (frames: seq<seq<Byte>>)
      requires IsCanonicalUuid(session) && IsCanonicalUuid(attachment)
      ensures frames == SnapshotFrames(session, attachment, sequence, Chunks(replay))
    {
      frames := [];
      var offset := 0;
      assert replay[0..] == replay;
      while offset < |replay|
        invariant 0 <= offset
        invariant frames + SnapshotFrames(session, attachment, sequence, ChunksFrom(replay, offset))
                  == SnapshotFrames(session, attachment, sequence, Chunks(replay))
      {
        var end := if offset + MAX_PAYLOAD <= |replay| then offset + MAX_PAYLOAD else |replay|;
        ChunkStep(replay, offset, end);
        var frame := EdgeEncodeOutput(session, attachment, sequence, replay[offset..end]);
        var sent: seq<seq<Byte>> := if frame.Some? then [frame.value] else [];
        Assoc(frames, sent, SnapshotFrames(session, attachment, sequence, ChunksFrom(replay, offset + MAX_PAYLOAD)));
        frames := frames + sent;
        offset := offset + MAX_PAYLOAD;
      }
    }
  }
}
