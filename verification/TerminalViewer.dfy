/**
 What a viewer sees when it attaches to a running native terminal (backend/agent_server.py,
 backend/ws_agent_manager.py and the browser's terminal).  The edge's reader absorbs a read under
 the session lock and broadcasts it later; the attach handler takes its snapshot under the lock
 and sends `snapshot_begin` and the chunks later.  The two interleave freely.  The center passes
 payloads on without their sequence numbers, and the browser clears its screen at
 `snapshot_begin` and writes every payload it gets.  A byte of the output is named by its offset.
 */
module TerminalViewer {
  import opened Common
  import opened TerminalFrame
  import opened TerminalReplay

  datatype Span = Span(from: nat, to: nat)

  datatype Item = Reset | Payload(span: Span)

  /** The attach handler: snapshot not taken, taken, or being sent from `next` on. */
  datatype Phase = Before | Taken(lo: nat, hi: nat) | Sending(lo: nat, hi: nat, next: nat)

  /** `pending` is a read that has been absorbed and not yet broadcast; `sent` is what the viewer receives. */
  datatype Edge = Edge(total: nat, pending: Option<Span>, phase: Phase, sent: seq<Item>)

  datatype Label =
    | Read(n: nat, watched: bool)      // `watched`: somebody else is attached
    | Broadcast
    | Attach
    | Begin
    | Chunk

  const START: Edge := Edge(0, None, Before, [])

  /** The first offset that the replay buffer still holds. */
  function BufferStart(total: nat): nat {
    if total <= REPLAY_LIMIT then 0 else total - REPLAY_LIMIT
  }

  function ChunkEnd(next: nat, hi: nat): nat {
    if next + MAX_PAYLOAD <= hi then next + MAX_PAYLOAD else hi
  }

  function Step(s: Edge, l: Label): Edge {
    match l
    case Read(n, watched) =>
      if s.pending.Some? || n == 0 || n > MAX_PAYLOAD then s
      else s.(total := s.total + n,
              pending := if watched || !s.phase.Before? then Some(Span(s.total, s.total + n)) else None)
    case Broadcast => if s.pending.Some? then s.(pending := None, sent := s.sent + [Payload(s.pending.value)]) else s
    case Attach => if s.phase.Before? then s.(phase := Taken(BufferStart(s.total), s.total)) else s
    case Begin =>
      if s.phase.Taken? then s.(phase := Sending(s.phase.lo, s.phase.hi, s.phase.lo), sent := s.sent + [Reset]) else s
    case Chunk =>
      if s.phase.Sending? && s.phase.next < s.phase.hi then
        var end := ChunkEnd(s.phase.next, s.phase.hi);
        s.(phase := s.phase.(next := end), sent := s.sent + [Payload(Span(s.phase.next, end))])
      else s
  }

  /** A chunk carries on where the last one ended, with at most 64 KiB, and less only at the end of the snapshot. */
  lemma ChunkCarriesOn(s: Edge)
    requires s.phase.Sending? && s.phase.next < s.phase.hi
    ensures var from, r := s.phase.next, Step(s, Chunk);
            && r.phase.Sending? && r.sent == s.sent + [Payload(Span(from, r.phase.next))]
            && 0 < r.phase.next - from <= 65536 && r.phase.next <= r.phase.hi == s.phase.hi
            && (r.phase.next < r.phase.hi ==> r.phase.next - from == 65536)
  {
  }

  function Run(ls: seq<Label>): Edge {
    if ls == [] then START else Step(Run(ls[..|ls| - 1]), ls[|ls| - 1])
  }

  // ----- the screen --------------------------------------------------------------------------

  /** The offsets from `a` up to, not including, `b`. */
  function Range(a: nat, b: nat): (r: seq<nat>)
    ensures |r| == if a <= b then b - a else 0
    ensures forall i :: 0 <= i < |r| ==> r[i] == a + i
  {
    if b <= a then [] else Range(a, b - 1) + [b - 1]
  }

  /** The offsets of the bytes on the viewer's screen. */
  function Shown(items: seq<Item>): seq<nat> {
    if items == [] then []
    else
      match items[|items| - 1]
      case Reset => []
      case Payload(span) => Shown(items[..|items| - 1]) + Range(span.from, span.to)
  }

  lemma ShownSnoc(items: seq<Item>, item: Item)
    ensures Shown(items + [item]) == if item.Reset? then [] else Shown(items) + Range(item.span.from, item.span.to)
  {
    assert (items + [item])[..|items + [item]| - 1] == items;
  }

  lemma RangeJoins(a: nat, b: nat, c: nat)
    requires a <= b <= c
    ensures Range(a, b) + Range(b, c) == Range(a, c)
  {
  }

  /** The snapshot has been sent and every read so far has been broadcast. */
  predicate Settled(s: Edge) {
    s.phase.Sending? && s.phase.next == s.phase.hi && s.pending.None?
  }

  /**
   A broadcast that disturbs an attach: of a later read before `snapshot_begin`, which is wiped; of
   an earlier read after it, which is shown twice; of any read between `snapshot_begin` and the
   last chunk, which is shown too early.
   */
  predicate Disturbs(s: Edge, l: Label) {
    l.Broadcast? && s.pending.Some? &&
    match s.phase
    case Before => false
    case Taken(_, hi) => s.pending.value.from >= hi
    case Sending(_, hi, next) => s.pending.value.from < hi || next < hi
  }

  predicate Undisturbed(ls: seq<Label>) {
    ls != [] ==> Undisturbed(ls[..|ls| - 1]) && !Disturbs(Run(ls[..|ls| - 1]), ls[|ls| - 1])
  }

  // ----- what every run keeps --------------------------------------------------------------------

  /** Everything before this offset has been broadcast, or never will be. */
  function Frontier(s: Edge): nat {
    if s.pending.Some? then s.pending.value.from else s.total
  }

  predicate Placed(s: Edge, lo: nat, hi: nat) {
    && lo == BufferStart(hi) && hi <= s.total
    && (s.pending.Some? ==> s.pending.value.to <= hi || s.pending.value.from >= hi)
  }

  ghost predicate WellFormed(s: Edge) {
    && (s.pending.Some? ==> s.pending.value.from < s.pending.value.to == s.total)
    && (s.pending.Some? ==> s.pending.value.to - s.pending.value.from <= MAX_PAYLOAD)
    && (s.phase.Taken? ==> Placed(s, s.phase.lo, s.phase.hi))
    && (s.phase.Sending? ==>
          && Placed(s, s.phase.lo, s.phase.hi)
          && s.phase.lo <= s.phase.next <= s.phase.hi
          && forall x :: s.phase.lo <= x < s.phase.next ==> x in Shown(s.sent))
  }

  lemma StepWellFormed(s: Edge, l: Label)
    requires WellFormed(s)
    ensures WellFormed(Step(s, l))
  {
    match l
    case Read(_, _) =>
    case Broadcast => if s.pending.Some? { ShownSnoc(s.sent, Payload(s.pending.value)); }
    case Attach =>
    case Begin => ShownSnoc(s.sent, Reset);
    case Chunk =>
      if s.phase.Sending? && s.phase.next < s.phase.hi {
        var end := ChunkEnd(s.phase.next, s.phase.hi);
        ShownSnoc(s.sent, Payload(Span(s.phase.next, end)));
        forall x | s.phase.next <= x < end ensures x in Range(s.phase.next, end) {
          assert Range(s.phase.next, end)[x - s.phase.next] == x;
        }
      }
  }

  // ----- undisturbed ----------------------------------------------------------------------------------

  /** So far the screen is the beginning of what it should become. */
  ghost predicate OnTrack(s: Edge) {
    match s.phase
    case Before => true
    case Taken(_, hi) => Frontier(s) <= hi
    case Sending(lo, hi, next) =>
      && (next < hi ==> Frontier(s) <= hi)
      && Shown(s.sent) == Range(lo, if next < hi || Frontier(s) <= hi then next else Frontier(s))
  }

  lemma OnTrackBroadcast(s: Edge)
    requires WellFormed(s) && OnTrack(s) && !Disturbs(s, Broadcast) && s.pending.Some? && s.phase.Sending?
    ensures OnTrack(Step(s, Broadcast))
  {
    ShownSnoc(s.sent, Payload(s.pending.value));
    RangeJoins(s.phase.lo, Frontier(s), s.pending.value.to);
  }

  lemma OnTrackChunk(s: Edge)
    requires WellFormed(s) && OnTrack(s) && s.phase.Sending? && s.phase.next < s.phase.hi
    ensures OnTrack(Step(s, Chunk))
  {
    var end := ChunkEnd(s.phase.next, s.phase.hi);
    ShownSnoc(s.sent, Payload(Span(s.phase.next, end)));
    RangeJoins(s.phase.lo, s.phase.next, end);
  }

  lemma OnTrackStep(s: Edge, l: Label)
    requires WellFormed(s) && OnTrack(s) && !Disturbs(s, l)
    ensures OnTrack(Step(s, l))
  {
    match l
    case Read(_, _) =>
    case Broadcast => if s.pending.Some? && s.phase.Sending? { OnTrackBroadcast(s); }
    case Attach =>
    case Begin => ShownSnoc(s.sent, Reset);
    case Chunk => if s.phase.Sending? && s.phase.next < s.phase.hi { OnTrackChunk(s); }
  }

  // ----- disturbed -------------------------------------------------------------------------------------

  ghost predicate Repeated(shown: seq<nat>, x: nat) {
    exists i, j :: 0 <= i < j < |shown| && shown[i] == x && shown[j] == x
  }

  lemma RepeatedStays(shown: seq<nat>, more: seq<nat>, x: nat)
    requires Repeated(shown, x)
    ensures Repeated(shown + more, x)
  {
    var i, j :| 0 <= i < j < |shown| && shown[i] == x && shown[j] == x;
    assert (shown + more)[i] == x && (shown + more)[j] == x;
  }

  lemma ShownAgain(shown: seq<nat>, more: seq<nat>, x: nat)
    requires x in shown && x in more
    ensures Repeated(shown + more, x)
  {
    var i :| 0 <= i < |shown| && shown[i] == x;
    var j :| 0 <= j < |more| && more[j] == x;
    assert (shown + more)[i] == x && (shown + more)[|shown| + j] == x;
  }

  /** A byte after the snapshot was broadcast and is not on the screen. */
  ghost predicate Gap(s: Edge) {
    s.phase.Sending? && exists x :: s.phase.hi <= x < Frontier(s) && x !in Shown(s.sent)
  }

  /** The snapshot's last byte is on the screen twice, or once and still to come. */
  ghost predicate Twice(s: Edge) {
    && s.phase.Sending? && s.phase.hi > 0
    && var shown, last := Shown(s.sent), s.phase.hi - 1;
       || (s.phase.next < s.phase.hi && last in shown)
       || Repeated(shown, last)
  }

  /** A byte after the snapshot is on the screen before a byte of the snapshot. */
  ghost predicate Swapped(s: Edge) {
    && s.phase.Sending?
    && var shown, hi := Shown(s.sent), s.phase.hi;
       exists i :: 0 <= i < |shown| && shown[i] >= hi && (s.phase.next < hi || exists j :: i < j < |shown| && shown[j] < hi)
  }

  ghost predicate Spoiled(s: Edge) {
    (s.phase.Taken? && Frontier(s) > s.phase.hi) || Gap(s) || Twice(s) || Swapped(s)
  }

  lemma RangeHas(a: nat, b: nat, x: nat)
    requires a <= x < b
    ensures x in Range(a, b)
  {
    assert Range(a, b)[x - a] == x;
  }

  lemma LateBroadcastRepeats(s: Edge)
    requires WellFormed(s) && s.phase.Sending? && s.pending.Some? && s.pending.value.from < s.phase.hi
    ensures Twice(Step(s, Broadcast))
  {
    var span, last := s.pending.value, s.phase.hi - 1;
    ShownSnoc(s.sent, Payload(span));
    RangeHas(span.from, span.to, last);
    if s.phase.next == s.phase.hi {
      assert s.phase.lo <= last;
      ShownAgain(Shown(s.sent), Range(span.from, span.to), last);
    }
  }

  lemma EarlyBroadcastSwaps(s: Edge)
    requires WellFormed(s) && s.phase.Sending? && s.pending.Some?
    requires s.pending.value.from >= s.phase.hi && s.phase.next < s.phase.hi
    ensures Swapped(Step(s, Broadcast))
  {
    var span := s.pending.value;
    ShownSnoc(s.sent, Payload(span));
    assert Shown(Step(s, Broadcast).sent)[|Shown(s.sent)|] == span.from;
  }

  lemma DisturbanceSpoils(s: Edge)
    requires WellFormed(s) && Disturbs(s, Broadcast)
    ensures Spoiled(Step(s, Broadcast))
  {
    if s.phase.Sending? {
      if s.pending.value.from < s.phase.hi {
        LateBroadcastRepeats(s);
      } else {
        EarlyBroadcastSwaps(s);
      }
    }
  }

  /** What a step adds to the screen of a viewer whose snapshot is being sent. */
  function Added(s: Edge, l: Label): seq<nat>
    requires s.phase.Sending?
  {
    if l.Broadcast? && s.pending.Some? then Range(s.pending.value.from, s.pending.value.to)
    else if l.Chunk? && s.phase.next < s.phase.hi then Range(s.phase.next, ChunkEnd(s.phase.next, s.phase.hi))
    else []
  }

  lemma ShownGrows(s: Edge, l: Label)
    requires s.phase.Sending?
    ensures Shown(Step(s, l).sent) == Shown(s.sent) + Added(s, l)
  {
    if l.Broadcast? && s.pending.Some? {
      ShownSnoc(s.sent, Payload(s.pending.value));
    } else if l.Chunk? && s.phase.next < s.phase.hi {
      ShownSnoc(s.sent, Payload(Span(s.phase.next, ChunkEnd(s.phase.next, s.phase.hi))));
    } else {
      assert Step(s, l).sent == s.sent;
      assert Shown(s.sent) + [] == Shown(s.sent);
    }
  }

  /** The sending handler stays where it is, or sends the next chunk. */
  lemma SendingMoves(s: Edge, l: Label)
    requires WellFormed(s) && s.phase.Sending?
    ensures var r := Step(s, l);
            && r.phase.Sending? && r.phase.hi == s.phase.hi
            && (r.phase.next == s.phase.next || (s.phase.next < r.phase.next && Added(s, l) == Range(s.phase.next, r.phase.next)))
  {
  }

  /** What was broadcast once is not broadcast again, and is no part of a chunk. */
  lemma AddedElsewhere(s: Edge, l: Label, x: nat)
    requires WellFormed(s) && s.phase.Sending? && s.phase.hi <= x < Frontier(s)
    ensures x !in Added(s, l)
  {
  }

  lemma GapStays(s: Edge, l: Label)
    requires WellFormed(s) && Gap(s)
    ensures Gap(Step(s, l))
  {
    var x :| s.phase.hi <= x < Frontier(s) && x !in Shown(s.sent);
    ShownGrows(s, l);
    SendingMoves(s, l);
    AddedElsewhere(s, l, x);
    assert Frontier(s) <= Frontier(Step(s, l));
    assert x !in Shown(Step(s, l).sent);
  }

  lemma TwiceStays(s: Edge, l: Label)
    requires WellFormed(s) && Twice(s)
    ensures Twice(Step(s, l))
  {
    ShownGrows(s, l);
    SendingMoves(s, l);
    var before, last := Shown(s.sent), s.phase.hi - 1;
    if Repeated(before, last) {
      RepeatedStays(before, Added(s, l), last);
    } else if Step(s, l).phase.next == s.phase.hi {
      RangeHas(s.phase.next, s.phase.hi, last);
      ShownAgain(before, Added(s, l), last);
    } else {
      assert last in before + Added(s, l);
    }
  }

  lemma SwappedStays(s: Edge, l: Label)
    requires WellFormed(s) && Swapped(s)
    ensures Swapped(Step(s, l))
  {
    ShownGrows(s, l);
    SendingMoves(s, l);
    var r, before, hi := Step(s, l), Shown(s.sent), s.phase.hi;
    var shown := Shown(r.sent);
    var i :| 0 <= i < |before| && before[i] >= hi && (s.phase.next < hi || exists j :: i < j < |before| && before[j] < hi);
    assert shown[i] >= hi;
    if s.phase.next < hi {
      if r.phase.next == hi {
        assert shown[|before|] == s.phase.next;
      }
    } else {
      var j :| i < j < |before| && before[j] < hi;
      assert shown[j] < hi;
    }
  }

  lemma SpoiledStays(s: Edge, l: Label)
    requires WellFormed(s) && Spoiled(s)
    ensures Spoiled(Step(s, l))
  {
    if s.phase.Taken? {
      if l.Begin? {
        ShownSnoc(s.sent, Reset);
        assert s.phase.hi !in Shown(Step(s, l).sent);
      }
    } else if Gap(s) {
      GapStays(s, l);
    } else if Twice(s) {
      TwiceStays(s, l);
    } else {
      SwappedStays(s, l);
    }
  }

  // ----- the theorem --------------------------------------------------------------------------------------

  lemma {:induction false} RunIsOnTrackOrSpoiled(ls: seq<Label>)
    ensures WellFormed(Run(ls))
    ensures Undisturbed(ls) ==> OnTrack(Run(ls))
    ensures !Undisturbed(ls) ==> Spoiled(Run(ls))
  {
    if ls != [] {
      var s, l := Run(ls[..|ls| - 1]), ls[|ls| - 1];
      RunIsOnTrackOrSpoiled(ls[..|ls| - 1]);
      StepWellFormed(s, l);
      if !Undisturbed(ls[..|ls| - 1]) {
        SpoiledStays(s, l);
      } else if Disturbs(s, l) {
        DisturbanceSpoils(s);
      } else {
        OnTrackStep(s, l);
      }
    }
  }

  lemma SpoiledIsWrong(s: Edge)
    requires WellFormed(s) && Settled(s) && Spoiled(s)
    ensures Shown(s.sent) != Range(s.phase.lo, s.total)
  {
    if Gap(s) {
      var x :| s.phase.hi <= x < Frontier(s) && x !in Shown(s.sent);
      RangeHas(s.phase.lo, s.total, x);
    }
  }

  /**
   Over every interleaving of reads, broadcasts and one attach: once everything has been sent, the
   viewer shows the output from the snapshot's start on, each byte once and in order, exactly
   when no broadcast disturbed the attach.
   */
  lemma ViewerShowsSuffixIff(ls: seq<Label>)
    requires Settled(Run(ls))
    ensures Shown(Run(ls).sent) == Range(Run(ls).phase.lo, Run(ls).total) <==> Undisturbed(ls)
  {
    RunIsOnTrackOrSpoiled(ls);
    if !Undisturbed(ls) {
      SpoiledIsWrong(Run(ls));
    }
  }

  /** The bytes at the given offsets. */
  function TextAt(output: seq<Byte>, offsets: seq<nat>): seq<Byte>
    requires forall i :: 0 <= i < |offsets| ==> offsets[i] < |output|
  {
    seq(|offsets|, i requires 0 <= i < |offsets| => output[offsets[i]])
  }

  /** In bytes: the undisturbed viewer's text is the end of the output, starting with the replay buffer of the attach. */
  lemma UndisturbedTextIsSuffix(ls: seq<Label>, output: seq<Byte>, hi: nat)
    requires Settled(Run(ls)) && Undisturbed(ls) && |output| == Run(ls).total && hi == Run(ls).phase.hi
    ensures hi <= |output| && Run(ls).phase.lo == BufferStart(hi)
    ensures forall i :: 0 <= i < |Shown(Run(ls).sent)| ==> Shown(Run(ls).sent)[i] < |output|
    ensures TextAt(output, Shown(Run(ls).sent)) == Remembered(output[..hi]).bytes + output[hi..]
  {
    RunIsOnTrackOrSpoiled(ls);
    SuffixText(output, hi);
  }

  lemma SuffixText(output: seq<Byte>, hi: nat)
    requires hi <= |output|
    ensures TextAt(output, Range(BufferStart(hi), |output|)) == Remembered(output[..hi]).bytes + output[hi..]
  {
    var lo := BufferStart(hi);
    RangeText(output, lo);
    BufferText(output, hi);
    SuffixSplits(output, lo, hi);
  }

  lemma SuffixSplits(output: seq<Byte>, lo: nat, hi: nat)
    requires lo <= hi <= |output|
    ensures output[lo..] == output[lo..hi] + output[hi..]
  {
  }

  lemma RangeText(output: seq<Byte>, lo: nat)
    requires lo <= |output|
    ensures TextAt(output, Range(lo, |output|)) == output[lo..]
  {
  }

  lemma BufferText(output: seq<Byte>, hi: nat)
    requires hi <= |output|
    ensures Remembered(output[..hi]).bytes == output[BufferStart(hi)..hi]
  {
    assert output[..hi][BufferStart(hi)..] == output[BufferStart(hi)..hi];
  }

  // ----- the three ways to go wrong ------------------------------------------------------------------------

  lemma RunSnoc(ls: seq<Label>, l: Label)
    ensures Run(ls + [l]) == Step(Run(ls), l)
  {
    assert (ls + [l])[..|ls + [l]| - 1] == ls;
  }

  /** A read broadcast between the attach and `snapshot_begin` is wiped and is not in the snapshot. */
  lemma EarlyBroadcastIsLost() returns (ls: seq<Label>)
    ensures Settled(Run(ls)) && Run(ls).total == 1 && Shown(Run(ls).sent) == []
  {
    ls := [];
    RunSnoc(ls, Attach);
    ls := ls + [Attach];
    RunSnoc(ls, Read(1, false));
    ls := ls + [Read(1, false)];
    RunSnoc(ls, Broadcast);
    ls := ls + [Broadcast];
    RunSnoc(ls, Begin);
    ShownSnoc(Run(ls).sent, Reset);
    ls := ls + [Begin];
  }

  lemma ReadThenAttach(watched: bool) returns (ls: seq<Label>)
    ensures Run(ls) == Edge(1, if watched then Some(Span(0, 1)) else None, Sending(0, 1, 0), [Reset])
  {
    ls := [];
    RunSnoc(ls, Read(1, watched));
    ls := ls + [Read(1, watched)];
    RunSnoc(ls, Attach);
    ls := ls + [Attach];
    RunSnoc(ls, Begin);
    ls := ls + [Begin];
  }

  /** Two payloads after the reset. */
  lemma ShownTwo(a: Span, b: Span)
    ensures Shown([Reset] + [Payload(a)] + [Payload(b)]) == Range(a.from, a.to) + Range(b.from, b.to)
  {
    assert [Reset][..0] == [];
    assert Shown([Reset]) == [];
    ShownSnoc([Reset], Payload(a));
    ShownSnoc([Reset] + [Payload(a)], Payload(b));
    assert [] + Range(a.from, a.to) == Range(a.from, a.to);
  }

  /** A read absorbed before the attach and broadcast after `snapshot_begin` is shown twice. */
  lemma LateBroadcastIsRepeated() returns (ls: seq<Label>)
    ensures Settled(Run(ls)) && Run(ls).total == 1 && Shown(Run(ls).sent) == [0, 0]
  {
    ls := ReadThenAttach(true);
    RunSnoc(ls, Chunk);
    ls := ls + [Chunk];
    RunSnoc(ls, Broadcast);
    ls := ls + [Broadcast];
    ShownTwo(Span(0, 1), Span(0, 1));
  }

  const OVERTAKING: Edge := Edge(2, None, Sending(0, 1, 0), [Reset] + [Payload(Span(1, 2))])

  lemma Overtaking() returns (ls: seq<Label>)
    ensures Run(ls) == OVERTAKING
  {
    ls := ReadThenAttach(false);
    RunSnoc(ls, Read(1, false));
    ls := ls + [Read(1, false)];
    RunSnoc(ls, Broadcast);
    ls := ls + [Broadcast];
  }

  /** A read broadcast between `snapshot_begin` and a chunk is shown before the older bytes of the chunk. */
  lemma BroadcastOvertakesChunk() returns (ls: seq<Label>)
    ensures Settled(Run(ls)) && Run(ls).total == 2 && Shown(Run(ls).sent) == [1, 0]
  {
    ls := Overtaking();
    RunSnoc(ls, Chunk);
    ls := ls + [Chunk];
    ShownTwo(Span(1, 2), Span(0, 1));
  }
}
