/**
 The log buffer of one container: a ring of the last `maxLines` lines, flushed to durable
 storage from time to time by sequence number, and repaired at the end by a second fetch of
 the whole log.
 */
module LogCollector {

  datatype Stream = Stdout | Stderr

  /** What the repair compares two lines by. */
  datatype Key = Key(stream: Stream, text: string)

  datatype Line = Line(sequence: nat, key: Key)

  datatype State = State(buffer: seq<Line>, sequence: nat, flushOffset: nat, maxLines: nat)

  function Initial(maxLines: nat): State {
    State([], 0, 0, maxLines)
  }

  /** `pop_front` of a full buffer; there may be nothing to pop. */
  function Evict(s: State): seq<Line> {
    if |s.buffer| >= s.maxLines && s.buffer != [] then s.buffer[1..] else s.buffer
  }

  function Pushed(s: State, line: Line): State {
    s.(buffer := Evict(s) + [line])
  }

  function From(lines: seq<Line>, offset: nat): seq<Line> {
    if lines == [] then []
    else if lines[0].sequence >= offset then [lines[0]] + From(lines[1..], offset)
    else From(lines[1..], offset)
  }

  /** The lines `peek_unflushed` and `drain` return. */
  function Unflushed(s: State): seq<Line> {
    From(s.buffer, s.flushOffset)
  }

  function Flushed(s: State): State {
    var lines := Unflushed(s);
    if lines == [] then s else s.(flushOffset := lines[|lines| - 1].sequence + 1)
  }

  lemma {:induction false} FromAppend(a: seq<Line>, b: seq<Line>, offset: nat)
    ensures From(a + b, offset) == From(a, offset) + From(b, offset)
    decreases |a|
  {
    if a == [] {
      assert a + b == b;
    } else {
      assert (a + b)[1..] == a[1..] + b;
      FromAppend(a[1..], b, offset);
    }
  }

  predicate Increasing(lines: seq<Line>) {
    forall i, j :: 0 <= i < j < |lines| ==> lines[i].sequence < lines[j].sequence
  }

  lemma {:induction false} FromAll(lines: seq<Line>, offset: nat)
    requires forall i :: 0 <= i < |lines| ==> lines[i].sequence >= offset
    ensures From(lines, offset) == lines
    decreases |lines|
  {
    if lines != [] {
      FromAll(lines[1..], offset);
    }
  }

  lemma {:induction false} FromNone(lines: seq<Line>, offset: nat)
    requires forall i :: 0 <= i < |lines| ==> lines[i].sequence < offset
    ensures From(lines, offset) == []
    decreases |lines|
  {
    if lines != [] {
      FromNone(lines[1..], offset);
    }
  }

  lemma {:induction false} FromShorter(lines: seq<Line>, offset: nat)
    ensures |From(lines, offset)| <= |lines|
    ensures |From(lines, offset)| == |lines| && lines != [] ==> lines[0].sequence >= offset
    ensures From(lines, offset) != [] ==> From(lines, offset)[|From(lines, offset)| - 1] in lines
    decreases |lines|
  {
    if lines != [] {
      FromShorter(lines[1..], offset);
    }
  }

  // ---------------------------------------------------------------------------
  // Every line once, in order
  // ---------------------------------------------------------------------------

  datatype Event = Push(line: Line) | Flush

  /** The state after `events`, and what the flushes returned so far. */
  datatype Play = Play(state: State, flushed: seq<Line>, lost: nat)

  /** A push drops a line that no flush has returned yet. */
  predicate Drops(s: State) {
    |s.buffer| >= s.maxLines && s.buffer != [] && s.buffer[0].sequence >= s.flushOffset
  }

  function PushedPlay(p: Play, line: Line): Play {
    Play(Pushed(p.state, line), p.flushed, p.lost + if Drops(p.state) then 1 else 0)
  }

  function FlushedPlay(p: Play): Play {
    Play(Flushed(p.state), p.flushed + Unflushed(p.state), p.lost)
  }

  function Played(s: State, events: seq<Event>): Play {
    if events == [] then Play(s, [], 0)
    else
      var p := Played(s, events[..|events| - 1]);
      match events[|events| - 1]
      case Push(line) => PushedPlay(p, line)
      case Flush => FlushedPlay(p)
  }

  function Lines(events: seq<Event>): seq<Line> {
    if events == [] then []
    else
      var most := Lines(events[..|events| - 1]);
      match events[|events| - 1]
      case Push(line) => most + [line]
      case Flush => most
  }

  /** What is handed out for storing: by all flushes, then by the final drain. */
  function Returned(maxLines: nat, events: seq<Event>): seq<Line> {
    var p := Played(Initial(maxLines), events);
    p.flushed + Unflushed(p.state)
  }

  /** The buffer holds increasing lines, no flushed line is ahead of what was pushed. */
  ghost predicate Ordered(s: State, pushed: seq<Line>) {
    && Increasing(s.buffer)
    && (s.buffer != [] ==> pushed != [] && s.buffer[|s.buffer| - 1] == pushed[|pushed| - 1])
    && (pushed == [] ==> s.flushOffset == 0)
    && (pushed != [] ==> s.flushOffset <= pushed[|pushed| - 1].sequence + 1)
    && (|s.buffer| <= s.maxLines || |s.buffer| <= 1)
  }

  lemma PushUnflushed(s: State, pushed: seq<Line>, line: Line)
    requires Ordered(s, pushed)
    requires pushed != [] ==> pushed[|pushed| - 1].sequence < line.sequence
    ensures Ordered(Pushed(s, line), pushed + [line])
    ensures Drops(s) ==> |Unflushed(Pushed(s, line))| == |Unflushed(s)|
    ensures !Drops(s) ==> Unflushed(Pushed(s, line)) == Unflushed(s) + [line]
  {
    FromAppend(Evict(s), [line], s.flushOffset);
    assert From([line], s.flushOffset) == [line];
  }

  lemma FlushUnflushed(s: State, pushed: seq<Line>)
    requires Ordered(s, pushed)
    ensures Ordered(Flushed(s), pushed)
    ensures Unflushed(Flushed(s)) == []
  {
    var lines := Unflushed(s);
    FromShorter(s.buffer, s.flushOffset);
    if lines != [] {
      var n := |s.buffer| - 1;
      assert s.buffer == s.buffer[..n] + [s.buffer[n]];
      FromAppend(s.buffer[..n], [s.buffer[n]], s.flushOffset);
      LastIsUnflushed(s.buffer, s.flushOffset);
      FromNone(s.buffer, Flushed(s).flushOffset);
    }
  }

  lemma {:induction false} LastIsUnflushed(lines: seq<Line>, offset: nat)
    requires Increasing(lines) && From(lines, offset) != []
    ensures lines != [] && From(lines, offset)[|From(lines, offset)| - 1] == lines[|lines| - 1]
    decreases |lines|
  {
    if lines[0].sequence >= offset {
      FromAll(lines, offset);
    } else {
      LastIsUnflushed(lines[1..], offset);
    }
  }

  /** The books: every pushed line was returned, is still unflushed, or was lost. */
  ghost predicate Tally(p: Play, pushed: seq<Line>, maxLines: nat) {
    && Ordered(p.state, pushed) && p.state.maxLines == maxLines
    && |p.flushed| + |Unflushed(p.state)| + p.lost == |pushed|
    && (p.lost == 0 ==> p.flushed + Unflushed(p.state) == pushed)
  }

  lemma PushTallies(p: Play, pushed: seq<Line>, maxLines: nat, line: Line)
    requires Tally(p, pushed, maxLines)
    requires pushed != [] ==> pushed[|pushed| - 1].sequence < line.sequence
    ensures Tally(PushedPlay(p, line), pushed + [line], maxLines)
  {
    PushUnflushed(p.state, pushed, line);
    if p.lost == 0 && !Drops(p.state) {
      assert p.flushed + (Unflushed(p.state) + [line]) == pushed + [line];
    }
  }

  lemma FlushTallies(p: Play, pushed: seq<Line>, maxLines: nat)
    requires Tally(p, pushed, maxLines)
    ensures Tally(FlushedPlay(p), pushed, maxLines)
  {
    FlushUnflushed(p.state, pushed);
    assert p.flushed + Unflushed(p.state) + [] == p.flushed + Unflushed(p.state);
  }

  lemma IncreasingFront(lines: seq<Line>, line: Line)
    requires Increasing(lines + [line])
    ensures Increasing(lines) && (lines != [] ==> lines[|lines| - 1].sequence < line.sequence)
  {
    var all := lines + [line];
    assert forall i :: 0 <= i < |lines| ==> all[i] == lines[i];
    assert all[|lines|] == line;
  }

  lemma {:induction false} PlayTallies(maxLines: nat, events: seq<Event>)
    requires Increasing(Lines(events))
    ensures Tally(Played(Initial(maxLines), events), Lines(events), maxLines)
    decreases |events|
  {
    if events != [] {
      var most := events[..|events| - 1];
      var p, pushed := Played(Initial(maxLines), most), Lines(most);
      match events[|events| - 1]
      case Push(line) =>
        IncreasingFront(pushed, line);
        PlayTallies(maxLines, most);
        PushTallies(p, pushed, maxLines, line);
      case Flush =>
        PlayTallies(maxLines, most);
        FlushTallies(p, pushed, maxLines);
    }
  }

  /**
   For lines pushed with increasing sequence numbers, and for every interleaving of pushes
   and flushes: what is returned is exactly the pushed lines, in order and each once, if
   and only if no push ever drops a line that was not flushed.
   */
  lemma ReturnedExactlyIffNothingDropped(maxLines: nat, events: seq<Event>)
    requires Increasing(Lines(events))
    ensures Returned(maxLines, events) == Lines(events) <==> Played(Initial(maxLines), events).lost == 0
  {
    PlayTallies(maxLines, events);
  }

  /** How many lines the ring holds: a limit of zero still keeps the last line. */
  function Capacity(maxLines: nat): nat {
    if maxLines == 0 then 1 else maxLines
  }

  /** A push drops an unflushed line exactly when the ring is full of them. */
  lemma DropsIffFullOfUnflushed(s: State, pushed: seq<Line>)
    requires Ordered(s, pushed)
    ensures Drops(s) <==> |Unflushed(s)| >= Capacity(s.maxLines)
  {
    FromShorter(s.buffer, s.flushOffset);
    if Drops(s) {
      FromAll(s.buffer, s.flushOffset);
    }
  }

  /** Before the i-th event, if it is a push, there is room for one more unflushed line. */
  predicate HasRoom(maxLines: nat, events: seq<Event>, i: nat)
    requires i < |events|
  {
    events[i].Push? ==> |Unflushed(Played(Initial(maxLines), events[..i]).state)| < Capacity(maxLines)
  }

  /** Never more unflushed lines than the ring holds. */
  ghost predicate NeverOverfull(maxLines: nat, events: seq<Event>) {
    forall i :: 0 <= i < |events| ==> HasRoom(maxLines, events, i)
  }

  lemma RoomStays(maxLines: nat, events: seq<Event>, n: nat, i: nat)
    requires i < n <= |events|
    ensures HasRoom(maxLines, events[..n], i) <==> HasRoom(maxLines, events, i)
  {
    assert events[..n][..i] == events[..i];
  }

  lemma OverfullNext(maxLines: nat, events: seq<Event>)
    requires events != []
    ensures var n := |events| - 1;
            NeverOverfull(maxLines, events) <==> NeverOverfull(maxLines, events[..n]) && HasRoom(maxLines, events, n)
  {
    var n := |events| - 1;
    forall i | 0 <= i < n
      ensures HasRoom(maxLines, events[..n], i) <==> HasRoom(maxLines, events, i)
    {
      RoomStays(maxLines, events, n, i);
    }
  }

  lemma RoomIffNoDrop(maxLines: nat, most: seq<Event>)
    requires Increasing(Lines(most))
    ensures var p := Played(Initial(maxLines), most); |Unflushed(p.state)| < Capacity(maxLines) <==> !Drops(p.state)
  {
    PlayTallies(maxLines, most);
    DropsIffFullOfUnflushed(Played(Initial(maxLines), most).state, Lines(most));
  }

  lemma {:induction false} NothingDroppedIff(maxLines: nat, events: seq<Event>)
    requires Increasing(Lines(events))
    ensures Played(Initial(maxLines), events).lost == 0 <==> NeverOverfull(maxLines, events)
    decreases |events|
  {
    if events != [] {
      var most, last := events[..|events| - 1], events[|events| - 1];
      OverfullNext(maxLines, events);
      if last.Push? {
        IncreasingFront(Lines(most), last.line);
        RoomIffNoDrop(maxLines, most);
      }
      NothingDroppedIff(maxLines, most);
    }
  }

  /**
   So every line is returned once and in order if and only if there are never more unflushed
   lines than the ring holds.
   */
  lemma EveryLineReturnedOnceIff(maxLines: nat, events: seq<Event>)
    requires Increasing(Lines(events))
    ensures Returned(maxLines, events) == Lines(events) <==> NeverOverfull(maxLines, events)
  {
    NothingDroppedIff(maxLines, events);
    ReturnedExactlyIffNothingDropped(maxLines, events);
  }

  lemma {:induction false} FromIsAbove(lines: seq<Line>, offset: nat)
    ensures forall l :: l in From(lines, offset) ==> l.sequence >= offset
  {
    if lines != [] {
      FromIsAbove(lines[1..], offset);
    }
  }

  /**
   Why the numbers must increase: whatever is pushed and flushed from a state on, only lines
   numbered from its flush offset on are ever returned. A line pushed with an older number
   never is.
   */
  lemma {:induction false} StaleNumberIsNeverReturned(s: State, events: seq<Event>)
    ensures var p := Played(s, events);
            && p.state.flushOffset >= s.flushOffset
            && forall l :: l in p.flushed + Unflushed(p.state) ==> l.sequence >= s.flushOffset
    decreases |events|
  {
    if events == [] {
      FromIsAbove(s.buffer, s.flushOffset);
    } else {
      var p := Played(s, events[..|events| - 1]);
      StaleNumberIsNeverReturned(s, events[..|events| - 1]);
      FromIsAbove(p.state.buffer, p.state.flushOffset);
      var t := Played(s, events).state;
      FromIsAbove(t.buffer, t.flushOffset);
    }
  }

  // ---------------------------------------------------------------------------
  // Repairing the log
  // ---------------------------------------------------------------------------

  /** The last `n` collected keys are the first `n` fetched ones. */
  predicate Overlaps(existing: seq<Key>, fetched: seq<Key>, n: nat) {
    n <= |existing| && n <= |fetched| && existing[|existing| - n..] == fetched[..n]
  }

  /** `overlap_len`: the longest suffix of the collected lines that is a prefix of the fetched ones. */
  method OverlapLen(existing: seq<Key>, fetched: seq<Key>) returns (n: nat)
    ensures Overlaps(existing, fetched, n)
    ensures forall m: nat :: Overlaps(existing, fetched, m) ==> m <= n
  {
    n := if |existing| <= |fetched| then |existing| else |fetched|;
    while n > 0
      invariant n <= |existing| && n <= |fetched|
      invariant forall m: nat :: Overlaps(existing, fetched, m) ==> m <= n
    {
      if existing[|existing| - n..] == fetched[..n] {
        return;
      }
      n := n - 1;
    }
  }

  /**
   Appending what lies beyond the overlap gives the full log, no gap and no duplicate,
   exactly when the collected lines were a prefix of it.
   */
  lemma RepairedIffPrefix(existing: seq<Key>, full: seq<Key>, n: nat)
    requires Overlaps(existing, full, n) && forall m: nat :: Overlaps(existing, full, m) ==> m <= n
    ensures existing + full[n..] == full <==> existing <= full
  {
    if existing <= full {
      assert existing[0..] == existing;
      assert Overlaps(existing, full, |existing|);
      assert n == |existing|;
    }
    if existing + full[n..] == full {
      assert |existing| + |full| - n == |full|;
      assert existing == (existing + full[n..])[..|existing|];
    }
  }

  function Keys(lines: seq<Line>): seq<Key> {
    if lines == [] then [] else [lines[0].key] + Keys(lines[1..])
  }

  lemma {:induction false} KeysAppend(a: seq<Line>, b: seq<Line>)
    ensures Keys(a + b) == Keys(a) + Keys(b)
    decreases |a|
  {
    if a == [] {
      assert a + b == b;
    } else {
      assert (a + b)[1..] == a[1..] + b;
      KeysAppend(a[1..], b);
    }
  }

  /** Lines numbered on from `first`. */
  function Numbered(keys: seq<Key>, first: nat): seq<Line> {
    if keys == [] then []
    else Numbered(keys[..|keys| - 1], first) + [Line(first + |keys| - 1, keys[|keys| - 1])]
  }

  lemma {:induction false} NumberedKeys(keys: seq<Key>, first: nat, start: nat)
    requires first >= start
    ensures Keys(Numbered(keys, first)) == keys && From(Numbered(keys, first), start) == Numbered(keys, first)
    decreases |keys|
  {
    if keys != [] {
      var n := |keys| - 1;
      NumberedKeys(keys[..n], first, start);
      var last := [Line(first + n, keys[n])];
      KeysAppend(Numbered(keys[..n], first), last);
      FromAppend(Numbered(keys[..n], first), last, start);
      assert keys == keys[..n] + [keys[n]];
    }
  }

  lemma {:induction false} NumberedInOrder(keys: seq<Key>, first: nat)
    ensures |Numbered(keys, first)| == |keys|
    ensures forall i :: 0 <= i < |keys| ==> Numbered(keys, first)[i].sequence == first + i
    decreases |keys|
  {
    if keys != [] {
      NumberedInOrder(keys[..|keys| - 1], first);
    }
  }

  /** What a repaired buffer holds from `start` on, in terms of keys, and the numbers of what was added. */
  lemma RepairedBuffer(buffer: seq<Line>, start: nat, fetched: seq<Key>, overlap: nat, first: nat)
    requires Overlaps(Keys(From(buffer, start)), fetched, overlap)
    requires forall m: nat :: Overlaps(Keys(From(buffer, start)), fetched, m) ==> m <= overlap
    requires first >= start
    ensures Keys(From(buffer + Numbered(fetched[overlap..], first), start)) == fetched
            <==> Keys(From(buffer, start)) <= fetched
    ensures var added := Numbered(fetched[overlap..], first);
            |added| == |fetched| - overlap && forall i :: 0 <= i < |added| ==> added[i].sequence == first + i
  {
    var added := Numbered(fetched[overlap..], first);
    NumberedKeys(fetched[overlap..], first, start);
    NumberedInOrder(fetched[overlap..], first);
    FromAppend(buffer, added, start);
    KeysAppend(From(buffer, start), added);
    RepairedIffPrefix(Keys(From(buffer, start)), fetched, overlap);
  }

  class Collector {
    var buffer: seq<Line>
    var sequence: nat
    var flushOffset: nat
    const maxLines: nat

    function View(): State
      reads this
    {
      State(buffer, sequence, flushOffset, maxLines)
    }

    constructor (maxLines: nat)
      ensures View() == Initial(maxLines)
    {
      buffer, sequence, flushOffset := [], 0, 0;
      this.maxLines := maxLines;
    }

    method PushLine(line: Line)
      modifies this`buffer
      ensures View() == Pushed(old(View()), line)
    {
      if |buffer| >= maxLines && buffer != [] {
        buffer := buffer[1..];
      }
      buffer := buffer + [line];
    }

    method Select(offset: nat) returns (lines: seq<Line>)
      ensures lines == From(buffer, offset)
    {
      lines := [];
      for i := 0 to |buffer|
        invariant lines == From(buffer[..i], offset)
      {
        assert buffer[..i + 1] == buffer[..i] + [buffer[i]];
        FromAppend(buffer[..i], [buffer[i]], offset);
        if buffer[i].sequence >= offset {
          lines := lines + [buffer[i]];
        }
      }
      assert buffer[..|buffer|] == buffer;
    }

    method PeekUnflushed() returns (lines: seq<Line>)
      modifies this`flushOffset
      ensures lines == Unflushed(old(View())) && View() == Flushed(old(View()))
    {
      lines := Select(flushOffset);
      if lines != [] {
        flushOffset := lines[|lines| - 1].sequence + 1;
      }
    }

    method Drain() returns (lines: seq<Line>)
      modifies this`buffer
      ensures lines == Unflushed(old(View())) && buffer == []
    {
      lines := Select(flushOffset);
      buffer := [];
    }

    /**
     The end of `fetch_remaining_logs`: append the fetched lines beyond the overlap with
     what was collected since `start`, numbered on. If the ring has room, the buffer then
     holds the whole log from `start` on, no gap and no duplicate, exactly when the collected
     lines were a prefix of the container's log.
     */
    method FetchRemaining(fetched: seq<Key>, start: nat) returns (appended: nat)
      modifies this`buffer, this`sequence
      ensures sequence == old(sequence) + appended && appended <= |fetched|
      ensures Overlaps(Keys(From(old(buffer), start)), fetched, |fetched| - appended)
      ensures forall m: nat :: Overlaps(Keys(From(old(buffer), start)), fetched, m) ==> m <= |fetched| - appended
      ensures |old(buffer)| + appended <= maxLines ==>
                buffer == old(buffer) + Numbered(fetched[|fetched| - appended..], old(sequence))
      ensures |old(buffer)| + appended <= maxLines && old(sequence) >= start ==>
                (Keys(From(buffer, start)) == fetched <==> Keys(From(old(buffer), start)) <= fetched)
    {
      var existing := Select(start);
      var overlap := OverlapLen(Keys(existing), fetched);
      if sequence >= start {
        RepairedBuffer(buffer, start, fetched, overlap, sequence);
      }
      appended := AppendAll(fetched[overlap..]);
    }

    method AppendAll(keys: seq<Key>) returns (appended: nat)
      modifies this`buffer, this`sequence
      ensures appended == |keys| && sequence == old(sequence) + appended
      ensures |old(buffer)| + |keys| <= maxLines ==> buffer == old(buffer) + Numbered(keys, old(sequence))
    {
      appended := 0;
      for i := 0 to |keys|
        invariant appended == i && sequence == old(sequence) + i
        invariant |old(buffer)| + |keys| <= maxLines ==>
                    |buffer| == |old(buffer)| + i && buffer == old(buffer) + Numbered(keys[..i], old(sequence))
      {
        assert keys[..i + 1][..i] == keys[..i];
        var line := Line(sequence, keys[i]);
        sequence := sequence + 1;
        PushLine(line);
        appended := appended + 1;
      }
      assert keys[..|keys|] == keys;
    }
  }
}
