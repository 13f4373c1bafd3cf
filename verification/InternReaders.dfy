/**
 * Lock-free readers of the intern table (wirelog/intern.c).
 *
 * A put is a sequence of writes: the segment pointer if the id opens a segment, the entry,
 * the slot, and last the count, stored with release. A reader loads the count with acquire,
 * then reads the segment pointer, then the entry, with no lock and with other writes going
 * on in between. It is sure to see only what was written before the count it loaded was
 * stored; anything later it may see or miss, and the count it loads may be an old one.
 */
module InternReaders {
  import opened Bytes
  import opened InternSegments

  /** Where the writer, who holds the lock, is within a put. */
  datatype Writer = Free | Began(text: Text) | HasSegment(text: Text) | HasEntry(text: Text) | HasSlot(text: Text)

  datatype Stamped<T> = Stamped(time: nat, value: T)

  /** When each segment pointer and each entry was written, and the counts stored so far. */
  datatype Memory = Memory(
    clock: nat,
    segments: map<nat, nat>,
    entries: map<nat, Stamped<Text>>,
    counts: seq<Stamped<nat>>,
    writer: Writer)

  const START := Memory(0, map[], map[], [Stamped(0, 0)], Free)

  datatype Event = Begin(text: Text) | Advance

  /** The count in force, which is also the id being written. */
  function Current(m: Memory): nat
    requires m.counts != []
  {
    m.counts[|m.counts| - 1].value
  }

  /** One write of the writer. */
  function Next(m: Memory, e: Event): Option<Memory>
    requires m.counts != []
  {
    var id, now := Current(m), m.clock + 1;
    match (e, m.writer)
    case (Begin(text), Free) => if id < MAX_STRINGS then Some(m.(writer := Began(text))) else None
    case (Advance, Began(text)) =>
      Some(m.(clock := now, writer := HasSegment(text),
              segments := if SegOf(id) in m.segments then m.segments else m.segments[SegOf(id) := now]))
    case (Advance, HasSegment(text)) =>
      Some(m.(clock := now, writer := HasEntry(text), entries := m.entries[id := Stamped(now, text)]))
    case (Advance, HasEntry(text)) => Some(m.(clock := now, writer := HasSlot(text)))
    case (Advance, HasSlot(text)) => Some(m.(clock := now, writer := Free, counts := m.counts + [Stamped(now, id + 1)]))
    case _ => None
  }

  /** The entries a stored count vouches for were all written before it. */
  predicate Vouches(m: Memory, c: Stamped<nat>) {
    forall id | 0 <= id < c.value ::
      && SegOf(id) in m.segments && m.segments[SegOf(id)] <= c.time
      && id in m.entries && m.entries[id].time <= c.time
  }

  predicate CountsOk(m: Memory) {
    forall j | 0 <= j < |m.counts| :: Vouches(m, m.counts[j]) && m.counts[j].time <= m.clock
  }

  predicate TimesOk(m: Memory) {
    && (forall seg | seg in m.segments :: m.segments[seg] <= m.clock)
    && (forall id | id in m.entries :: m.entries[id].time <= m.clock)
  }

  /** The entry being written, and no later one, may be there before its count is. */
  predicate WriterOk(m: Memory)
    requires m.counts != []
  {
    var w := m.writer;
    && (forall id | id in m.entries :: id < Current(m) || (id == Current(m) && (w.HasEntry? || w.HasSlot?)))
    && (w.HasSegment? || w.HasEntry? || w.HasSlot? ==> SegOf(Current(m)) in m.segments)
    && (w.HasEntry? || w.HasSlot? ==> Current(m) in m.entries && m.entries[Current(m)].value == w.text)
  }

  predicate Inv(m: Memory) { m.counts != [] && CountsOk(m) && TimesOk(m) && WriterOk(m) }

  /** b came after a: nothing written was moved or changed. */
  predicate Extends(a: Memory, b: Memory) {
    && (forall seg | seg in a.segments :: seg in b.segments && b.segments[seg] == a.segments[seg])
    && (forall id | id in a.entries :: id in b.entries && b.entries[id] == a.entries[id])
    && a.counts <= b.counts
  }

  lemma VouchesLater(a: Memory, b: Memory, c: Stamped<nat>)
    requires Vouches(a, c) && Extends(a, b)
    ensures Vouches(b, c)
  {
    hide SegOf;
  }

  lemma StepExtends(m: Memory, e: Event)
    requires Inv(m) && Next(m, e).Some?
    ensures Extends(m, Next(m, e).value)
  {
    hide SegOf, Vouches;
  }

  lemma CountsKept(m: Memory, e: Event, j: nat)
    requires Inv(m) && Next(m, e).Some? && j < |Next(m, e).value.counts|
    ensures var t := Next(m, e).value; Vouches(t, t.counts[j]) && t.counts[j].time <= t.clock
  {
    hide SegOf;
    var t := Next(m, e).value;
    StepExtends(m, e);
    if j < |m.counts| {
      assert t.counts[j] == m.counts[j];
      hide Inv, Vouches, Next;
      CountAt(m, e, j);
    } else {
      LastVouches(m, t);
    }
  }

  lemma CountAt(m: Memory, e: Event, j: nat)
    requires Inv(m) && Next(m, e).Some? && j < |m.counts|
    ensures var t := Next(m, e).value; Vouches(t, m.counts[j]) && m.counts[j].time <= t.clock
  {
    hide SegOf, Vouches;
    StepExtends(m, e);
    VouchesLater(m, Next(m, e).value, m.counts[j]);
  }

  lemma StepCounts(m: Memory, e: Event)
    requires Inv(m) && Next(m, e).Some?
    ensures CountsOk(Next(m, e).value)
  {
    hide TimesOk, WriterOk, Next, Vouches;
    var t := Next(m, e).value;
    forall j | 0 <= j < |t.counts|
      ensures Vouches(t, t.counts[j]) && t.counts[j].time <= t.clock
    {
      CountsKept(m, e, j);
    }
  }

  lemma StepTimes(m: Memory, e: Event)
    requires m.counts != [] && TimesOk(m) && Next(m, e).Some?
    ensures TimesOk(Next(m, e).value) && Next(m, e).value.counts != []
  {
    hide SegOf;
  }

  lemma StepWriter(m: Memory, e: Event)
    requires m.counts != [] && WriterOk(m) && Next(m, e).Some?
    ensures Next(m, e).value.counts != [] && WriterOk(Next(m, e).value)
  {
    hide SegOf;
  }

  /** Every write keeps it. */
  lemma StepKeeps(m: Memory, e: Event)
    requires Inv(m) && Next(m, e).Some?
    ensures Inv(Next(m, e).value)
  {
    hide Next, CountsOk, TimesOk, WriterOk;
    StepCounts(m, e);
    StepTimes(m, e);
    StepWriter(m, e);
  }

  /** The count stored at the end of a put vouches for the new entry too. */
  lemma LastVouches(m: Memory, t: Memory)
    requires Inv(m) && m.writer.HasSlot? && Next(m, Advance) == Some(t)
    ensures Vouches(t, t.counts[|t.counts| - 1])
  {
    hide SegOf;
    assert Vouches(m, m.counts[|m.counts| - 1]);
  }

  /** The memory after a run of events from m. */
  function Run(m: Memory, events: seq<Event>): (r: Option<Memory>)
    requires Inv(m)
    ensures r.Some? ==> Inv(r.value)
    decreases |events|
  {
    if events == [] then Some(m)
    else
      match Run(m, events[..|events| - 1])
      case None => None
      case Some(t) =>
        var e := events[|events| - 1];
        if Next(t, e).Some? then
          StepKeeps(t, e);
          Next(t, e)
        else None
  }

  lemma StartHolds()
    ensures Inv(START)
  {}

  lemma {:induction false} RunExtends(m: Memory, events: seq<Event>)
    requires Inv(m) && Run(m, events).Some?
    ensures Extends(m, Run(m, events).value)
    decreases |events|
  {
    hide Inv, Next, Vouches;
    if events != [] {
      var t := Run(m, events[..|events| - 1]).value;
      RunExtends(m, events[..|events| - 1]);
      StepExtends(t, events[|events| - 1]);
      ExtendsTrans(m, t, Run(m, events).value);
    }
  }

  lemma ExtendsTrans(a: Memory, b: Memory, c: Memory)
    requires Extends(a, b) && Extends(b, c)
    ensures Extends(a, c)
  {}

  // ---- readers -------------------------------------------------------------------------------------

  /** A reader that loaded a count stored at time t may miss a pointer written later, or not written. */
  predicate MayMissSegment(m: Memory, seg: nat, t: nat) { seg !in m.segments || m.segments[seg] > t }

  predicate MayMissEntry(m: Memory, id: nat, t: nat) { id !in m.entries || m.entries[id].time > t }

  lemma LoadedIsSafe(load: Memory, between: seq<Event>, after: seq<Event>, j: nat, id: nat)
    requires Inv(load) && Run(load, between).Some? && Run(Run(load, between).value, after).Some?
    requires j < |load.counts| && id < load.counts[j].value
    ensures var segment := Run(load, between).value;
            var entry := Run(segment, after).value;
            && !MayMissSegment(segment, SegOf(id), load.counts[j].time)
            && !MayMissEntry(entry, id, load.counts[j].time)
            && id in load.entries && entry.entries[id].value == load.entries[id].value
  {
    hide SegOf, Run;
    var segment := Run(load, between).value;
    assert Vouches(load, load.counts[j]);
    RunExtends(load, between);
    RunExtends(segment, after);
  }

  /**
   * A reader loads any stored count, reads the segment pointer any number of writes later and
   * the entry any number of writes after that. For an id below the count it loaded it
   * misses neither, and the entry is the string the id was given.
   */
  lemma ReadersAreSafe(puts: seq<Event>, between: seq<Event>, after: seq<Event>, j: nat, id: nat)
    requires Run(START, puts).Some? && Run(Run(START, puts).value, between).Some?
    requires Run(Run(Run(START, puts).value, between).value, after).Some?
    requires j < |Run(START, puts).value.counts| && id < Run(START, puts).value.counts[j].value
    ensures var load := Run(START, puts).value;
            var segment := Run(load, between).value;
            var entry := Run(segment, after).value;
            && !MayMissSegment(segment, SegOf(id), load.counts[j].time)
            && !MayMissEntry(entry, id, load.counts[j].time)
            && id in load.entries && entry.entries[id].value == load.entries[id].value
  {
    hide Inv, Run, MayMissSegment, MayMissEntry;
    StartHolds();
    LoadedIsSafe(Run(START, puts).value, between, after, j, id);
  }

  /** A put gives its id the text it was called with, and stores the next count. */
  lemma PutPublishes(m: Memory, text: Text)
    requires Inv(m) && m.writer.Free? && Current(m) < MAX_STRINGS
    ensures var t := Run(m, [Begin(text), Advance, Advance, Advance, Advance]);
            t.Some? && Current(t.value) == Current(m) + 1 && t.value.entries[Current(m)].value == text && t.value.writer.Free?
  {
    hide CountsOk, TimesOk, WriterOk, Run;
    var m1, m2, m3, m4, m5 := PutSteps(m, text);
    hide Next;
    var b, a := Begin(text), Advance;
    RunSnoc(m, [], b);
    assert [] + [b] == [b];
    RunSnoc(m, [b], a);
    assert [b] + [a] == [b, a];
    RunSnoc(m, [b, a], a);
    assert [b, a] + [a] == [b, a, a];
    RunSnoc(m, [b, a, a], a);
    assert [b, a, a] + [a] == [b, a, a, a];
    RunSnoc(m, [b, a, a, a], a);
    assert [b, a, a, a] + [a] == [b, a, a, a, a];
  }

  lemma PutSteps(m: Memory, text: Text) returns (m1: Memory, m2: Memory, m3: Memory, m4: Memory, m5: Memory)
    requires m.counts != [] && m.writer.Free? && Current(m) < MAX_STRINGS
    ensures Next(m, Begin(text)) == Some(m1) && m1.counts != [] && Next(m1, Advance) == Some(m2)
    ensures m2.counts != [] && Next(m2, Advance) == Some(m3) && m3.counts != [] && Next(m3, Advance) == Some(m4)
    ensures m4.counts != [] && Next(m4, Advance) == Some(m5) && m5.counts != []
    ensures Current(m5) == Current(m) + 1 && Current(m) in m5.entries && m5.entries[Current(m)].value == text && m5.writer.Free?
  {
    hide SegOf;
    m1 := Next(m, Begin(text)).value;
    m2 := Next(m1, Advance).value;
    m3 := Next(m2, Advance).value;
    m4 := Next(m3, Advance).value;
    m5 := Next(m4, Advance).value;
  }

  lemma RunSnoc(m: Memory, events: seq<Event>, e: Event)
    requires Inv(m)
    ensures events == [] ==> Run(m, events) == Some(m)
    ensures Run(m, events + [e]) == match Run(m, events) case None => None case Some(t) => Next(t, e)
  {
    hide Next;
    assert (events + [e])[..|events|] == events;
  }
}
