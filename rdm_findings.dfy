/**
 * The counters of radar_data_manager_run exactly as xensiv_radar_data_management.c
 * updates them, with uint32 wrap-around written out. The queue adjustment there moves
 * tail but never recomputes samples, so after a compaction samples can exceed
 * tail - head; once it does, a later run whose read is refused takes the adjustment again
 * and computes tail - head below zero, which wraps to a size near 2^32 for the memcpy.
 * RadarDataManagement.Compact is the corrected step the rest of the model uses.
 */
module RdmFindings {
  import opened Wrappers
  import opened RadarDataManagement

  /** The five counters run reads and writes. */
  datatype Counters = Counters(buffSize: u32, fillLevel: u32, samples: u32, head: u32, tail: u32)

  function CountersOf(s: Rdm): Counters {
    Counters(s.buffSize, s.fillLevel, s.samples, s.head, s.tail)
  }

  /** uint32 arithmetic: the value modulo 2^32. */
  function Wrap(x: int): (u: u32)
    ensures 0 <= x < U32_LIMIT ==> u == x
    ensures x < 0 && -U32_LIMIT <= x ==> u == x + U32_LIMIT
  {
    x % U32_LIMIT
  }

  /** The manager takes the producer's count: there was room, the producer returned a
      non-negative status and the count fits in the room. */
  predicate CountersAccept(c: Counters, status: i32, count: u32) {
    c.tail < c.buffSize && status >= 0 && count <= c.buffSize - c.tail
  }

  /**
   * One call of run as written, on the counters alone: the producer reports `status` and
   * `count`; `allRead` is the outcome of the acknowledgement scan. When the read is
   * refused while samples is stale (at least fill_level although tail is below it) and
   * everyone has read, tail wraps around to tail - fill_level + 2^32.
   */
  function RunCountersAsWritten(c: Counters, status: i32, count: u32, allRead: bool): (r: Counters)
    ensures r.buffSize == c.buffSize && r.fillLevel == c.fillLevel
    ensures !CountersAccept(c, status, count) && allRead && c.head == 0 && c.fillLevel <= c.samples && c.tail < c.fillLevel ==>
      r.tail == c.tail - c.fillLevel + U32_LIMIT && r.head == 0 && r.samples == c.samples
  {
    SettleCounters(AdjustCountersAsWritten(IngestCounters(c, status, count), allRead))
  }

  /** The ingest step: tail and samples advance on an accepted read, and nothing else changes. */
  function IngestCounters(c: Counters, status: i32, count: u32): (r: Counters)
    ensures r.buffSize == c.buffSize && r.fillLevel == c.fillLevel && r.head == c.head
    ensures !CountersAccept(c, status, count) ==> r == c
    ensures CountersAccept(c, status, count) ==>
      r.tail == c.tail + count <= c.buffSize && r.samples == Wrap(r.tail - r.head)
  {
    if CountersAccept(c, status, count) then
      c.(tail := c.tail + count, samples := Wrap(c.tail + count - c.head))
    else c
  }

  /** The queue adjustment as written: head and tail move, samples is left alone, and a
      tail below the fill level wraps around. */
  function AdjustCountersAsWritten(c: Counters, allRead: bool): (r: Counters)
    ensures r.buffSize == c.buffSize && r.fillLevel == c.fillLevel && r.samples == c.samples
    ensures !(c.samples >= c.fillLevel && allRead) ==> r == c
    ensures c.samples >= c.fillLevel && allRead && c.head == 0 && 0 < c.fillLevel ==>
      r.head == 0 && (r.tail == c.tail - c.fillLevel || r.tail == c.tail - c.fillLevel + U32_LIMIT)
  {
    if c.samples >= c.fillLevel && allRead then
      var head := Wrap(c.head + c.fillLevel);
      if head > 0 then c.(tail := Wrap(c.tail - head), head := 0)
      else c.(head := head)
    else c
  }

  /** The closing bounds check: only a full buffer with head == tail is reset. */
  function SettleCounters(c: Counters): (r: Counters)
    ensures r.buffSize == c.buffSize && r.fillLevel == c.fillLevel
    ensures c.tail != c.buffSize || c.head != c.tail ==> r == c
    ensures r != c ==> r.head == 0 && r.tail == 0 && r.samples == 0
  {
    if c.tail == c.buffSize && c.head == c.tail then c.(tail := 0, head := 0, samples := 0)
    else c
  }

  /** A manager state whose counters are replaced by `c`; the table and buffer stay. */
  function WithCounters(s: Rdm, c: Counters): (r: Rdm)
    ensures CountersOf(r) == c
    ensures r.buffer == s.buffer && r.subscriptions == s.subscriptions && r.subscribers == s.subscribers
  {
    s.(buffSize := c.buffSize, fillLevel := c.fillLevel, samples := c.samples, head := c.head, tail := c.tail)
  }

  /**
   * A 12-byte buffer with fill level 4 and no subscriber: a successful run delivering 4
   * bytes compacts to tail 0 but leaves samples at 4; a following run whose producer
   * returns 0 with a count of 100, more than the room, is refused and compacts again and sets tail to 2^32 - 4, far beyond the buffer.
   */
  lemma StaleSamplesWrapTail()
    ensures RunCountersAsWritten(Counters(12, 4, 0, 0, 0), 0, 4, true) == Counters(12, 4, 4, 0, 0)
    ensures RunCountersAsWritten(Counters(12, 4, 4, 0, 0), 0, 100, true) == Counters(12, 4, 4, 0, U32_LIMIT - 4)
  {
  }

  /** The corrected run on the same scenario keeps tail within the buffer. */
  lemma CorrectedRunStaysInBounds()
    ensures
      var s0 := Rdm(Some(seq(12, _ => 0)), 12, 0, 0, 0, 4, 0, Zeroed().subscriptions, Standard, Standard);
      var s1 := Run(s0, ProducerReport(0, 4, [1, 2, 3, 4])).next;
      var s2 := Run(s1, ProducerReport(0, 100, [])).next;
      s1.tail == 0 && s1.samples == 0 && s2.tail == 0 && s2.samples == 0
  {
    var s0 := Rdm(Some(seq(12, _ => 0)), 12, 0, 0, 0, 4, 0, Zeroed().subscriptions, Standard, Standard);
    assert OccupiedSlots(s0.subscriptions) == {};
    assert Inv(s0);
  }

  /**
   * The stale window needs no refused read. One subscriber in slot 1 of a 12-byte buffer
   * with fill level 4: a first run has ingested 4 bytes (counters (12, 4, 4, 0, 4), as in
   * `StaleSamplesRewakeSubscribers`) and the subscriber has acknowledged. The next run's
   * producer returns 0 with count 0, which is accepted; the run wakes slot 1 before its
   * adjustment, as the corrected run does (`OneSubscriberCycle`), then compacts to tail 0
   * with samples still 4 and the acknowledgement cleared, so the woken subscriber's
   * read_from_buffer hands it the window [0, 4) although tail is 0: the bytes it has
   * already acknowledged.
   */
  lemma StaleWindowAfterAcceptedCompaction()
    ensures
      var table := seq(ACTIVE_SUBSCRIPTION_UB + 1, i => if i == 1 then Subscription(false, 7) else FREE_SLOT);
      var s2 := WithCounters(Rdm(Some(seq(12, _ => 0)), 12, 0, 0, 0, 4, 1, table, Standard, Standard),
                             Counters(12, 4, 4, 0, 0));
      ReadBuffer(s2, 1) == Window(0, 4) && s2.tail == 0
    ensures CountersAccept(Counters(12, 4, 4, 0, 4), 0, 0)
    ensures RunCountersAsWritten(Counters(12, 4, 4, 0, 4), 0, 0, true) == Counters(12, 4, 4, 0, 0)
  {
    var c1 := Counters(12, 4, 4, 0, 4);
    assert CountersAccept(c1, 0, 0) && Wrap(4) == 4;
    assert IngestCounters(c1, 0, 0) == c1;
    assert AdjustCountersAsWritten(c1, true) == Counters(12, 4, 4, 0, 0);
  }


  /**
   * The second effect of the stale samples, with one subscriber in slot 1 of a 12-byte
   * buffer with fill level 4. Run 1 ingests 4 bytes before the subscriber has
   * acknowledged; run 2 follows its acknowledgement, its read is refused (status 0 with a
   * count of 100, more than the room), and the compaction leaves tail 0 with samples still
   * 4 and the acknowledgement cleared. Run 3's read is refused the same way: the subscriber has not acknowledged, so there is no adjustment, but the stale
   * samples pass the watermark test, so slot 1 is woken again and read_from_buffer hands
   * it the window [0, 4) although tail is 0.
   */
  lemma StaleSamplesRewakeSubscribers()
    ensures
      var c1 := RunCountersAsWritten(Counters(12, 4, 0, 0, 0), 0, 4, false);
      var c2 := RunCountersAsWritten(c1, 0, 100, true);
      var c3 := RunCountersAsWritten(c2, 0, 100, false);
      var table := seq(ACTIVE_SUBSCRIPTION_UB + 1, i => if i == 1 then Subscription(false, 7) else FREE_SLOT);
      var s3 := WithCounters(Rdm(Some(seq(12, _ => 0)), 12, 0, 0, 0, 4, 1, table, Standard, Standard),
                             Counters(12, 4, 4, 0, 0));
      && c1 == Counters(12, 4, 4, 0, 4) && c2 == Counters(12, 4, 4, 0, 0) && c3 == c2
      && Woken(s3) == [1] && ReadBuffer(s3, 1) == Window(0, 4) && s3.tail == 0
  {
    var c0 := Counters(12, 4, 0, 0, 0);
    assert IngestCounters(c0, 0, 4) == Counters(12, 4, 4, 0, 4);
    var c1 := Counters(12, 4, 4, 0, 4);
    assert RunCountersAsWritten(c0, 0, 4, false) == c1;
    assert IngestCounters(c1, 0, 100) == c1;
    var c2 := Counters(12, 4, 4, 0, 0);
    assert AdjustCountersAsWritten(c1, true) == c2;
    assert RunCountersAsWritten(c1, 0, 100, true) == c2;
    assert IngestCounters(c2, 0, 100) == c2;
    assert RunCountersAsWritten(c2, 0, 100, false) == c2;
    var table := seq(ACTIVE_SUBSCRIPTION_UB + 1, i => if i == 1 then Subscription(false, 7) else FREE_SLOT);
    assert OccupiedFrom(table, 1) == [1];
  }

  /**
   * The corrected run on the same three runs: after the compaction samples is 0, so the
   * third run wakes nobody and the subscriber's read is refused with -2 until new data
   * arrives.
   */
  lemma CorrectedRunDoesNotRewake()
    ensures
      var (s0, _) := Init(Zeroed(), true, 12, 4, true);
      var (s1, _) := Subscribe(s0, 7);
      var run1 := Run(s1, ProducerReport(0, 4, [1, 2, 3, 4]));
      var s2 := AckDataRead(run1.next, 1);
      var run2 := Run(s2, ProducerReport(0, 100, []));
      var run3 := Run(run2.next, ProducerReport(0, 100, []));
      && run1.woken == [1] && run2.next.tail == 0 && run2.next.samples == 0
      && run3.woken == [] && ReadBuffer(run3.next, 1) == ReadError(RDM_EOP_CANNOT_COMPLETE)
  {
    var zeros := seq(12, _ => 0);
    var table := Zeroed().subscriptions[1 := Subscription(false, 7)];
    var s0 := Rdm(Some(zeros), 12, 0, 0, 0, 4, 0, Zeroed().subscriptions, Standard, Standard);
    assert Init(Zeroed(), true, 12, 4, true) == (s0, RDM_SUCCESS);
    var s1 := s0.(subscriptions := table, subscribers := 1);
    assert FindSlot(s0.subscriptions, 7, 1) == 0;
    assert FindSlot(s0.subscriptions, NO_TASK, 1) == 1;
    assert Subscribe(s0, 7) == (s1, 1);
    var p := ProducerReport(0, 4, [1, 2, 3, 4]);
    var bytes := [1, 2, 3, 4] + zeros[4..];
    var i1 := s1.(buffer := Some(bytes), tail := 4, samples := 4);
    assert Ingest(s1, p) == i1;
    assert !AllAcknowledged(i1.subscriptions);
    assert Compact(i1) == i1;
    assert OccupiedFrom(table, 1) == [1];
    assert Run(s1, p) == RunOutcome(i1, [1]);
    var s2 := i1.(subscriptions := table[1 := Subscription(true, 7)]);
    assert AckDataRead(i1, 1) == s2;
    var q := ProducerReport(0, 100, []);
    assert Ingest(s2, q) == s2;
    assert AllAcknowledged(s2.subscriptions);
    var n2 := Run(s2, q).next;
    assert n2.tail == 0 && n2.samples == 0;
    assert Ingest(n2, q) == n2;
  }

  /**
   * As long as the counters are those of a valid state, run as written moves head and
   * tail exactly as the corrected run does; the two differ only in samples, and only
   * after a compaction, where the written code keeps the pre-compaction count.
   */
  lemma {:induction false} AsWrittenDiffersOnlyInSamples(s: Rdm, p: ProducerReport)
    requires Inv(s) && ProducerHonest(s, p)
    ensures
      var i := Ingest(s, p);
      var w := RunCountersAsWritten(CountersOf(s), p.status, p.count, AllAcknowledged(s.subscriptions));
      var r := Run(s, p).next;
      && w.head == r.head && w.tail == r.tail
      && w.buffSize == r.buffSize && w.fillLevel == r.fillLevel
      && (!CompactionDue(i) ==> w.samples == r.samples)
      && (CompactionDue(i) ==> w.samples == i.samples && r.samples == r.tail)
  {
    var i := Ingest(s, p);
    IngestAsWritten(s, p);
    AdjustAsWritten(i);
    assert !ResetDue(Compact(i)) || i.buffer.None?;
  }

  /** From a valid state the written adjustment moves head and tail as Compact does. */
  lemma AdjustAsWritten(i: Rdm)
    requires Inv(i)
    ensures
      var w := AdjustCountersAsWritten(CountersOf(i), AllAcknowledged(i.subscriptions));
      var r := Compact(i);
      && w.head == r.head && w.tail == r.tail
      && w.buffSize == r.buffSize && w.fillLevel == r.fillLevel
      && w.samples == i.samples
      && (!CompactionDue(i) ==> r.samples == i.samples)
      && (CompactionDue(i) ==> r.samples == r.tail)
  {
  }

  /** The ingest step as written computes the same counters as Ingest. */
  lemma IngestAsWritten(s: Rdm, p: ProducerReport)
    requires Inv(s) && ProducerHonest(s, p)
    ensures CountersOf(Ingest(s, p)) == IngestCounters(CountersOf(s), p.status, p.count)
  {
  }
}
