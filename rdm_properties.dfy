/**
 * What the Radar Data Manager's operations promise together: the wake order, when
 * compaction happens and what it keeps, the dead closing reset, stable ids, the
 * fill-level round trip, and two concrete subscription cycles.
 */
module RdmProperties {
  import opened Wrappers
  import opened RadarDataManagement

  /** OccupiedFrom lists every occupied slot from `from` on, and nothing else. */
  lemma {:induction false} OccupiedFromIsExact(slots: seq<Subscription>, from: nat)
    requires WellFormedTable(slots) && 1 <= from
    ensures forall id :: id in OccupiedFrom(slots, from) <==>
      from <= id <= ACTIVE_SUBSCRIPTION_UB && slots[id].task != NO_TASK
    decreases ACTIVE_SUBSCRIPTION_UB + 1 - from
  {
    if from <= ACTIVE_SUBSCRIPTION_UB {
      OccupiedFromIsExact(slots, from + 1);
    }
  }

  /** OccupiedFrom is strictly ascending, so no slot appears in it twice. */
  lemma {:induction false} OccupiedFromAscends(slots: seq<Subscription>, from: nat)
    requires WellFormedTable(slots) && 1 <= from
    ensures forall a, b :: 0 <= a < b < |OccupiedFrom(slots, from)| ==>
      OccupiedFrom(slots, from)[a] < OccupiedFrom(slots, from)[b]
    decreases ACTIVE_SUBSCRIPTION_UB + 1 - from
  {
    if from <= ACTIVE_SUBSCRIPTION_UB {
      var rest := OccupiedFrom(slots, from + 1);
      OccupiedFromAscends(slots, from + 1);
      if slots[from].task != NO_TASK {
        var ids := [from] + rest;
        forall a, b | 0 <= a < b < |ids| ensures ids[a] < ids[b] {
          assert ids[b] == rest[b - 1];
          if a > 0 {
            assert ids[a] == rest[a - 1];
          }
        }
      }
    }
  }

  /**
   * One run wakes every occupied slot exactly once when the watermark is reached after
   * ingesting, and no slot otherwise; a free slot is never woken.
   */
  lemma RunWakesEachOccupiedSlotOnce(s: Rdm, p: ProducerReport)
    requires Inv(s) && ProducerHonest(s, p)
    ensures var w := Run(s, p).woken;
      && (forall a, b :: 0 <= a < b < |w| ==> w[a] < w[b])
      && (forall id :: id in w <==>
            WatermarkReached(Ingest(s, p)) && IsSlotId(id) && s.subscriptions[id].task != NO_TASK)
  {
    OccupiedFromIsExact(s.subscriptions, 1);
    OccupiedFromAscends(s.subscriptions, 1);
  }

  /**
   * With a buffer allocated, a run compacts (its tail ends below the tail reached by
   * ingesting) exactly when the watermark is reached and every occupied slot has
   * acknowledged. Either way the subscribed handles are untouched.
   */
  lemma RunCompactsIffAllAcknowledged(s: Rdm, p: ProducerReport)
    requires Inv(s) && ProducerHonest(s, p) && s.buffer.Some?
    ensures var i := Ingest(s, p); var r := Run(s, p).next;
      && (r.tail < i.tail <==> WatermarkReached(i) && AllAcknowledged(i.subscriptions))
      && (forall id :: IsSlotId(id) ==> r.subscriptions[id].task == s.subscriptions[id].task)
      && r.subscribers == s.subscribers
  {
    var i := Ingest(s, p);
    assert !ResetDue(Compact(i));
  }

  /**
   * A compacting run moves the unread bytes [fill_level, tail) to [0, tail - fill_level),
   * sets head to 0, clears every acknowledgement and leaves the count of buffered bytes
   * equal to what is left.
   */
  lemma CompactionKeepsUnreadBytes(s: Rdm, p: ProducerReport)
    requires Inv(s) && ProducerHonest(s, p) && s.buffer.Some?
    requires CompactionDue(Ingest(s, p))
    ensures var i := Ingest(s, p); var r := Run(s, p).next;
      && r.tail == i.tail - i.fillLevel && r.head == 0 && r.samples == r.tail
      && r.buffer.value[..r.tail] == i.buffer.value[i.fillLevel..i.tail]
      && (forall id :: IsSlotId(id) ==> !r.subscriptions[id].dataRead)
  {
    var i := Ingest(s, p);
    var b := i.buffer.value;
    var sz := i.tail - i.fillLevel;
    assert Compact(i).buffer.value == b[i.fillLevel..i.tail] + b[sz..];
    assert !ResetDue(Compact(i));
  }

  /**
   * Until every occupied slot acknowledges, a run keeps the buffered bytes where they
   * are (xensiv_radar_data_management.h:115-117): the old prefix [0, tail) survives,
   * tail never shrinks and the acknowledgements stay as they were.
   */
  lemma UnacknowledgedDataPersists(s: Rdm, p: ProducerReport)
    requires Inv(s) && ProducerHonest(s, p) && s.buffer.Some?
    requires !CompactionDue(Ingest(s, p))
    ensures var r := Run(s, p).next;
      && r.tail >= s.tail
      && r.buffer.value[..s.tail] == s.buffer.value[..s.tail]
      && r.subscriptions == s.subscriptions
  {
    assert !ResetDue(Ingest(s, p));
  }

  /**
   * The closing reset of run (.c:363-372) needs tail == buff_size and head == tail. Since
   * head is 0 after every call, that means buff_size == 0: it fires exactly when no
   * buffer is allocated, where it changes nothing.
   */
  lemma ClosingResetOnlyWithoutBuffer(s: Rdm, p: ProducerReport)
    requires Inv(s) && ProducerHonest(s, p)
    ensures ResetDue(Compact(Ingest(s, p))) <==> s.buffer.None?
    ensures s.buffer.None? ==> Run(s, p).next == Compact(s)
  {
  }

  /** head starts at 0 and every operation that touches the buffer counters leaves it
      there, with samples equal to tail, so the unread bytes always start at offset 0. */
  lemma HeadStaysZero(s: Rdm, p: ProducerReport, task: TaskHandle, id: int, level: i32)
    requires Inv(s) && ProducerHonest(s, p)
    ensures Zeroed().head == 0
    ensures var r := Run(s, p).next; r.head == 0 && r.samples == r.tail <= r.buffSize
    ensures var r := Subscribe(s, task).0; r.head == 0 && r.samples == r.tail
    ensures var r := Unsubscribe(s, id); r.head == 0 && r.samples == r.tail
    ensures var r := AckDataRead(s, id); r.head == 0 && r.samples == r.tail
    ensures var r := SetFillLevel(s, level).0; r.head == 0 && r.samples == r.tail
  {
  }

  /** Ingesting appends the bytes from the old tail up to the new one to the unread
      bytes; on an accepted read those are the first `count` bytes the producer copied. */
  lemma IngestAppendsToUnread(s: Rdm, p: ProducerReport)
    requires Inv(s) && ProducerHonest(s, p) && s.buffer.Some?
    ensures var i := Ingest(s, p);
      && Unread(i) == Unread(s) + i.buffer.value[s.tail..i.tail]
      && (!ReadAccepted(s, p) ==> Unread(i) == Unread(s))
      && (ReadAccepted(s, p) && p.count <= |p.data| ==> i.buffer.value[s.tail..i.tail] == p.data[..p.count])
  {
    var i := Ingest(s, p);
    var b := i.buffer.value;
    assert b[..s.tail] == s.buffer.value[..s.tail];
    assert Unread(i) == b[..i.tail];
    assert b[..i.tail] == b[..s.tail] + b[s.tail..i.tail];
    if ReadAccepted(s, p) && p.count <= |p.data| {
      assert b[s.tail..i.tail] == b[s.tail..s.tail + |p.data|][..p.count];
    }
  }

  /** A run releases exactly one window of unread bytes, the oldest fill_level ones, when
      it compacts, and none otherwise. */
  lemma RunReleasesOldestWindow(s: Rdm, p: ProducerReport)
    requires Inv(s) && ProducerHonest(s, p) && s.buffer.Some?
    ensures var i := Ingest(s, p); var n := Run(s, p).next;
      && n.buffer.Some?
      && (CompactionDue(i) ==> Unread(n) == Unread(i)[i.fillLevel..])
      && (!CompactionDue(i) ==> Unread(n) == Unread(i))
  {
    var i := Ingest(s, p);
    if CompactionDue(i) {
      CompactionKeepsUnreadBytes(s, p);
      var n := Run(s, p).next;
      assert n.head == 0 && i.head == 0;
      assert Unread(i)[i.fillLevel..] == i.buffer.value[i.fillLevel..i.tail];
      assert Unread(n) == n.buffer.value[..n.tail];
    } else {
      assert !ResetDue(i);
      assert Compact(i) == i;
    }
  }

  /** In every valid state a successful read returns the oldest fill_level unread bytes. */
  lemma ReadSeesOldestUnreadBytes(s: Rdm, id: int)
    requires Inv(s) && ReadBuffer(s, id).Window?
    ensures s.buffer.Some? && |Unread(s)| >= s.fillLevel
    ensures WindowBytes(s, ReadBuffer(s, id)) == Unread(s)[..s.fillLevel]
  {
  }

  /**
   * What a subscriber reads after a run that accepted the producer's report: the bytes
   * that were unread before, followed by the ones just received, form one stream; a run
   * that compacts has released its first fill_level bytes, and the read returns the next
   * fill_level bytes of what is left.
   */
  lemma ReadAfterRunSeesOldestBytes(s: Rdm, p: ProducerReport, id: int)
    requires Inv(s) && ProducerHonest(s, p) && s.buffer.Some?
    requires ReadAccepted(s, p) && p.count <= |p.data|
    requires ReadBuffer(Run(s, p).next, id).Window?
    ensures var n := Run(s, p).next;
      var stream := Unread(s) + p.data[..p.count];
      var left := if CompactionDue(Ingest(s, p)) then stream[s.fillLevel..] else stream;
      s.fillLevel <= |left| && WindowBytes(n, ReadBuffer(n, id)) == left[..s.fillLevel]
  {
    var n := Run(s, p).next;
    IngestAppendsToUnread(s, p);
    RunReleasesOldestWindow(s, p);
    ReadSeesOldestUnreadBytes(n, id);
  }

  /** Subscribing a handle again before unsubscribing it returns the same id and changes nothing. */
  lemma ResubscribeReturnsSameId(s: Rdm, task: TaskHandle)
    requires Inv(s) && IsSlotId(Subscribe(s, task).1)
    ensures var (s1, id) := Subscribe(s, task); Subscribe(s1, task) == (s1, id)
  {
    var (s1, id) := Subscribe(s, task);
    assert task in Holders(s1.subscriptions);
    var (s2, id2) := Subscribe(s1, task);
    assert s1.subscriptions[id2].task == task == s1.subscriptions[id].task;
  }

  /** Neither a run nor an acknowledgement moves a handle to another slot or drops it, so
      the id a subscription received stays its id until it is unsubscribed. */
  lemma IdsSurviveRunAndAck(s: Rdm, p: ProducerReport, other: int)
    requires Inv(s) && ProducerHonest(s, p)
    ensures forall id :: IsSlotId(id) ==>
      && Run(s, p).next.subscriptions[id].task == s.subscriptions[id].task
      && AckDataRead(s, other).subscriptions[id].task == s.subscriptions[id].task
  {
  }

  /** A fill level that set_fill_level accepts is what get_fill_level hands back. */
  lemma FillLevelRoundTrip(s: Rdm, level: i32)
    requires SetFillLevel(s, level).1 == RDM_SUCCESS
    ensures GetFillLevel(SetFillLevel(s, level).0) == level
  {
  }

  /** For a buffer smaller than 2^31 bytes (every size an int32 can name), set_fill_level
      accepts exactly the levels 1..buff_size; a negative level is refused through its
      unsigned reading. */
  lemma SetFillLevelAcceptsExactlyOneToSize(s: Rdm, level: i32)
    requires s.buffSize < I32_LIMIT
    ensures SetFillLevel(s, level).1 == RDM_SUCCESS <==> 1 <= level <= s.buffSize
  {
  }

  /**
   * unsubscribe of a free slot still decrements the count (.c:210-217): after subscribing
   * one handle and unsubscribing the empty slot 2, the count is 0 while slot 1 is still
   * taken, and deinit then succeeds and drops that subscription.
   */
  lemma UnsubscribingFreeSlotLosesCount()
    ensures var (s1, _) := Init(Zeroed(), true, 12, 4, true);
      var (s2, id) := Subscribe(s1, 7);
      var s3 := Unsubscribe(s2, 2);
      && id == 1 && s3.subscribers == 0 && s3.subscriptions[1].task == 7
      && Deinit(s3) == (Zeroed(), RDM_SUCCESS)
  {
    var (s1, _) := Init(Zeroed(), true, 12, 4, true);
    assert FindSlot(s1.subscriptions, 7, 1) == 0;
    assert FindSlot(s1.subscriptions, NO_TASK, 1) == 1;
  }

  /** Once four handles hold the four slots, any other handle is refused with -2 and
      nothing changes; a handle already subscribed still gets its id. */
  lemma FullTableRefusesNewHandle(s: Rdm, task: TaskHandle)
    requires Inv(s) && s.buffer.Some?
    requires forall id :: IsSlotId(id) ==> s.subscriptions[id].task != NO_TASK
    ensures task != NO_TASK && task !in Holders(s.subscriptions) ==>
      Subscribe(s, task) == (s, RDM_EOP_CANNOT_COMPLETE)
    ensures task in Holders(s.subscriptions) ==>
      Subscribe(s, task).0 == s && IsSlotId(Subscribe(s, task).1)
      && s.subscriptions[Subscribe(s, task).1].task == task
  {
    assert NO_TASK !in Holders(s.subscriptions);
  }

  /**
   * A complete cycle: buffer 12, fill level 4, one subscriber. Ingesting
   * [1, 2, 3, 4] wakes slot 1, whose read sees exactly those bytes; after its
   * acknowledgement the next run (with nothing new) wakes slot 1 once more and
   * compacts to head == tail == 0, after which slot 1's read is refused with -2.
   */
  lemma OneSubscriberCycle()
    ensures var (s0, _) := Init(Zeroed(), true, 12, 4, true);
      var (s1, id) := Subscribe(s0, 7);
      var run1 := Run(s1, ProducerReport(0, 4, [1, 2, 3, 4]));
      var w := ReadBuffer(run1.next, id);
      var s2 := AckDataRead(run1.next, id);
      var run2 := Run(s2, ProducerReport(0, 0, []));
      && id == 1 && run1.woken == [1]
      && w == Window(0, 4) && run1.next.buffer.value[0..4] == [1, 2, 3, 4]
      && run2.next.head == 0 && run2.next.tail == 0
      && run2.woken == [1] && ReadBuffer(run2.next, id) == ReadError(RDM_EOP_CANNOT_COMPLETE)
  {
    var zeros := seq(12, _ => 0);
    var s0 := Rdm(Some(zeros), 12, 0, 0, 0, 4, 0, Zeroed().subscriptions, Standard, Standard);
    assert Init(Zeroed(), true, 12, 4, true) == (s0, RDM_SUCCESS);
    var t1 := Zeroed().subscriptions[1 := Subscription(false, 7)];
    var s1 := s0.(subscriptions := t1, subscribers := 1);
    assert FindSlot(s0.subscriptions, 7, 1) == 0;
    assert FindSlot(s0.subscriptions, NO_TASK, 1) == 1;
    assert Subscribe(s0, 7) == (s1, 1);
    var p := ProducerReport(0, 4, [1, 2, 3, 4]);
    var bytes := [1, 2, 3, 4] + zeros[4..];
    var i1 := s1.(buffer := Some(bytes), tail := 4, samples := 4);
    assert Ingest(s1, p) == i1;
    assert !AllAcknowledged(i1.subscriptions);
    assert Compact(i1) == i1;
    assert OccupiedFrom(t1, 1) == [1];
    assert Run(s1, p) == RunOutcome(i1, [1]);
    var s2 := i1.(subscriptions := t1[1 := Subscription(true, 7)]);
    assert AckDataRead(i1, 1) == s2;
    var q := ProducerReport(0, 0, []);
    assert Ingest(s2, q) == s2;
    assert AllAcknowledged(s2.subscriptions);
  }

  /**
   * A slow subscriber: two subscribers, only slot 1 acknowledges; a run that
   * ingests four more bytes wakes both again but does not compact.
   */
  lemma SlowSubscriberBlocksCompaction()
    ensures var (s0, _) := Init(Zeroed(), true, 12, 4, true);
      var (s1, _) := Subscribe(s0, 7);
      var (s2, _) := Subscribe(s1, 8);
      var run1 := Run(s2, ProducerReport(0, 4, [1, 2, 3, 4]));
      var s3 := AckDataRead(run1.next, 1);
      var run2 := Run(s3, ProducerReport(0, 4, [5, 6, 7, 8]));
      && run1.woken == [1, 2] && run2.woken == [1, 2]
      && run2.next.head == 0 && run2.next.tail == 8
      && run2.next.buffer.value[..8] == [1, 2, 3, 4, 5, 6, 7, 8]
  {
    var zeros := seq(12, _ => 0);
    var s0 := Rdm(Some(zeros), 12, 0, 0, 0, 4, 0, Zeroed().subscriptions, Standard, Standard);
    assert Init(Zeroed(), true, 12, 4, true) == (s0, RDM_SUCCESS);
    var t1 := Zeroed().subscriptions[1 := Subscription(false, 7)];
    var s1 := s0.(subscriptions := t1, subscribers := 1);
    assert FindSlot(s0.subscriptions, 7, 1) == 0;
    assert FindSlot(s0.subscriptions, NO_TASK, 1) == 1;
    assert Subscribe(s0, 7) == (s1, 1);
    var t2 := t1[2 := Subscription(false, 8)];
    var s2 := s1.(subscriptions := t2, subscribers := 2);
    assert FindSlot(t1, 8, 1) == 0;
    assert FindSlot(t1, NO_TASK, 1) == 2;
    assert Subscribe(s1, 8) == (s2, 2);
    assert OccupiedFrom(t2, 1) == [1, 2];
    var p1 := ProducerReport(0, 4, [1, 2, 3, 4]);
    var i1 := s2.(buffer := Some([1, 2, 3, 4] + zeros[4..]), tail := 4, samples := 4);
    assert Ingest(s2, p1) == i1;
    assert !AllAcknowledged(t2);
    assert Run(s2, p1) == RunOutcome(i1, [1, 2]);
    var t3 := t2[1 := Subscription(true, 7)];
    var s3 := i1.(subscriptions := t3);
    assert AckDataRead(i1, 1) == s3;
    assert OccupiedFrom(t3, 1) == [1, 2];
    var p2 := ProducerReport(0, 4, [5, 6, 7, 8]);
    var b1 := [1, 2, 3, 4] + zeros[4..];
    assert b1[..4] == [1, 2, 3, 4] && b1[8..] == zeros[8..];
    var bytes := [1, 2, 3, 4] + [5, 6, 7, 8] + zeros[8..];
    var i2 := s3.(buffer := Some(bytes), tail := 8, samples := 8);
    assert Ingest(s3, p2) == i2;
    assert !AllAcknowledged(t3);
    assert Run(s3, p2) == RunOutcome(i2, [1, 2]);
    assert bytes[..8] == [1, 2, 3, 4, 5, 6, 7, 8];
  }
}
