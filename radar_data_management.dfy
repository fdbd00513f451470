/**
 * The Radar Data Manager (RDM) as a value: the fields of the C `manager` struct
 * and one function per public operation. The class RadarDataManager
 * (radar_data_manager.dfy) updates the same fields in place and is proved
 * against these functions; the lemmas at the end state what the operations
 * promise together.
 */
module RadarDataManagement {
  import opened Wrappers

  /** Maximum number of active subscriptions; subscriber ids are 1..ACTIVE_SUBSCRIPTION_UB. */
  const ACTIVE_SUBSCRIPTION_UB: int := 4

  /** The three return codes of every RDM operation. */
  const RDM_SUCCESS: int := 0
  const RDM_EPARAM_INVALID: int := -1
  const RDM_EOP_CANNOT_COMPLETE: int := -2

  const U32_LIMIT: int := 0x1_0000_0000
  const I32_LIMIT: int := 0x8000_0000

  type u32 = x: int | 0 <= x < 0x1_0000_0000
  type i32 = x: int | -0x8000_0000 <= x < 0x8000_0000
  type Byte = x: int | 0 <= x < 256

  /** A FreeRTOS task handle; NO_TASK stands for NULL. */
  type TaskHandle = nat
  const NO_TASK: TaskHandle := 0

  /** One entry of the subscription table. A slot is free when its task is NO_TASK. */
  datatype Subscription = Subscription(dataRead: bool, task: TaskHandle)
  const FREE_SLOT: Subscription := Subscription(false, NO_TASK)

  /** A platform allocation hook as stored by set_malloc_free: unset (NULL), the C
      library's own `malloc`/`free`, or one supplied by the caller. */
  datatype Allocator = Unset | Standard | Custom(id: nat)

  /** The manager state. `buffer` is None while no buffer is allocated (the NULL
      pointer). `subscriptions` has ACTIVE_SUBSCRIPTION_UB + 1 entries; entry 0 is
      never used, exactly as in the C table. */
  datatype Rdm = Rdm(
    buffer: Option<seq<Byte>>,
    buffSize: u32,
    samples: u32,
    head: u32,
    tail: u32,
    fillLevel: u32,
    subscribers: nat,
    subscriptions: seq<Subscription>,
    mallocFunc: Allocator,
    freeFunc: Allocator)

  /** What the producer callback `in_read_radar_data` did in one call: its return
      value, the count it reported, and the bytes it copied to `buffer + tail`. */
  datatype ProducerReport = ProducerReport(status: i32, count: u32, data: seq<Byte>)

  /** What a read_from_buffer call hands back. */
  datatype ReadOutcome = Window(offset: nat, size: nat) | ReadError(code: int)

  /** What one run call did: the new state and the slots it woke, in the order woken. */
  datatype RunOutcome = RunOutcome(next: Rdm, woken: seq<int>)

  predicate IsSlotId(id: int) {
    1 <= id <= ACTIVE_SUBSCRIPTION_UB
  }

  predicate IsReturnCode(code: int) {
    code == RDM_SUCCESS || code == RDM_EPARAM_INVALID || code == RDM_EOP_CANNOT_COMPLETE
  }

  predicate WellFormedTable(slots: seq<Subscription>) {
    |slots| == ACTIVE_SUBSCRIPTION_UB + 1
  }

  /** The state of the static, zero-initialised `manager` struct (also what deinit leaves). */
  function Zeroed(): (s: Rdm)
    ensures WellFormedTable(s.subscriptions)
    ensures Inv(s) && s.buffer.None? && s.subscribers == 0
    ensures OccupiedSlots(s.subscriptions) == {}
    ensures s.mallocFunc == Unset && s.freeFunc == Unset
  {
    var s := Rdm(None, 0, 0, 0, 0, 0, 0, seq(ACTIVE_SUBSCRIPTION_UB + 1, _ => FREE_SLOT), Unset, Unset);
    assert OccupiedSlots(s.subscriptions) == {};
    s
  }

  /** The handles held in slots 1..ACTIVE_SUBSCRIPTION_UB, NO_TASK included when a slot is free. */
  function Holders(slots: seq<Subscription>): set<TaskHandle>
    requires WellFormedTable(slots)
  {
    set i | 1 <= i <= ACTIVE_SUBSCRIPTION_UB :: slots[i].task
  }

  /** The ids of the occupied slots. */
  function OccupiedSlots(slots: seq<Subscription>): set<int>
    requires WellFormedTable(slots)
  {
    set i | 1 <= i <= ACTIVE_SUBSCRIPTION_UB && slots[i].task != NO_TASK
  }

  /** No handle sits in two slots. */
  predicate DistinctTasks(slots: seq<Subscription>)
    requires WellFormedTable(slots)
  {
    forall i, j :: 1 <= i < j <= ACTIVE_SUBSCRIPTION_UB && slots[i].task != NO_TASK ==>
      slots[i].task != slots[j].task
  }

  /** Every occupied slot has acknowledged its read. */
  predicate AllAcknowledged(slots: seq<Subscription>)
    requires WellFormedTable(slots)
  {
    forall i :: 1 <= i <= ACTIVE_SUBSCRIPTION_UB && slots[i].task != NO_TASK ==> slots[i].dataRead
  }

  /** Enough bytes are buffered to notify the subscribers. */
  predicate WatermarkReached(s: Rdm) {
    s.samples >= s.fillLevel
  }

  /**
   * The invariant of every state the operations can reach. Without a buffer all
   * counters are zero and no slot is taken; with one, 0 == head <= tail <= buff_size,
   * the fill level lies in 1..buff_size and `samples` counts the bytes in [head, tail).
   * The subscriber count never exceeds the number of occupied slots (it may fall
   * below it: see Unsubscribe).
   */
  predicate Inv(s: Rdm) {
    && WellFormedTable(s.subscriptions)
    && DistinctTasks(s.subscriptions)
    && s.subscribers <= |OccupiedSlots(s.subscriptions)|
    && match s.buffer
       case None =>
         s.buffSize == 0 && s.fillLevel == 0 && s.head == 0 && s.tail == 0 && s.samples == 0
         && OccupiedSlots(s.subscriptions) == {}
       case Some(b) =>
         |b| == s.buffSize && 0 < s.fillLevel <= s.buffSize
         && s.head == 0 && s.head <= s.tail <= s.buffSize && s.samples == s.tail - s.head
  }

  // ---------------------------------------------------------------- subscription registry

  /** The lowest slot id in from..ACTIVE_SUBSCRIPTION_UB that holds `task`, or 0 when none does. */
  function FindSlot(slots: seq<Subscription>, task: TaskHandle, from: nat): (id: nat)
    requires WellFormedTable(slots) && 1 <= from
    ensures id == 0 || (from <= id <= ACTIVE_SUBSCRIPTION_UB && slots[id].task == task)
    ensures forall j :: from <= j <= ACTIVE_SUBSCRIPTION_UB && (id == 0 || j < id) ==> slots[j].task != task
    decreases ACTIVE_SUBSCRIPTION_UB + 1 - from
  {
    if from > ACTIVE_SUBSCRIPTION_UB then 0
    else if slots[from].task == task then from
    else FindSlot(slots, task, from + 1)
  }

  /**
   * subscribe(task): NULL is rejected with -1; a handle already in a slot gets that
   * slot's id back with no state change (even when the table is full); otherwise the
   * lowest free slot is claimed, its acknowledgement cleared and the count incremented,
   * unless the count is at its bound or no buffer is allocated, which gives -2.
   */
  function Subscribe(s: Rdm, task: TaskHandle): (r: (Rdm, int))
    requires WellFormedTable(s.subscriptions)
    ensures WellFormedTable(r.0.subscriptions)
    ensures r.1 == RDM_EPARAM_INVALID || r.1 == RDM_EOP_CANNOT_COMPLETE || IsSlotId(r.1)
    ensures r.1 == RDM_EPARAM_INVALID <==> task == NO_TASK
    ensures !IsSlotId(r.1) ==> r.0 == s
    ensures IsSlotId(r.1) ==> r.0.subscriptions[r.1].task == task
    ensures task != NO_TASK && task in Holders(s.subscriptions) ==> r.0 == s && IsSlotId(r.1)
    ensures task != NO_TASK && task !in Holders(s.subscriptions) ==>
      (r.1 == RDM_EOP_CANNOT_COMPLETE <==>
         s.subscribers == ACTIVE_SUBSCRIPTION_UB || s.buffer.None? || NO_TASK !in Holders(s.subscriptions))
    ensures task != NO_TASK && task !in Holders(s.subscriptions) && IsSlotId(r.1) ==>
      && s.subscriptions[r.1].task == NO_TASK
      && (forall j :: 1 <= j < r.1 ==> s.subscriptions[j].task != NO_TASK)
      && r.0 == s.(subscriptions := s.subscriptions[r.1 := Subscription(false, task)],
                   subscribers := s.subscribers + 1)
    ensures Inv(s) ==> Inv(r.0)
  {
    if task == NO_TASK then (s, RDM_EPARAM_INVALID)
    else
      var existing := FindSlot(s.subscriptions, task, 1);
      if existing != 0 then (s, existing)
      else if s.subscribers == ACTIVE_SUBSCRIPTION_UB || s.buffer.None? then (s, RDM_EOP_CANNOT_COMPLETE)
      else
        var free := FindSlot(s.subscriptions, NO_TASK, 1);
        if free == 0 then (s, RDM_EOP_CANNOT_COMPLETE)
        else
          var r := s.(subscriptions := s.subscriptions[free := Subscription(false, task)],
                      subscribers := s.subscribers + 1);
          assert Inv(s) ==> Inv(r) by {
            if Inv(s) {
              ClaimPreservesInv(s, free, task);
            }
          }
          (r, free)
  }

  /** Claiming a free slot for a new handle keeps the invariant. */
  lemma ClaimPreservesInv(s: Rdm, id: int, task: TaskHandle)
    requires Inv(s) && IsSlotId(id) && s.buffer.Some? && s.subscriptions[id].task == NO_TASK
    requires task != NO_TASK && task !in Holders(s.subscriptions)
    ensures Inv(s.(subscriptions := s.subscriptions[id := Subscription(false, task)],
                   subscribers := s.subscribers + 1))
  {
    var t := s.subscriptions[id := Subscription(false, task)];
    assert OccupiedSlots(t) == OccupiedSlots(s.subscriptions) + {id};
    forall i | 1 <= i <= ACTIVE_SUBSCRIPTION_UB && i != id
      ensures t[i].task != task
    {
      assert s.subscriptions[i].task in Holders(s.subscriptions);
    }
  }

  /**
   * unsubscribe(id): nothing happens for an id outside 1..ACTIVE_SUBSCRIPTION_UB or
   * when the count is zero; otherwise the slot is freed and the count decremented,
   * whether or not the slot was taken. The buffer and its counters are untouched.
   */
  function Unsubscribe(s: Rdm, id: int): (r: Rdm)
    requires WellFormedTable(s.subscriptions)
    ensures !IsSlotId(id) || s.subscribers == 0 ==> r == s
    ensures IsSlotId(id) && s.subscribers > 0 ==>
      && r.subscriptions == s.subscriptions[id := FREE_SLOT]
      && r.subscribers == s.subscribers - 1
    ensures r.buffer == s.buffer && r.head == s.head && r.tail == s.tail && r.samples == s.samples
    ensures r.fillLevel == s.fillLevel && r.buffSize == s.buffSize
    ensures Inv(s) ==> Inv(r)
  {
    if !IsSlotId(id) || s.subscribers == 0 then s
    else
      var r := s.(subscriptions := s.subscriptions[id := FREE_SLOT], subscribers := s.subscribers - 1);
      assert Inv(s) ==> Inv(r) by {
        if Inv(s) {
          assert OccupiedSlots(r.subscriptions) == OccupiedSlots(s.subscriptions) - {id};
        }
      }
      r
  }

  // ---------------------------------------------------------------- ingest, notify, compact

  /** The producer's side of the bargain (xensiv_radar_data_management.h:64-68): it copies no
      more than the room it is offered. */
  predicate ProducerHonest(s: Rdm, p: ProducerReport) {
    s.tail < s.buffSize ==> |p.data| <= s.buffSize - s.tail
  }

  /** The producer's count is taken only when it reports success and stays within the room. */
  predicate ReadAccepted(s: Rdm, p: ProducerReport) {
    s.tail < s.buffSize && p.status >= 0 && p.count <= s.buffSize - s.tail
  }

  /**
   * The ingest step of run: when there is room the producer copies its bytes to
   * buffer + tail; tail and samples advance only on an accepted read.
   */
  function Ingest(s: Rdm, p: ProducerReport): (r: Rdm)
    requires Inv(s) && ProducerHonest(s, p)
    ensures Inv(r)
    ensures r.subscriptions == s.subscriptions && r.subscribers == s.subscribers
    ensures r.fillLevel == s.fillLevel && r.buffSize == s.buffSize && r.head == s.head
    ensures ReadAccepted(s, p) ==> r.tail == s.tail + p.count
    ensures !ReadAccepted(s, p) ==> r.tail == s.tail && r.samples == s.samples
    ensures s.buffer.Some? ==> r.buffer.Some? && |r.buffer.value| == |s.buffer.value|
    ensures s.buffer.Some? ==> r.buffer.value[..s.tail] == s.buffer.value[..s.tail]
    ensures s.tail < s.buffSize ==> r.buffer.value[s.tail..s.tail + |p.data|] == p.data
    ensures s.tail < s.buffSize ==> r.buffer.value[s.tail + |p.data|..] == s.buffer.value[s.tail + |p.data|..]
    ensures s.tail >= s.buffSize ==> r.buffer == s.buffer
  {
    if s.tail < s.buffSize then
      var b := s.buffer.value;
      var written := b[..s.tail] + p.data + b[s.tail + |p.data|..];
      assert written[..s.tail] == b[..s.tail];
      assert written[s.tail..s.tail + |p.data|] == p.data;
      assert written[s.tail + |p.data|..] == b[s.tail + |p.data|..];
      if ReadAccepted(s, p) then
        s.(buffer := Some(written), tail := s.tail + p.count, samples := s.tail + p.count - s.head)
      else
        s.(buffer := Some(written))
    else s
  }

  /** The occupied slot ids in from..ACTIVE_SUBSCRIPTION_UB, ascending (the wake loop's order). */
  function OccupiedFrom(slots: seq<Subscription>, from: nat): (ids: seq<int>)
    requires WellFormedTable(slots) && 1 <= from
    ensures forall k :: 0 <= k < |ids| ==> from <= ids[k] <= ACTIVE_SUBSCRIPTION_UB
    ensures forall k :: 0 <= k < |ids| ==> slots[ids[k]].task != NO_TASK
    decreases ACTIVE_SUBSCRIPTION_UB + 1 - from
  {
    if from > ACTIVE_SUBSCRIPTION_UB then []
    else if slots[from].task != NO_TASK then [from] + OccupiedFrom(slots, from + 1)
    else OccupiedFrom(slots, from + 1)
  }

  /** The slots run wakes after ingesting: every occupied one, once the watermark is reached. */
  function Woken(s: Rdm): (w: seq<int>)
    requires WellFormedTable(s.subscriptions)
    ensures !WatermarkReached(s) ==> w == []
    ensures forall k :: 0 <= k < |w| ==> IsSlotId(w[k]) && s.subscriptions[w[k]].task != NO_TASK
  {
    if WatermarkReached(s) then OccupiedFrom(s.subscriptions, 1) else []
  }

  /** Slots 1..ACTIVE_SUBSCRIPTION_UB with their acknowledgement cleared. */
  function ClearAcks(slots: seq<Subscription>): (r: seq<Subscription>)
    requires WellFormedTable(slots)
    ensures WellFormedTable(r) && r[0] == slots[0]
    ensures forall i :: 1 <= i <= ACTIVE_SUBSCRIPTION_UB ==> r[i] == slots[i].(dataRead := false)
  {
    seq(|slots|, i requires 0 <= i < |slots| =>
      if IsSlotId(i) then slots[i].(dataRead := false) else slots[i])
  }

  /** The compaction is due: the watermark is reached and every occupied slot has acknowledged. */
  predicate CompactionDue(s: Rdm)
    requires WellFormedTable(s.subscriptions)
  {
    WatermarkReached(s) && AllAcknowledged(s.subscriptions)
  }

  /**
   * The queue adjustment of run: once due, head advances by the fill level, the bytes in
   * [head, tail) move to the front, tail shrinks accordingly and every acknowledgement
   * is cleared. `samples` is set to the remaining byte count here; the C code leaves it
   * unchanged (see RunCountersAsWritten in rdm_findings.dfy).
   */
  function Compact(s: Rdm): (r: Rdm)
    requires Inv(s)
    ensures Inv(r)
  {
    if CompactionDue(s) then
      var head := s.head + s.fillLevel;
      var moved :=
        if head > 0 then
          var b := s.buffer.value;
          var sz := s.tail - head;
          s.(buffer := Some(b[head..s.tail] + b[sz..]), tail := sz, head := 0, samples := sz)
        else s.(head := head);
      var r := moved.(subscriptions := ClearAcks(s.subscriptions));
      assert OccupiedSlots(r.subscriptions) == OccupiedSlots(s.subscriptions);
      r
    else s
  }

  /** The closing check of run: a buffer that is full with nothing left unread is cleared. */
  predicate ResetDue(s: Rdm) {
    s.tail == s.buffSize && s.head == s.tail
  }

  function SettleBounds(s: Rdm): (r: Rdm)
    ensures Inv(s) ==> Inv(r)
  {
    if ResetDue(s) then
      s.(tail := 0, head := 0, samples := 0,
         buffer := if s.buffer.Some? then Some(seq(|s.buffer.value|, _ => 0)) else None)
    else s
  }

  /**
   * run(run_from_isr): ingest, wake every occupied slot once the watermark is reached,
   * compact once everyone acknowledged, then the closing bounds check. The flag only
   * selects the wake primitive and has no effect on the state.
   */
  function Run(s: Rdm, p: ProducerReport): (r: RunOutcome)
    requires Inv(s) && ProducerHonest(s, p)
    ensures Inv(r.next) && r.next.head == 0
  {
    var ingested := Ingest(s, p);
    RunOutcome(SettleBounds(Compact(ingested)), Woken(ingested))
  }

  // ---------------------------------------------------------------- consumer side

  /**
   * read_from_buffer(id): -1 for an id outside 1..ACTIVE_SUBSCRIPTION_UB, -2 before the
   * watermark or for a free slot, otherwise the window of fill_level bytes at head.
   */
  function ReadBuffer(s: Rdm, id: int): (r: ReadOutcome)
    requires WellFormedTable(s.subscriptions)
    ensures r.ReadError? ==> r.code == RDM_EPARAM_INVALID || r.code == RDM_EOP_CANNOT_COMPLETE
    ensures r == ReadError(RDM_EPARAM_INVALID) <==> !IsSlotId(id)
    ensures r.Window? <==> IsSlotId(id) && WatermarkReached(s) && s.subscriptions[id].task != NO_TASK
    ensures r.Window? ==> r.offset == s.head && r.size == s.fillLevel
    ensures Inv(s) && r.Window? ==> s.buffer.Some? && r.offset + r.size <= s.tail
  {
    if !IsSlotId(id) then ReadError(RDM_EPARAM_INVALID)
    else if s.samples < s.fillLevel then ReadError(RDM_EOP_CANNOT_COMPLETE)
    else if s.subscriptions[id].task != NO_TASK then
      assert id in OccupiedSlots(s.subscriptions);
      Window(s.head, s.fillLevel)
    else ReadError(RDM_EOP_CANNOT_COMPLETE)
  }

  /** The bytes a successful read exposes. */
  function WindowBytes(s: Rdm, w: ReadOutcome): (bytes: seq<Byte>)
    requires Inv(s) && s.buffer.Some? && w.Window? && w.offset + w.size <= s.buffSize
    ensures |bytes| == w.size
  {
    s.buffer.value[w.offset..w.offset + w.size]
  }

  /** The bytes buffered and not yet released, oldest first: [head, tail). */
  function Unread(s: Rdm): (bytes: seq<Byte>)
    requires Inv(s) && s.buffer.Some?
    ensures |bytes| == s.samples
  {
    s.buffer.value[s.head..s.tail]
  }

  /** ack_data_read(id): marks the slot as having read, free or not; other ids are ignored. */
  function AckDataRead(s: Rdm, id: int): (r: Rdm)
    requires WellFormedTable(s.subscriptions)
    ensures !IsSlotId(id) ==> r == s
    ensures IsSlotId(id) ==> r == s.(subscriptions := s.subscriptions[id := s.subscriptions[id].(dataRead := true)])
    ensures Inv(s) ==> Inv(r)
  {
    if !IsSlotId(id) then s
    else
      var r := s.(subscriptions := s.subscriptions[id := s.subscriptions[id].(dataRead := true)]);
      assert OccupiedSlots(r.subscriptions) == OccupiedSlots(s.subscriptions);
      r
  }

  // ---------------------------------------------------------------- configuration and lifecycle

  /** The int32 argument of set_fill_level as the uint32 it is compared and stored as. */
  function AsUnsigned(x: i32): (u: u32)
    ensures x >= 0 ==> u == x
    ensures x < 0 ==> u == x + U32_LIMIT
  {
    if x < 0 then x + U32_LIMIT else x
  }

  /** The uint32 fill level as the int32 get_fill_level returns. */
  function AsSigned(u: u32): (x: i32)
    ensures (x as int) % U32_LIMIT == u
  {
    if u < I32_LIMIT then u else u - U32_LIMIT
  }

  /** set_fill_level(level): accepted exactly when level, read as uint32, lies in 1..buff_size. */
  function SetFillLevel(s: Rdm, level: i32): (r: (Rdm, int))
    ensures r.1 == RDM_SUCCESS || r.1 == RDM_EPARAM_INVALID
    ensures r.1 == RDM_SUCCESS <==> 1 <= AsUnsigned(level) <= s.buffSize
    ensures r.1 == RDM_SUCCESS ==> r.0 == s.(fillLevel := AsUnsigned(level))
    ensures r.1 != RDM_SUCCESS ==> r.0 == s
    ensures Inv(s) ==> Inv(r.0)
  {
    var u := AsUnsigned(level);
    if u == 0 || u > s.buffSize then (s, RDM_EPARAM_INVALID)
    else (s.(fillLevel := u), RDM_SUCCESS)
  }

  /** get_fill_level(): the stored level, cast to int32. */
  function GetFillLevel(s: Rdm): (level: i32)
    ensures (level as int) % U32_LIMIT == s.fillLevel
    ensures s.fillLevel < I32_LIMIT ==> level == s.fillLevel
  {
    AsSigned(s.fillLevel)
  }

  /** set_malloc_free(m, f): both hooks are stored as given. */
  function SetMallocFree(s: Rdm, m: Allocator, f: Allocator): (r: Rdm)
    ensures r.mallocFunc == m && r.freeFunc == f
    ensures r.(mallocFunc := s.mallocFunc, freeFunc := s.freeFunc) == s
    ensures Inv(s) ==> Inv(r)
  {
    s.(mallocFunc := m, freeFunc := f)
  }

  /**
   * init(interface, size, fill): -2 when already initialised (checked first); -1 for a NULL
   * interface, a zero size or fill level, or fill > size; the hooks fall back to the
   * standard pair when either is unset; -2 when allocation fails; otherwise a zeroed
   * buffer of `size` bytes and all counters zero.
   */
  function Init(s: Rdm, interfaceGiven: bool, size: u32, fill: u32, allocationSucceeds: bool): (r: (Rdm, int))
    ensures IsReturnCode(r.1)
    ensures s.buffer.Some? ==> r == (s, RDM_EOP_CANNOT_COMPLETE)
    ensures s.buffer.None? ==>
      (r.1 == RDM_EPARAM_INVALID <==> !interfaceGiven || size == 0 || fill == 0 || fill > size)
    ensures r.1 != RDM_SUCCESS ==> r.0.buffer == s.buffer && r.0.subscriptions == s.subscriptions
    ensures r.1 == RDM_EPARAM_INVALID ==> r.0 == s
    ensures r.1 == RDM_EOP_CANNOT_COMPLETE ==> r.0 == s.(mallocFunc := r.0.mallocFunc, freeFunc := r.0.freeFunc)
    ensures r.1 == RDM_SUCCESS ==>
      && s.buffer.None? && allocationSucceeds
      && r.0.buffer == Some(seq(size, _ => 0))
      && r.0.buffSize == size && r.0.fillLevel == fill
      && r.0.head == 0 && r.0.tail == 0 && r.0.samples == 0 && r.0.subscribers == 0
      && r.0.subscriptions == s.subscriptions
    ensures s.buffer.None? && interfaceGiven && 0 < fill <= size ==>
      (r.1 == RDM_SUCCESS <==> allocationSucceeds) &&
      if s.mallocFunc == Unset || s.freeFunc == Unset
      then r.0.mallocFunc == Standard && r.0.freeFunc == Standard
      else r.0.mallocFunc == s.mallocFunc && r.0.freeFunc == s.freeFunc
    ensures Inv(s) ==> Inv(r.0)
  {
    if s.buffer.Some? then (s, RDM_EOP_CANNOT_COMPLETE)
    else if !interfaceGiven || size == 0 || fill == 0 || fill > size then (s, RDM_EPARAM_INVALID)
    else
      var hooked :=
        if s.mallocFunc == Unset || s.freeFunc == Unset then s.(mallocFunc := Standard, freeFunc := Standard)
        else s;
      if !allocationSucceeds then (hooked, RDM_EOP_CANNOT_COMPLETE)
      else
        (hooked.(buffer := Some(seq(size, _ => 0)), fillLevel := fill, buffSize := size,
                 samples := 0, subscribers := 0, head := 0, tail := 0), RDM_SUCCESS)
  }

  /** deinit(): -2 while the count is positive or nothing is allocated; otherwise the
      buffer is released and the whole struct zeroed, hooks included. */
  function Deinit(s: Rdm): (r: (Rdm, int))
    ensures r.1 == RDM_SUCCESS || r.1 == RDM_EOP_CANNOT_COMPLETE
    ensures r.1 == RDM_EOP_CANNOT_COMPLETE <==> s.subscribers > 0 || s.buffer.None?
    ensures r.1 == RDM_EOP_CANNOT_COMPLETE ==> r.0 == s
    ensures r.1 == RDM_SUCCESS ==> r.0 == Zeroed()
    ensures Inv(r.0) || r.0 == s
  {
    if s.subscribers > 0 || s.buffer.None? then (s, RDM_EOP_CANNOT_COMPLETE)
    else
      assert OccupiedSlots(Zeroed().subscriptions) == {};
      (Zeroed(), RDM_SUCCESS)
  }
}
