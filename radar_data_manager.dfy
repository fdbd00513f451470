/**
 * The Radar Data Manager as one object whose fields are those of the `manager` struct,
 * updated in place by each public operation. Each method is proved to leave the object
 * in the state the matching function of RadarDataManagement computes from the old
 * state, and to keep Valid(). Like that model, the queue adjustment recomputes
 * `samples`, which the C code does not (see rdm_findings.dfy).
 */
module DataManager {
  import opened Wrappers
  import opened RadarDataManagement

  class RadarDataManager {
    var buffer: array?<Byte>
    var buffSize: u32
    var samples: u32
    var head: u32
    var tail: u32
    var fillLevel: u32
    var subscribers: nat
    /** The subscription table; entry 0 is never used. */
    const subscriptions: array<Subscription>
    var mallocFunc: Allocator
    var freeFunc: Allocator

    /** The manager's state as a value. */
    function Model(): Rdm
      reads this, buffer, subscriptions
    {
      Rdm(if buffer == null then None else Some(buffer[..]),
          buffSize, samples, head, tail, fillLevel, subscribers,
          subscriptions[..], mallocFunc, freeFunc)
    }

    ghost predicate Valid()
      reads this, buffer, subscriptions
    {
      Inv(Model())
    }

    /** The static, zero-initialised struct before the first init. */
    constructor ()
      ensures Valid() && Model() == Zeroed()
    {
      buffer := null;
      buffSize, samples, head, tail, fillLevel := 0, 0, 0, 0, 0;
      subscribers := 0;
      subscriptions := new Subscription[ACTIVE_SUBSCRIPTION_UB + 1](_ => FREE_SLOT);
      mallocFunc, freeFunc := Unset, Unset;
      new;
      assert subscriptions[..] == Zeroed().subscriptions;
    }

    /** radar_data_manager_subscribe: the two scans of the table, as in the C code. */
    method Subscribe(task: TaskHandle) returns (id: int)
      requires Valid()
      modifies this, subscriptions
      ensures (Model(), id) == RadarDataManagement.Subscribe(old(Model()), task)
      ensures Valid() && buffer == old(buffer)
    {
      ghost var m := Model();
      if task == NO_TASK {
        return RDM_EPARAM_INVALID;
      }
      var subs := 1;
      while subs <= ACTIVE_SUBSCRIPTION_UB
        invariant 1 <= subs <= ACTIVE_SUBSCRIPTION_UB + 1
        invariant forall j :: 1 <= j < subs ==> subscriptions[j].task != task
      {
        if subscriptions[subs].task == task {
          return subs;
        }
        subs := subs + 1;
      }
      assert FindSlot(m.subscriptions, task, 1) == 0;
      if subscribers == ACTIVE_SUBSCRIPTION_UB || buffer == null {
        return RDM_EOP_CANNOT_COMPLETE;
      }
      subs := 1;
      while subs <= ACTIVE_SUBSCRIPTION_UB
        invariant 1 <= subs <= ACTIVE_SUBSCRIPTION_UB + 1
        invariant forall j :: 1 <= j < subs ==> subscriptions[j].task != NO_TASK
        invariant Model() == m
      {
        if subscriptions[subs].task == task {
          return subs;
        }
        if subscriptions[subs].task == NO_TASK {
          assert FindSlot(m.subscriptions, NO_TASK, 1) == subs;
          subscriptions[subs] := Subscription(false, task);
          subscribers := subscribers + 1;
          assert subscriptions[..] == m.subscriptions[subs := Subscription(false, task)];
          return subs;
        }
        subs := subs + 1;
      }
      assert FindSlot(m.subscriptions, NO_TASK, 1) == 0;
      return RDM_EOP_CANNOT_COMPLETE;
    }

    /** radar_data_manager_unsubscribe. */
    method Unsubscribe(id: int)
      requires Valid()
      modifies this, subscriptions
      ensures Model() == RadarDataManagement.Unsubscribe(old(Model()), id)
      ensures Valid() && buffer == old(buffer)
    {
      if id <= 0 || id > ACTIVE_SUBSCRIPTION_UB || subscribers == 0 {
        return;
      }
      subscriptions[id] := FREE_SLOT;
      subscribers := subscribers - 1;
    }

    /**
     * radar_data_manager_run. The producer callback is replaced by what it did: `report`
     * gives its return value, its reported count and the bytes it copied. The result
     * lists the slots whose tasks were notified, in order; `runFromIsr` only chooses the
     * notification primitive.
     */
    method Run(runFromIsr: bool, report: ProducerReport) returns (woken: seq<int>)
      requires Valid() && ProducerHonest(Model(), report)
      modifies this, buffer, subscriptions
      ensures RunOutcome(Model(), woken) == RadarDataManagement.Run(old(Model()), report)
      ensures Valid() && buffer == old(buffer)
    {
      IngestReport(report);
      woken := [];
      if samples >= fillLevel {
        woken := NotifySubscribers();
        var adjustQueue := AllRead();
        if adjustQueue {
          AdjustQueue();
        }
      }
      // head is 0 here, so the closing bounds check is taken only while buff_size == 0,
      // when there is no buffer for the memset to clear
      if tail == buffSize && head == tail {
        tail := 0;
        head := 0;
        samples := 0;
      }
    }

    /** The first step of run: the producer's bytes land at buffer + tail; tail and
        samples advance only when its report is accepted. */
    method IngestReport(report: ProducerReport)
      requires Valid() && ProducerHonest(Model(), report)
      modifies this, buffer
      ensures Model() == Ingest(old(Model()), report)
      ensures Valid() && buffer == old(buffer)
    {
      ghost var m := Model();
      if tail < buffSize {
        var room := buffSize - tail;
        forall i | 0 <= i < |report.data| {
          buffer[tail + i] := report.data[i];
        }
        assert buffer[..] == m.buffer.value[..tail] + report.data + m.buffer.value[tail + |report.data|..];
        if report.status >= 0 {
          if report.count <= room {
            tail := tail + report.count;
            samples := tail - head;
          }
        }
      }
    }

    /** The wake loop of run: every occupied slot, in ascending order. */
    method NotifySubscribers() returns (woken: seq<int>)
      requires Valid()
      ensures woken == OccupiedFrom(Model().subscriptions, 1)
    {
      ghost var slots := subscriptions[..];
      woken := [];
      var sub := 1;
      while sub <= ACTIVE_SUBSCRIPTION_UB
        invariant 1 <= sub <= ACTIVE_SUBSCRIPTION_UB + 1
        invariant woken + OccupiedFrom(slots, sub) == OccupiedFrom(slots, 1)
      {
        assert subscriptions[sub] == slots[sub];
        if subscriptions[sub].task != NO_TASK {
          assert OccupiedFrom(slots, sub) == [sub] + OccupiedFrom(slots, sub + 1);
          woken := woken + [sub];
        }
        sub := sub + 1;
      }
    }

    /** The acknowledgement scan of run: whether every occupied slot has read. */
    method AllRead() returns (adjustQueue: bool)
      requires Valid()
      ensures adjustQueue == AllAcknowledged(Model().subscriptions)
    {
      adjustQueue := true;
      var sub := 1;
      while sub <= ACTIVE_SUBSCRIPTION_UB
        invariant 1 <= sub <= ACTIVE_SUBSCRIPTION_UB + 1
        invariant adjustQueue <==> forall j :: 1 <= j < sub && subscriptions[j].task != NO_TASK ==> subscriptions[j].dataRead
      {
        if subscriptions[sub].task != NO_TASK && !subscriptions[sub].dataRead {
          adjustQueue := false;
        }
        sub := sub + 1;
      }
    }

    /** The queue adjustment of run, once every subscriber has read: the unread bytes move
        to the front and all acknowledgements are cleared. */
    method AdjustQueue()
      requires Valid() && CompactionDue(Model())
      modifies this, buffer, subscriptions
      ensures Model() == Compact(old(Model()))
      ensures Valid() && buffer == old(buffer)
    {
      ghost var m := Model();
      head := head + fillLevel;
      if head > 0 {
        var sz := tail - head;
        MoveToFront(head);
        tail := sz;
        head := 0;
        samples := sz;
      }
      ClearAcknowledgements();
      assert Model() == Compact(m);
    }

    /** The memcpy of the queue adjustment: the bytes in [from, tail) move to the front;
        the rest of the buffer is left as it was. */
    method MoveToFront(from: u32)
      requires buffer != null && from <= tail <= buffer.Length
      modifies buffer
      ensures buffer[..] == old(buffer[..])[from..tail] + old(buffer[..])[tail - from..]
    {
      forall i | 0 <= i < tail - from {
        buffer[i] := buffer[from + i];
      }
    }

    /** Every slot's acknowledgement cleared, the tasks kept. */
    method ClearAcknowledgements()
      requires subscriptions.Length == ACTIVE_SUBSCRIPTION_UB + 1
      modifies subscriptions
      ensures subscriptions[..] == ClearAcks(old(subscriptions[..]))
    {
      var sub := 1;
      while sub <= ACTIVE_SUBSCRIPTION_UB
        invariant 1 <= sub <= ACTIVE_SUBSCRIPTION_UB + 1
        invariant forall j :: 1 <= j < sub ==> subscriptions[j] == old(subscriptions[j]).(dataRead := false)
        invariant forall j :: sub <= j <= ACTIVE_SUBSCRIPTION_UB || j == 0 ==> subscriptions[j] == old(subscriptions[j])
      {
        if subscriptions[sub].dataRead {
          subscriptions[sub] := subscriptions[sub].(dataRead := false);
        }
        sub := sub + 1;
      }
    }

    /** radar_data_manager_read_buffer: the window a woken subscriber may read, which
        holds the oldest fill_level unread bytes of the array. */
    method ReadBuffer(id: int) returns (r: ReadOutcome)
      requires Valid()
      ensures r == RadarDataManagement.ReadBuffer(Model(), id)
      ensures r.Window? ==> buffer != null && r.offset == head && r.size == fillLevel
      ensures r.Window? ==> buffer[head..head + fillLevel] == Unread(Model())[..fillLevel]
    {
      if id <= 0 || id > ACTIVE_SUBSCRIPTION_UB {
        return ReadError(RDM_EPARAM_INVALID);
      }
      if samples < fillLevel {
        return ReadError(RDM_EOP_CANNOT_COMPLETE);
      }
      if subscriptions[id].task != NO_TASK {
        r := Window(head, fillLevel);
      } else {
        return ReadError(RDM_EOP_CANNOT_COMPLETE);
      }
    }

    /** radar_data_manager_ack_data_read. */
    method AckDataRead(id: int)
      requires Valid()
      modifies subscriptions
      ensures Model() == RadarDataManagement.AckDataRead(old(Model()), id)
      ensures Valid()
    {
      if id <= 0 || id > ACTIVE_SUBSCRIPTION_UB {
        return;
      }
      subscriptions[id] := subscriptions[id].(dataRead := true);
    }

    /** radar_data_manager_set_fill_level. */
    method SetFillLevel(level: i32) returns (code: int)
      requires Valid()
      modifies this
      ensures (Model(), code) == RadarDataManagement.SetFillLevel(old(Model()), level)
      ensures Valid() && buffer == old(buffer)
    {
      var unsigned := if level < 0 then level + U32_LIMIT else level;
      if unsigned == 0 || unsigned > buffSize {
        return RDM_EPARAM_INVALID;
      }
      fillLevel := unsigned;
      return RDM_SUCCESS;
    }

    /** radar_data_manager_get_fill_level: the stored level, read back as int32. */
    method GetFillLevel() returns (level: i32)
      requires Valid()
      ensures level == RadarDataManagement.GetFillLevel(Model())
      ensures fillLevel < I32_LIMIT ==> level == fillLevel
    {
      level := if fillLevel < I32_LIMIT then fillLevel else fillLevel - U32_LIMIT;
    }

    /** radar_data_manager_set_malloc_free. */
    method SetMallocFree(m: Allocator, f: Allocator)
      requires Valid()
      modifies this
      ensures Model() == RadarDataManagement.SetMallocFree(old(Model()), m, f)
      ensures Valid() && buffer == old(buffer)
    {
      mallocFunc := m;
      freeFunc := f;
    }

    /**
     * radar_data_manager_init. `interfaceGiven` is false for a NULL interface pointer;
     * `allocationSucceeds` is whether the allocation hook returns memory.
     */
    method Init(interfaceGiven: bool, size: u32, fill: u32, allocationSucceeds: bool) returns (code: int)
      requires Valid()
      modifies this
      ensures (Model(), code) == RadarDataManagement.Init(old(Model()), interfaceGiven, size, fill, allocationSucceeds)
      ensures Valid()
      ensures code == RDM_SUCCESS ==> fresh(buffer)
      ensures code != RDM_SUCCESS ==> buffer == old(buffer)
    {
      if buffer != null {
        return RDM_EOP_CANNOT_COMPLETE;
      }
      if !interfaceGiven || size == 0 || fill == 0 || fill > size {
        return RDM_EPARAM_INVALID;
      }
      if mallocFunc == Unset || freeFunc == Unset {
        mallocFunc := Standard;
        freeFunc := Standard;
      }
      ghost var hooked := Model();
      if !allocationSucceeds {
        return RDM_EOP_CANNOT_COMPLETE;
      }
      var storage := AllocateZeroed(size);
      ghost var zeros := storage[..];
      buffer := storage;
      fillLevel := fill;
      buffSize := size;
      samples := 0;
      subscribers := 0;
      head := 0;
      tail := 0;
      assert Model() == hooked.(buffer := Some(zeros), fillLevel := fill, buffSize := size,
                                samples := 0, subscribers := 0, head := 0, tail := 0);
      return RDM_SUCCESS;
    }

    /** The allocation of init followed by its memset of the whole buffer. */
    static method AllocateZeroed(size: u32) returns (storage: array<Byte>)
      ensures fresh(storage) && storage[..] == seq(size, _ => 0)
    {
      storage := new Byte[size];
      forall i | 0 <= i < size {
        storage[i] := 0;
      }
    }

    /** radar_data_manager_deinit: refuses while subscribed or uninitialised, else
        releases the buffer and zeroes the whole struct. */
    method Deinit() returns (code: int)
      requires Valid()
      modifies this, subscriptions
      ensures (Model(), code) == RadarDataManagement.Deinit(old(Model()))
      ensures Valid()
    {
      if subscribers > 0 || buffer == null {
        return RDM_EOP_CANNOT_COMPLETE;
      }
      buffer := null;
      buffSize, samples, head, tail, fillLevel := 0, 0, 0, 0, 0;
      subscribers := 0;
      forall i | 0 <= i < subscriptions.Length {
        subscriptions[i] := FREE_SLOT;
      }
      mallocFunc, freeFunc := Unset, Unset;
      assert subscriptions[..] == Zeroed().subscriptions;
      return RDM_SUCCESS;
    }
  }
}
