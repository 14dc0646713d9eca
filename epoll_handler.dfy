/** `epoll_handler` (src/epoll-handler.cpp): the registration table, the list
    of registered events, the readiness buffer, the stop flag and the
    multiplexing context. The kernel's answers to `epoll_create1`,
    `epoll_ctl` and `epoll_wait` are inputs of the methods. */
module EpollHandlers {
  import opened Epoll
  import opened FdHandlers
  import opened Dispatch

  datatype Option<T> = None | Some(value: T)

  /** The number of slots `calloc(max_events, sizeof (struct epoll_event))`
      provides: none for a count that is not positive. */
  function Capacity(maxEvents: int): nat {
    if maxEvents > 0 then maxEvents else 0
  }

  class EpollHandler {
    var finishFlag: bool
    const maxEvents: int
    /** The `epoll_wait` timeout in milliseconds; passed to the kernel only. */
    const eventCheck: int
    /** The readiness buffer that every wait overwrites. */
    const events: array<Event>
    /** The descriptor `epoll_create1` returned (-1 if it failed). */
    const efd: int
    /** How many times `close` has been called on `efd`. */
    var efdCloses: nat
    /** The registration table. */
    var data: Table
    /** `event_list`: every event registered so far, in order. */
    var eventList: seq<Event>

    ghost predicate Valid()
      reads this
    {
      events.Length == Capacity(maxEvents)
    }

    /** `created` is what `epoll_create1(0)` returned. */
    constructor (maxEvents: int, eventCheck: int, created: int)
      ensures Valid() && fresh(events)
      ensures !finishFlag
      ensures this.maxEvents == maxEvents && this.eventCheck == eventCheck
      ensures events.Length == Capacity(maxEvents)
      ensures forall i :: 0 <= i < events.Length ==> events[i] == ZeroEvent
      ensures efd == created && efdCloses == 0
      ensures data == map[] && eventList == []
    {
      finishFlag := false;
      this.maxEvents := maxEvents;
      this.eventCheck := eventCheck;
      events := new Event[Capacity(maxEvents)](_ => ZeroEvent);
      efd := created;
      efdCloses := 0;
      data := map[];
      eventList := [];
    }

    /** `register_event(fd, cb)`; `ctlOk` says whether `epoll_ctl(efd,
        EPOLL_CTL_ADD, ...)` succeeded. The reference must lock to a live
        handle (`alive` is the set of handles that exist). On success the
        table maps the handle's descriptor to `fd`, whatever it held before,
        the handle's callback slot holds `cb`, and the new event is appended
        to `eventList` and returned. On failure nothing is registered and
        `efd` is closed twice. */
    method RegisterEvent(fd: WeakRef, cb: Callback, ctlOk: bool, ghost alive: set<FdHandler>)
      returns (ev: Option<Event>)
      requires !fd.Expired(alive)
      modifies this`data, this`eventList, this`efdCloses, fd.target`callback
      ensures ctlOk ==>
        && ev == Some(Event(fd.target.interest, fd.target.fd))
        && data == old(data)[fd.target.fd := fd]
        && data.Keys == old(data).Keys + {fd.target.fd}
        && (forall k :: k in old(data) && k != fd.target.fd ==> data[k] == old(data)[k])
        && fd.target.callback == cb
        && eventList == old(eventList) + [ev.value]
        && efdCloses == old(efdCloses)
      ensures !ctlOk ==>
        && ev == None
        && data == old(data)
        && eventList == old(eventList)
        && fd.target.callback == old(fd.target.callback)
        && efdCloses == old(efdCloses) + 2
    {
      var handler := fd.target;
      var e := Event(handler.interest, handler.fd);
      if !ctlOk {
        CloseEfd();  // close (this->efd)
        CloseEfd();  // close (efd)
        return None;
      }
      // Both the overwrite and the insert branch leave `fd` under this key.
      data := data[handler.fd := fd];
      handler.callback := cb;
      eventList := eventList + [e];
      return Some(e);
    }

    /** `listen_loop` over the finite sequence `outcomes` of wait results.
        It computes exactly `Run`: the final table, flag, buffer, the
        callbacks run in order and the number of waits, and it closes `efd`
        once when, and only when, it stops on a failed wait. */
    method ListenLoop(outcomes: seq<WaitOutcome>) returns (calls: seq<Invocation>, exit: Exit, ghost cycles: nat)
      requires Valid() && AllFit(outcomes, Capacity(maxEvents))
      modifies this`data, this`finishFlag, this`efdCloses, events
      ensures Valid()
      ensures RunResult(data, finishFlag, events[..], calls, cycles, exit)
              == Run(old(data), old(finishFlag), old(events[..]), outcomes, old(SlotsOf(AllAlive(outcomes))))
      ensures efdCloses == old(efdCloses) + (if exit == WaitFailed then 1 else 0)
    {
      assert AllFit(outcomes, events.Length) && outcomes[0..] == outcomes;
      ghost var slots := SlotsOf(AllAlive(outcomes));
      ghost var total := Run(data, finishFlag, events[..], outcomes, slots);
      calls := [];
      var i := 0;
      while i < |outcomes|
        invariant 0 <= i <= |outcomes|
        invariant efdCloses == old(efdCloses)
        invariant AllFit(outcomes[i..], events.Length) && Within(outcomes[i..], slots.Keys)
        invariant total == Resume(calls, i, Run(data, finishFlag, events[..], outcomes[i..], slots))
        decreases |outcomes| - i
      {
        match outcomes[i]
        case Failed =>
          RunAfterFailed(calls, data, finishFlag, events[..], outcomes, i, slots);
          CloseEfd();  // close (this->efd)
          exit, cycles := WaitFailed, i + 1;
          return;
        case Ready(es, alive) =>
          ghost var d := DispatchBatch(data, es, alive, slots);
          RunAfterReady(calls, data, finishFlag, events[..], outcomes, i, slots,
                        es + events[..][|es|..], d);
          var batch := Cycle(es, alive, slots);
          calls := calls + batch;
          if finishFlag {
            exit, cycles := Stopped, i + 1;
            return;
          }
        i := i + 1;
      }
      exit, cycles := Exhausted, i;
    }

    /** One successful wait cycle: the kernel fills the buffer with `es`,
        then the entries are dispatched. */
    method Cycle(es: seq<Event>, alive: set<FdHandler>, ghost slots: Slots) returns (batch: seq<Invocation>)
      requires |es| <= events.Length
      requires alive <= slots.Keys && forall h :: h in slots ==> slots[h] == h.callback
      modifies events, this`data, this`finishFlag
      ensures events[..] == es + old(events[..])[|es|..]
      ensures data == DispatchBatch(old(data), es, alive, slots).table
      ensures batch == DispatchBatch(old(data), es, alive, slots).calls
      ensures finishFlag == (old(finishFlag) || DispatchBatch(old(data), es, alive, slots).finished)
    {
      ReceiveBatch(es);
      assert events[..|es|] == es;
      batch := DispatchEvents(|es|, alive, slots);
    }

    /** The `for` loop of `listen_loop` over `events[0..nfds)`: each entry's
        descriptor is looked up with `operator[]`, an expired reference is
        skipped, and a live handle's callback is run with the entry's mask;
        a callback may raise the stop flag. */
    method DispatchEvents(nfds: nat, alive: set<FdHandler>, ghost slots: Slots) returns (batch: seq<Invocation>)
      requires nfds <= events.Length
      requires alive <= slots.Keys && forall h :: h in slots ==> slots[h] == h.callback
      modifies this`data, this`finishFlag
      ensures data == DispatchBatch(old(data), events[..nfds], alive, slots).table
      ensures batch == DispatchBatch(old(data), events[..nfds], alive, slots).calls
      ensures finishFlag == (old(finishFlag) || DispatchBatch(old(data), events[..nfds], alive, slots).finished)
    {
      ghost var t0, f0 := data, finishFlag;
      ghost var d := BatchState(t0, [], false);
      batch := [];
      for n := 0 to nfds
        invariant d == DispatchBatch(t0, events[..n], alive, slots)
        invariant data == d.table && batch == d.calls
        invariant finishFlag == (f0 || d.finished)
      {
        assert events[..n + 1][..n] == events[..n];
        d := Step(d, events[n], alive, slots);
        var e := events[n];
        if e.fd !in data {
          data := data[e.fd := Empty];  // operator[] inserts a default weak_ptr
        }
        if data[e.fd].Expired(alive) {
          continue;
        }
        var handler := data[e.fd].target;
        batch := batch + [Invocation(handler, handler.callback, e.events)];
        if handler.callback.callsFinish {
          Finish();
        }
      }
    }

    /** The effect of a successful `epoll_wait` on the buffer: the kernel
        writes the `nfds` ready entries to its first slots and leaves the
        others as they were. */
    method ReceiveBatch(es: seq<Event>)
      requires |es| <= events.Length
      modifies events
      ensures events[..] == es + old(events[..])[|es|..]
    {
      forall k | 0 <= k < |es| {
        events[k] := es[k];
      }
    }

    /** `close(efd)`: the model keeps only the number of calls. */
    method CloseEfd()
      modifies this`efdCloses
      ensures efdCloses == old(efdCloses) + 1
    {
      efdCloses := efdCloses + 1;
    }

    /** `finish()`: raises the stop flag and touches nothing else. */
    method Finish()
      modifies this`finishFlag
      ensures finishFlag
    {
      finishFlag := true;
    }
  }
}
