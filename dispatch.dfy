/** The wait/dispatch cycle of `epoll_handler::listen_loop` as functions on
    values, with what they guarantee. The class in module EpollHandlers is
    proved to compute exactly these functions. */
module Dispatch {
  import opened Epoll
  import opened FdHandlers

  /** The registration table `data`: raw descriptor number to a non-owning
      reference to the handle registered for it. */
  type Table = map<int, WeakRef>

  /** What one call of `epoll_wait` returned: -1, or `nfds >= 0` ready
      entries. `alive` is the set of descriptor handles that still exist
      while this batch is dispatched; the environment supplies it. */
  datatype WaitOutcome =
    | Failed
    | Ready(entries: seq<Event>, alive: set<FdHandler>)
  {
    /** What the kernel guarantees of a wait into a buffer of `capacity`
        slots: it never reports more entries than there are slots, and with
        no slot at all (`maxevents <= 0`) it can only fail. */
    predicate Fits(capacity: nat) {
      Ready? ==> 0 < capacity && |entries| <= capacity
    }
  }

  predicate AllFit(outs: seq<WaitOutcome>, capacity: nat) {
    forall i :: 0 <= i < |outs| ==> outs[i].Fits(capacity)
  }

  /** The content of the callback slot of each handle the loop may meet. The
      loop never writes a slot, so one snapshot serves a whole run. */
  type Slots = map<FdHandler, Callback>

  /** Every batch of `outs` reports only handles of `hs` as alive. */
  predicate Within(outs: seq<WaitOutcome>, hs: set<FdHandler>) {
    forall i :: 0 <= i < |outs| && outs[i].Ready? ==> outs[i].alive <= hs
  }

  /** Every handle that some batch of `outs` reports as alive. */
  function AllAlive(outs: seq<WaitOutcome>): (hs: set<FdHandler>)
    ensures Within(outs, hs)
    decreases |outs|
  {
    if outs == [] then {}
    else (if outs[0].Ready? then outs[0].alive else {}) + AllAlive(outs[1..])
  }

  /** What the callback slots of the handles `hs` hold now. */
  function SlotsOf(hs: set<FdHandler>): (s: Slots)
    reads hs
  {
    map h | h in hs :: h.callback
  }

  /** One run of a callback: the handle it receives, the callback found in
      the handle's slot, and the readiness mask `events[n].events`. */
  datatype Invocation = Invocation(handler: FdHandler, cb: Callback, mask: u32)

  /** `data[fd]` through `std::map::operator[]`, which inserts a
      default-constructed (empty) weak reference when `fd` has no entry. */
  function Touch(t: Table, fd: int): (r: Table)
    ensures fd in r
  {
    if fd in t then t else t[fd := Empty]
  }

  /** `t` holds an entry for `fd` whose handle still exists. */
  predicate Live(t: Table, alive: set<FdHandler>, fd: int) {
    fd in t && !t[fd].Expired(alive)
  }

  /** Where the dispatch of one batch stands: the table, the callbacks run so
      far, and whether one of them called `finish()`. */
  datatype BatchState = BatchState(table: Table, calls: seq<Invocation>, finished: bool)

  /** One iteration of the `for` loop over the ready entries: look the
      descriptor up (inserting an empty entry if it is missing), skip it if
      its reference has expired, otherwise run the handle's callback. */
  function Step(s: BatchState, e: Event, alive: set<FdHandler>, slots: Slots): BatchState
    requires alive <= slots.Keys
  {
    var t := Touch(s.table, e.fd);
    var w := t[e.fd];
    if w.Expired(alive) then s.(table := t)
    else
      var h := w.target;
      BatchState(t, s.calls + [Invocation(h, slots[h], e.events)],
                 s.finished || slots[h].callsFinish)
  }

  /** The dispatch of the entries `es` of one batch, in buffer order. */
  function DispatchBatch(t: Table, es: seq<Event>, alive: set<FdHandler>, slots: Slots): BatchState
    requires alive <= slots.Keys
    decreases |es|
  {
    if es == [] then BatchState(t, [], false)
    else Step(DispatchBatch(t, es[..|es| - 1], alive, slots), es[|es| - 1], alive, slots)
  }

  /** Why the loop returned: the wait failed, the stop flag was seen after a
      batch, or the finite sequence of wait results ran out. */
  datatype Exit = WaitFailed | Stopped | Exhausted

  /** The state the loop leaves behind: table, stop flag, buffer contents,
      every callback run (in order), the number of waits issued, and why it
      returned. */
  datatype RunResult = RunResult(table: Table, flag: bool, buffer: seq<Event>,
                                 calls: seq<Invocation>, cycles: nat, exit: Exit)

  /** `listen_loop` over the wait results `outs`, from table `t`, stop flag
      `flag` and buffer contents `buffer`. A failed wait ends the loop
      before any dispatch; a successful one overwrites the first `nfds`
      slots of the buffer, dispatches them all, and only then tests the
      flag. */
  function Run(t: Table, flag: bool, buffer: seq<Event>, outs: seq<WaitOutcome>, slots: Slots): RunResult
    requires AllFit(outs, |buffer|) && Within(outs, slots.Keys)
    decreases |outs|
  {
    if outs == [] then RunResult(t, flag, buffer, [], 0, Exhausted)
    else match outs[0]
      case Failed => RunResult(t, flag, buffer, [], 1, WaitFailed)
      case Ready(es, alive) =>
        var b := es + buffer[|es|..];
        var d := DispatchBatch(t, es, alive, slots);
        if flag || d.finished then RunResult(d.table, true, b, d.calls, 1, Stopped)
        else
          var r := Run(d.table, false, b, outs[1..], slots);
          r.(calls := d.calls + r.calls, cycles := r.cycles + 1)
  }

  /** `r` as seen from the start of a loop that had already issued `waits`
      waits and run the callbacks `done` before reaching it. */
  function Resume(done: seq<Invocation>, waits: nat, r: RunResult): RunResult {
    r.(calls := done + r.calls, cycles := waits + r.cycles)
  }

  /** A loop that has issued `i` waits and run the callbacks `done`, and
      whose next wait fails, ends there without dispatching. */
  lemma RunAfterFailed(done: seq<Invocation>, t: Table, flag: bool, buffer: seq<Event>,
                       outs: seq<WaitOutcome>, i: nat, slots: Slots)
    requires i < |outs| && outs[i].Failed?
    requires AllFit(outs[i..], |buffer|) && Within(outs[i..], slots.Keys)
    ensures Resume(done, i, Run(t, flag, buffer, outs[i..], slots))
            == RunResult(t, flag, buffer, done, i + 1, WaitFailed)
  {
    assert outs[i..][0] == outs[i];
    assert done + [] == done;
  }

  /** The same loop when its next wait succeeds, leaving the buffer `b` and
      a dispatch that ends in `d`: it stops if the flag is up afterwards and
      otherwise goes on with the remaining wait results. */
  lemma RunAfterReady(done: seq<Invocation>, t: Table, flag: bool, buffer: seq<Event>,
                      outs: seq<WaitOutcome>, i: nat, slots: Slots, b: seq<Event>, d: BatchState)
    requires i < |outs| && outs[i].Ready?
    requires AllFit(outs[i..], |buffer|) && Within(outs[i..], slots.Keys)
    requires b == outs[i].entries + buffer[|outs[i].entries|..]
    requires d == DispatchBatch(t, outs[i].entries, outs[i].alive, slots)
    ensures |b| == |buffer| && AllFit(outs[i + 1..], |b|) && Within(outs[i + 1..], slots.Keys)
    ensures flag || d.finished ==>
      Resume(done, i, Run(t, flag, buffer, outs[i..], slots))
      == RunResult(d.table, true, b, done + d.calls, i + 1, Stopped)
    ensures !(flag || d.finished) ==>
      Resume(done, i, Run(t, flag, buffer, outs[i..], slots))
      == Resume(done + d.calls, i + 1, Run(d.table, false, b, outs[i + 1..], slots))
  {
    assert outs[i..][0] == outs[i];
    assert outs[i..][1..] == outs[i + 1..];
    TailFits(outs[i..], |buffer|, slots.Keys);
    if !(flag || d.finished) {
      var r := Run(d.table, false, b, outs[i + 1..], slots);
      assert done + (d.calls + r.calls) == (done + d.calls) + r.calls;
    }
  }

  lemma TailFits(outs: seq<WaitOutcome>, capacity: nat, hs: set<FdHandler>)
    requires outs != [] && AllFit(outs, capacity) && Within(outs, hs)
    ensures AllFit(outs[1..], capacity) && Within(outs[1..], hs)
  {
    forall i | 0 <= i < |outs[1..]| ensures outs[1..][i] == outs[i + 1] { }
  }

  ghost predicate Increasing(idx: seq<nat>) {
    forall i, j :: 0 <= i < j < |idx| ==> idx[i] < idx[j]
  }

  /** The descriptors named by the entries `es`. */
  function Fds(es: seq<Event>): (r: set<int>)
    ensures forall n :: 0 <= n < |es| ==> es[n].fd in r
    ensures forall x :: x in r ==> exists n :: 0 <= n < |es| && es[n].fd == x
    decreases |es|
  {
    if es == [] then {}
    else
      var p := es[..|es| - 1];
      assert forall n :: 0 <= n < |p| ==> p[n] == es[n];
      Fds(p) + {es[|es| - 1].fd}
  }

  /** Dispatching a batch changes the table only by inserting empty entries
      for the descriptors it did not know; every existing entry stays. */
  lemma {:induction false} DispatchTable(t: Table, es: seq<Event>, alive: set<FdHandler>, slots: Slots)
    requires alive <= slots.Keys
    ensures var d := DispatchBatch(t, es, alive, slots);
      && d.table.Keys == t.Keys + Fds(es)
      && (forall k :: k in t ==> d.table[k] == t[k])
      && (forall k :: k in d.table && k !in t ==> d.table[k] == Empty)
  {
    if es != [] {
      DispatchTable(t, es[..|es| - 1], alive, slots);
    }
  }

  /** A batch's entries that existed before the batch keep their liveness
      throughout it, and an entry inserted by the lookup is never live. */
  lemma DispatchLiveness(t: Table, es: seq<Event>, alive: set<FdHandler>, slots: Slots, fd: int)
    requires alive <= slots.Keys
    ensures var d := DispatchBatch(t, es, alive, slots);
      (Live(Touch(d.table, fd), alive, fd) <==> Live(t, alive, fd))
      && (Live(t, alive, fd) ==> Touch(d.table, fd)[fd] == t[fd])
  {
    DispatchTable(t, es, alive, slots);
  }

  /** The last entry of a batch adds a call exactly when its descriptor had
      a live entry before the batch. */
  lemma LastEntry(t: Table, es: seq<Event>, alive: set<FdHandler>, slots: Slots)
    requires alive <= slots.Keys && es != []
    ensures var e := es[|es| - 1];
      var dp := DispatchBatch(t, es[..|es| - 1], alive, slots);
      var d := DispatchBatch(t, es, alive, slots);
      && (Live(t, alive, e.fd) ==>
            d.calls == dp.calls + [Invocation(t[e.fd].target, slots[t[e.fd].target], e.events)])
      && (!Live(t, alive, e.fd) ==> d.calls == dp.calls)
  {
    var e := es[|es| - 1];
    DispatchLiveness(t, es[..|es| - 1], alive, slots, e.fd);
    var dp := DispatchBatch(t, es[..|es| - 1], alive, slots);
    assert DispatchBatch(t, es, alive, slots) == Step(dp, e, alive, slots);
  }

  /** A batch runs a callback for exactly the entries whose descriptor has a
      live table entry, in increasing buffer order, each with the registered
      handle, the callback in its slot and the entry's mask. `idx` lists the
      indices that were dispatched. */
  lemma {:induction false} DispatchSelectsLive(t: Table, es: seq<Event>, alive: set<FdHandler>, slots: Slots)
    returns (idx: seq<nat>)
    requires alive <= slots.Keys
    ensures Increasing(idx)
    ensures forall k :: 0 <= k < |idx| ==> idx[k] < |es|
    ensures forall n :: 0 <= n < |es| ==> (n in idx <==> Live(t, alive, es[n].fd))
    ensures var d := DispatchBatch(t, es, alive, slots);
      && |d.calls| == |idx|
      && forall k :: 0 <= k < |idx| ==>
           && Live(t, alive, es[idx[k]].fd)
           && d.calls[k].handler == t[es[idx[k]].fd].target
           && d.calls[k].cb == slots[d.calls[k].handler]
           && d.calls[k].mask == es[idx[k]].events
  {
    if es == [] {
      idx := [];
    } else {
      var m := |es| - 1;
      var p := es[..m];
      var pidx := DispatchSelectsLive(t, p, alive, slots);
      LastEntry(t, es, alive, slots);
      assert forall n :: 0 <= n < m ==> p[n] == es[n];
      if Live(t, alive, es[m].fd) {
        idx := pidx + [m];
      } else {
        idx := pidx;
      }
    }
  }

  /** The stop flag is raised during a batch exactly when one of the
      callbacks the batch ran calls `finish()`. */
  lemma {:induction false} DispatchFinished(t: Table, es: seq<Event>, alive: set<FdHandler>, slots: Slots)
    requires alive <= slots.Keys
    ensures var d := DispatchBatch(t, es, alive, slots);
      d.finished <==> exists k :: 0 <= k < |d.calls| && d.calls[k].cb.callsFinish
  {
    if es != [] {
      var p := es[..|es| - 1];
      DispatchFinished(t, p, alive, slots);
      var dp := DispatchBatch(t, p, alive, slots);
      var d := DispatchBatch(t, es, alive, slots);
      var e := es[|es| - 1];
      var tt := Touch(dp.table, e.fd);
      assert d == Step(dp, e, alive, slots);
      if tt[e.fd].Expired(alive) {
        assert d.calls == dp.calls && d.finished == dp.finished;
      } else {
        var h := tt[e.fd].target;
        assert d.calls == dp.calls + [Invocation(h, slots[h], e.events)];
        assert d.finished == (dp.finished || slots[h].callsFinish);
        if exists k :: 0 <= k < |d.calls| && d.calls[k].cb.callsFinish {
          var k :| 0 <= k < |d.calls| && d.calls[k].cb.callsFinish;
          if k < |dp.calls| { assert dp.calls[k] == d.calls[k]; }
        }
        if slots[h].callsFinish {
          assert d.calls[|dp.calls|].cb.callsFinish;
        }
        if dp.finished {
          var k :| 0 <= k < |dp.calls| && dp.calls[k].cb.callsFinish;
          assert d.calls[k] == dp.calls[k];
        }
      }
    }
  }

  /** The shape of a run: it issues at most one wait per result, every wait
      but the last succeeded; it ends on a failed wait exactly when its last
      wait failed; it ends on the flag only after a successful wait; it
      runs out of input only after using all of it; and a flag already set
      when the loop starts still lets exactly one cycle run. */
  lemma {:induction false} RunShape(t: Table, flag: bool, buffer: seq<Event>, outs: seq<WaitOutcome>,
                    slots: Slots)
    requires AllFit(outs, |buffer|) && Within(outs, slots.Keys)
    decreases |outs|
    ensures var r := Run(t, flag, buffer, outs, slots);
      && |r.buffer| == |buffer|
      && r.cycles <= |outs|
      && (forall c :: 0 <= c < r.cycles - 1 ==> outs[c].Ready?)
      && (r.exit == WaitFailed <==> 0 < r.cycles && outs[r.cycles - 1].Failed?)
      && (r.exit == Stopped ==> 0 < r.cycles && outs[r.cycles - 1].Ready? && r.flag)
      && (r.exit == Exhausted ==> r.cycles == |outs| && (r.flag <==> flag && outs == []))
      && (flag && outs != [] ==> r.cycles == 1)
  {
    if outs != [] && outs[0].Ready? {
      var es, alive := outs[0].entries, outs[0].alive;
      var b := es + buffer[|es|..];
      var d := DispatchBatch(t, es, alive, slots);
      if !(flag || d.finished) {
        TailFits(outs, |b|, slots.Keys);
        RunShape(d.table, false, b, outs[1..], slots);
        var r := Run(d.table, false, b, outs[1..], slots);
        forall c | 0 <= c < r.cycles + 1 - 1 ensures outs[c].Ready? {
          if 0 < c { assert outs[c] == outs[1..][c - 1]; }
        }
        if 0 < r.cycles { assert outs[r.cycles] == outs[1..][r.cycles - 1]; }
      }
    }
  }

  /** A run never removes or changes a table entry; the only entries it adds
      are the empty ones the lookup inserts. */
  lemma {:induction false} RunTable(t: Table, flag: bool, buffer: seq<Event>, outs: seq<WaitOutcome>,
                    slots: Slots)
    requires AllFit(outs, |buffer|) && Within(outs, slots.Keys)
    decreases |outs|
    ensures var r := Run(t, flag, buffer, outs, slots);
      && t.Keys <= r.table.Keys
      && (forall k :: k in t ==> r.table[k] == t[k])
      && (forall k :: k in r.table && k !in t ==> r.table[k] == Empty)
  {
    if outs != [] && outs[0].Ready? {
      var es, alive := outs[0].entries, outs[0].alive;
      var b := es + buffer[|es|..];
      DispatchTable(t, es, alive, slots);
      var d := DispatchBatch(t, es, alive, slots);
      if !(flag || d.finished) {
        TailFits(outs, |b|, slots.Keys);
        RunTable(d.table, false, b, outs[1..], slots);
      }
    }
  }

  /** Once a run has ended on a failed wait or on the flag, whatever further
      wait results there might have been make no difference: no later cycle
      starts. */
  lemma {:induction false} RunIgnoresLaterCycles(t: Table, flag: bool, buffer: seq<Event>,
                                                 outs: seq<WaitOutcome>, later: seq<WaitOutcome>,
                                                 slots: Slots)
    requires AllFit(outs + later, |buffer|) && Within(outs + later, slots.Keys)
    requires AllFit(outs, |buffer|) && Within(outs, slots.Keys) && Run(t, flag, buffer, outs, slots).exit != Exhausted
    decreases |outs|
    ensures Run(t, flag, buffer, outs + later, slots) == Run(t, flag, buffer, outs, slots)
  {
    assert outs != [];
    assert (outs + later)[0] == outs[0];
    if outs[0].Ready? {
      var es, alive := outs[0].entries, outs[0].alive;
      var b := es + buffer[|es|..];
      var d := DispatchBatch(t, es, alive, slots);
      if !(flag || d.finished) {
        assert (outs + later)[1..] == outs[1..] + later;
        TailFits(outs + later, |b|, slots.Keys);
        TailFits(outs, |b|, slots.Keys);
        RunIgnoresLaterCycles(d.table, false, b, outs[1..], later, slots);
      }
    }
  }

  /** `cyc[k]` names the wait among `outs` whose batch ran `calls[k]`: those
      waits never go back in time, all come before wait number `waits`, each
      succeeded and reported the call's handle alive, and the callback run is
      the one the handle's slot held. */
  ghost predicate Attributed(calls: seq<Invocation>, cyc: seq<nat>, outs: seq<WaitOutcome>, waits: nat, slots: Slots) {
    && |cyc| == |calls|
    && (forall i, j :: 0 <= i < j < |cyc| ==> cyc[i] <= cyc[j])
    && forall k :: 0 <= k < |cyc| ==>
         && cyc[k] < |outs| && cyc[k] < waits
         && outs[cyc[k]].Ready?
         && calls[k].handler in outs[cyc[k]].alive
         && calls[k].handler in slots
         && calls[k].cb == slots[calls[k].handler]
  }

  /** The calls of a first successful batch, followed by calls attributed
      to the waits after it. */
  lemma AttributedAfterBatch(first: seq<Invocation>, rest: seq<Invocation>, later: seq<nat>,
                             outs: seq<WaitOutcome>, waits: nat, slots: Slots)
    returns (cyc: seq<nat>)
    requires outs != [] && outs[0].Ready?
    requires forall k :: 0 <= k < |first| ==>
      first[k].handler in outs[0].alive && first[k].handler in slots && first[k].cb == slots[first[k].handler]
    requires Attributed(rest, later, outs[1..], waits, slots)
    ensures Attributed(first + rest, cyc, outs, waits + 1, slots)
  {
    cyc := seq(|first|, _ => 0) + seq(|later|, k requires 0 <= k < |later| => later[k] + 1);
    var calls := first + rest;
    forall k | 0 <= k < |cyc|
      ensures cyc[k] < |outs| && cyc[k] < waits + 1 && outs[cyc[k]].Ready?
      ensures calls[k].handler in outs[cyc[k]].alive
      ensures calls[k].handler in slots && calls[k].cb == slots[calls[k].handler]
    {
      if k < |first| {
        assert calls[k] == first[k] && cyc[k] == 0;
      } else {
        var m := k - |first|;
        assert calls[k] == rest[m] && cyc[k] == later[m] + 1;
        assert outs[cyc[k]] == outs[1..][later[m]];
      }
    }
  }

  /** Every callback a run invokes is run by one of its successful waits,
      whose batch reported the handle alive, with the callback the handle's
      slot held; `cyc` says which wait ran each call. */
  lemma {:induction false} RunCallsLive(t: Table, flag: bool, buffer: seq<Event>, outs: seq<WaitOutcome>,
                                        slots: Slots)
    returns (cyc: seq<nat>)
    requires AllFit(outs, |buffer|) && Within(outs, slots.Keys)
    decreases |outs|
    ensures var r := Run(t, flag, buffer, outs, slots); Attributed(r.calls, cyc, outs, r.cycles, slots)
  {
    if outs == [] || outs[0].Failed? {
      cyc := [];
    } else {
      var es, alive := outs[0].entries, outs[0].alive;
      var b := es + buffer[|es|..];
      var idx := DispatchSelectsLive(t, es, alive, slots);
      var d := DispatchBatch(t, es, alive, slots);
      forall k | 0 <= k < |d.calls| ensures d.calls[k].handler in alive {
        assert Live(t, alive, es[idx[k]].fd);
      }
      if flag || d.finished {
        cyc := AttributedAfterBatch(d.calls, [], [], outs, 0, slots);
        assert d.calls + [] == d.calls;
      } else {
        TailFits(outs, |b|, slots.Keys);
        var later := RunCallsLive(d.table, false, b, outs[1..], slots);
        var r := Run(d.table, false, b, outs[1..], slots);
        cyc := AttributedAfterBatch(d.calls, r.calls, later, outs, r.cycles, slots);
      }
    }
  }
}
