/** Whole uses of `epoll_handler`: construction with `(10, 100)`,
    registrations and a run of `listen_loop` over scripted kernel answers.
    Each method drives the class; the lemma beside it computes what `Run`
    makes of the same table and callback slots. */
module Scenarios {
  import opened Epoll
  import opened FdHandlers
  import opened Dispatch
  import opened EpollHandlers

  /** `EPOLLIN` */
  const Readable: u32 := 1

  /** Two live handles on descriptors 4 and 5, both reported readable. */
  lemma TwoLiveBatch(a: FdHandler, b: FdHandler, buf: seq<Event>)
    requires |buf| == 10 && a != b
    ensures var outs := [Ready([Event(Readable, 4), Event(Readable, 5)], {a, b})];
      var r := Run(map[4 := Weak(a), 5 := Weak(b)], false, buf, outs,
                   map[a := Callback(1, false), b := Callback(2, false)]);
      && AllFit(outs, |buf|) && Within(outs, {a, b})
      && r.calls == [Invocation(a, Callback(1, false), Readable), Invocation(b, Callback(2, false), Readable)]
      && r.exit == Exhausted
  {
    var es := [Event(Readable, 4), Event(Readable, 5)];
    var t := map[4 := Weak(a), 5 := Weak(b)];
    var sl := map[a := Callback(1, false), b := Callback(2, false)];
    var one := [Event(Readable, 4)];
    assert es[..1] == one && one[..0] == [];
    assert {a, b} <= sl.Keys;
    var d1 := DispatchBatch(t, one, {a, b}, sl);
    assert d1 == Step(DispatchBatch(t, one[..0], {a, b}, sl), one[0], {a, b}, sl);
    assert d1 == BatchState(t, [Invocation(a, Callback(1, false), Readable)], false);
    assert DispatchBatch(t, es, {a, b}, sl) == Step(d1, es[1], {a, b}, sl);
  }

  /** Two descriptors registered and reported ready in the same batch: each
      callback runs exactly once, with its own handle, in the order the
      kernel reported them, and the loop goes on waiting. */
  method TwoReadyInOneCycle() returns (a: FdHandler, b: FdHandler, calls: seq<Invocation>, exit: Exit)
    ensures calls == [Invocation(a, Callback(1, false), Readable), Invocation(b, Callback(2, false), Readable)]
    ensures exit == Exhausted
  {
    var loop := new EpollHandler(10, 100, 3);
    a := new FdHandler(4, Readable, Callback(0, false));
    b := new FdHandler(5, Readable, Callback(0, false));
    var ra := loop.RegisterEvent(Weak(a), Callback(1, false), true, {a});
    var rb := loop.RegisterEvent(Weak(b), Callback(2, false), true, {b});
    var outs := [Ready([Event(Readable, 4), Event(Readable, 5)], {a, b})];
    assert loop.data == map[4 := Weak(a), 5 := Weak(b)];
    assert AllAlive(outs) == {a, b} by { assert outs[1..] == []; }
    assert SlotsOf({a, b}) == map[a := Callback(1, false), b := Callback(2, false)];
    TwoLiveBatch(a, b, loop.events[..]);
    ghost var cycles;
    calls, exit, cycles := loop.ListenLoop(outs);
  }

  /** The table after `a` and then `a2` were registered under descriptor 4,
      both handles still alive, and descriptor 4 reported readable. */
  lemma ReplacedBatch(a: FdHandler, a2: FdHandler, buf: seq<Event>)
    requires |buf| == 10 && a != a2
    ensures var outs := [Ready([Event(Readable, 4)], {a, a2})];
      && AllFit(outs, |buf|) && Within(outs, {a, a2})
      && Run(map[4 := Weak(a2)], false, buf, outs, map[a := Callback(1, false), a2 := Callback(2, false)]).calls
         == [Invocation(a2, Callback(2, false), Readable)]
  {
    var one := [Event(Readable, 4)];
    var t := map[4 := Weak(a2)];
    var sl := map[a := Callback(1, false), a2 := Callback(2, false)];
    assert one[..0] == [];
    assert {a, a2} <= sl.Keys;
    assert DispatchBatch(t, one, {a, a2}, sl) == Step(DispatchBatch(t, one[..0], {a, a2}, sl), one[0], {a, a2}, sl);
  }

  /** A second registration under the same descriptor number that the
      kernel accepts (the first handle's descriptor was closed and its number
      reused) replaces the first in the table: one ready entry runs only the
      second callback, once. */
  method SecondRegistrationWins() returns (a: FdHandler, a2: FdHandler, calls: seq<Invocation>)
    ensures calls == [Invocation(a2, Callback(2, false), Readable)]
  {
    var loop := new EpollHandler(10, 100, 3);
    a := new FdHandler(4, Readable, Callback(0, false));
    a2 := new FdHandler(4, Readable, Callback(0, false));
    var r1 := loop.RegisterEvent(Weak(a), Callback(1, false), true, {a});
    var r2 := loop.RegisterEvent(Weak(a2), Callback(2, false), true, {a2});
    var outs := [Ready([Event(Readable, 4)], {a, a2})];
    assert loop.data == map[4 := Weak(a2)];
    assert AllAlive(outs) == {a, a2} by { assert outs[1..] == []; }
    assert SlotsOf({a, a2}) == map[a := Callback(1, false), a2 := Callback(2, false)];
    ReplacedBatch(a, a2, loop.events[..]);
    var exit;
    ghost var cycles;
    calls, exit, cycles := loop.ListenLoop(outs);
  }

  /** Handles `a` (descriptor 4, since destroyed) and `b` (descriptor 5)
      registered; descriptors 4, 9 and 5 reported readable. */
  lemma StaleBatch(a: FdHandler, b: FdHandler, buf: seq<Event>)
    requires |buf| == 10 && a != b
    ensures var outs := [Ready([Event(Readable, 4), Event(Readable, 9), Event(Readable, 5)], {b})];
      var r := Run(map[4 := Weak(a), 5 := Weak(b)], false, buf, outs, map[b := Callback(2, false)]);
      && AllFit(outs, |buf|) && Within(outs, {b})
      && r.calls == [Invocation(b, Callback(2, false), Readable)]
      && 9 in r.table && r.table[9] == Empty
  {
    var es := [Event(Readable, 4), Event(Readable, 9), Event(Readable, 5)];
    var t := map[4 := Weak(a), 5 := Weak(b)];
    var sl := map[b := Callback(2, false)];
    var one := [Event(Readable, 4)];
    var two := [Event(Readable, 4), Event(Readable, 9)];
    assert one[..0] == [] && two[..1] == one && es[..2] == two;
    assert {b} <= sl.Keys;
    var d1 := DispatchBatch(t, one, {b}, sl);
    assert d1 == Step(DispatchBatch(t, one[..0], {b}, sl), one[0], {b}, sl);
    assert d1 == BatchState(t, [], false);
    var d2 := DispatchBatch(t, two, {b}, sl);
    assert d2 == Step(d1, two[1], {b}, sl);
    assert d2 == BatchState(t[9 := Empty], [], false);
    assert DispatchBatch(t, es, {b}, sl) == Step(d2, es[2], {b}, sl);
  }

  /** A registered handle destroyed before its entry arrives, and a
      descriptor that was never registered, are both skipped; the lookup of
      the unknown one leaves an empty entry behind. */
  method StaleAndUnknownSkipped() returns (b: FdHandler, calls: seq<Invocation>, table: Table)
    ensures calls == [Invocation(b, Callback(2, false), Readable)]
    ensures 9 in table && table[9] == Empty
  {
    var loop := new EpollHandler(10, 100, 3);
    var a := new FdHandler(4, Readable, Callback(0, false));
    b := new FdHandler(5, Readable, Callback(0, false));
    var ra := loop.RegisterEvent(Weak(a), Callback(1, false), true, {a});
    var rb := loop.RegisterEvent(Weak(b), Callback(2, false), true, {b});
    var outs := [Ready([Event(Readable, 4), Event(Readable, 9), Event(Readable, 5)], {b})];
    assert loop.data == map[4 := Weak(a), 5 := Weak(b)];
    assert AllAlive(outs) == {b} by { assert outs[1..] == []; }
    assert SlotsOf({b}) == map[b := Callback(2, false)];
    StaleBatch(a, b, loop.events[..]);
    var exit;
    ghost var cycles;
    calls, exit, cycles := loop.ListenLoop(outs);
    table := loop.data;
  }

  /** `a`'s callback calls `finish()`; descriptors 4 and 5 are reported
      readable, and a second batch would report 5 again. */
  lemma FinishingBatch(a: FdHandler, b: FdHandler, buf: seq<Event>)
    requires |buf| == 10 && a != b
    ensures var outs := [Ready([Event(Readable, 4), Event(Readable, 5)], {a, b}),
                         Ready([Event(Readable, 5)], {a, b})];
      var r := Run(map[4 := Weak(a), 5 := Weak(b)], false, buf, outs,
                   map[a := Callback(1, true), b := Callback(2, false)]);
      && AllFit(outs, |buf|) && Within(outs, {a, b})
      && r.calls == [Invocation(a, Callback(1, true), Readable), Invocation(b, Callback(2, false), Readable)]
      && r.exit == Stopped
  {
    var es := [Event(Readable, 4), Event(Readable, 5)];
    var t := map[4 := Weak(a), 5 := Weak(b)];
    var sl := map[a := Callback(1, true), b := Callback(2, false)];
    var one := [Event(Readable, 4)];
    assert es[..1] == one && one[..0] == [];
    assert {a, b} <= sl.Keys;
    var d1 := DispatchBatch(t, one, {a, b}, sl);
    assert d1 == Step(DispatchBatch(t, one[..0], {a, b}, sl), one[0], {a, b}, sl);
    assert d1 == BatchState(t, [Invocation(a, Callback(1, true), Readable)], true);
    assert DispatchBatch(t, es, {a, b}, sl) == Step(d1, es[1], {a, b}, sl);
  }

  /** A callback that calls `finish()` does not cut its batch short, but no
      further wait is issued after that batch. */
  method FinishFromCallback() returns (a: FdHandler, b: FdHandler, calls: seq<Invocation>, exit: Exit)
    ensures calls == [Invocation(a, Callback(1, true), Readable), Invocation(b, Callback(2, false), Readable)]
    ensures exit == Stopped
  {
    var loop := new EpollHandler(10, 100, 3);
    a := new FdHandler(4, Readable, Callback(0, false));
    b := new FdHandler(5, Readable, Callback(0, false));
    var ra := loop.RegisterEvent(Weak(a), Callback(1, true), true, {a});
    var rb := loop.RegisterEvent(Weak(b), Callback(2, false), true, {b});
    var outs := [Ready([Event(Readable, 4), Event(Readable, 5)], {a, b}), Ready([Event(Readable, 5)], {a, b})];
    assert loop.data == map[4 := Weak(a), 5 := Weak(b)];
    assert AllAlive(outs) == {a, b} by {
      assert outs[1..][1..] == [];
      assert AllAlive(outs[1..]) == {a, b};
    }
    assert SlotsOf({a, b}) == map[a := Callback(1, true), b := Callback(2, false)];
    FinishingBatch(a, b, loop.events[..]);
    ghost var cycles;
    calls, exit, cycles := loop.ListenLoop(outs);
  }

  /** A failed wait ends the loop with no callback run, whatever the kernel
      would have answered next, and closes the context exactly once. */
  method WaitFailure() returns (calls: seq<Invocation>, exit: Exit, closes: nat)
    ensures calls == [] && exit == WaitFailed && closes == 1
  {
    var loop := new EpollHandler(10, 100, 3);
    var a := new FdHandler(4, Readable, Callback(0, false));
    var ra := loop.RegisterEvent(Weak(a), Callback(1, false), true, {a});
    ghost var cycles;
    calls, exit, cycles := loop.ListenLoop([Failed, Ready([Event(Readable, 4)], {a})]);
    closes := loop.efdCloses;
  }

  /** An empty table, descriptor 4 reported readable. */
  lemma UnregisteredBatch(a: FdHandler, buf: seq<Event>)
    requires |buf| == 10
    ensures var outs := [Ready([Event(Readable, 4)], {a})];
      && AllFit(outs, |buf|) && Within(outs, {a})
      && Run(map[], false, buf, outs, map[a := Callback(0, false)]).calls == []
  {
    var one := [Event(Readable, 4)];
    var sl := map[a := Callback(0, false)];
    assert one[..0] == [];
    assert {a} <= sl.Keys;
    assert DispatchBatch(map[], one, {a}, sl) == Step(DispatchBatch(map[], one[..0], {a}, sl), one[0], {a}, sl);
  }

  /** A refused registration registers nothing and closes the context
      twice; the next wait, on the closed context, fails at once and closes
      it a third time without running any callback. */
  method RegistrationFailure() returns (reg: Option<Event>, closes: nat, calls: seq<Invocation>, exit: Exit)
    ensures reg == None && calls == [] && exit == WaitFailed
    ensures closes == 3
  {
    var loop := new EpollHandler(10, 100, 3);
    var a := new FdHandler(4, Readable, Callback(0, false));
    reg := loop.RegisterEvent(Weak(a), Callback(1, false), false, {a});
    assert loop.efdCloses == 2;
    ghost var cycles;
    calls, exit, cycles := loop.ListenLoop([Failed]);
    closes := loop.efdCloses;
  }
}
