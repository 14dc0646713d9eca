# epoll_handler, modelled in Dafny

This project models the event loop class `epoll_handler` (src/epoll-handler.cpp). It covers four operations:

- The constructor records `max_events` and `event_check`, allocates a zeroed readiness buffer of `max_events` slots, and keeps the descriptor `epoll_create1` returned.
- `register_event` adds a descriptor to the kernel's interest set. It records a non-owning reference to the descriptor's handle in the registration table `data`, stores the callback in the handle's slot, and appends the event to `event_list`.
- `listen_loop` waits, dispatches every ready entry to the callback of the handle registered for its descriptor, and repeats until a wait fails or the stop flag is up after a batch.
- `finish` raises that flag.

The kernel is not modelled; what it answers is an input of each method:

- `epoll_create1` is the constructor's `created` argument.
- Whether `epoll_ctl` succeeded is `RegisterEvent`'s `ctlOk`.
- The successive results of `epoll_wait` are `ListenLoop`'s `outcomes`. Each result is `Failed` (-1) or `Ready(entries, alive)`: the entries written to the buffer, and the set of handles that still exist while that batch is dispatched.

Modules:

- `Epoll` (epoll.dfy): `u32` and the `struct epoll_event` record.
- `FdHandlers` (fd_handler.dfy): the descriptor handle, a class with a writable callback slot. It also defines `std::weak_ptr` as `WeakRef`, whose `Expired` is relative to the set of live handles.
- `Dispatch` (dispatch.dfy): the loop as functions on values. `Touch` is `std::map::operator[]`, `Step` and `DispatchBatch` are the `for` loop over one batch, and `Run` is the whole `while` loop. The lemmas state what these guarantee.
- `EpollHandlers` (epoll_handler.dfy): the class `EpollHandler`. Its fields are those of the C++ object, and its methods update them in place. `ListenLoop` is proved to compute exactly `Run`.
- `Scenarios` (scenarios.dfy): complete uses of the class on concrete inputs.

The model keeps these behaviours of the code as written:

- A refused registration closes `efd` twice: `close(this->efd)` and then `close(efd)` name the same descriptor. The model counts the calls to `close`.
- A registration whose `EPOLL_CTL_ADD` succeeds overwrites any table entry for that descriptor number. No modify call is ever issued. While the first registration of a descriptor is still in the kernel's interest set, a second add is refused (`EEXIST`), so it takes the failure path. The overwrite is reached only when the add succeeds, for instance after the old descriptor was closed and its number reused.
- A missing descriptor is looked up with `operator[]`, so its lookup inserts an empty reference into the table.
- A non-positive `max_events` is not rejected. The constructor then allocates no slot, and every wait into that buffer can only fail.
- There are no error types: failure is a null result or the loop returning.
- The stop flag is read only after a whole batch, so a flag raised before `listen_loop` starts still lets one full cycle run.

## Model

| member | source | states |
|---|---|---|
| EpollHandlers.EpollHandler.constructor | src/epoll-handler.cpp:41-50 | The flag starts false. `max_events`, `event_check` and the created descriptor are stored. The buffer has `max(max_events, 0)` slots, all zero. The table and the event list start empty, and `efd` has not been closed. |
| EpollHandlers.EpollHandler.RegisterEvent | src/epoll-handler.cpp:66-93 | If the add succeeds, the result is the event built from the handle's interest mask and descriptor. The table maps that descriptor to the reference, overwriting any earlier entry; its keys gain only that descriptor and other entries are unchanged. The handle's slot holds `cb`, and exactly that event is appended to the list. If the add fails, the result is null: the table, the list and the slot are untouched and `efd` is closed twice. |
| EpollHandlers.EpollHandler.ListenLoop | src/epoll-handler.cpp:98-120 | Each batch holds at most `max_events` entries, the count passed to the kernel. The final table, flag and buffer, the sequence of callbacks run and the number of waits are exactly `Run` of the initial state. `efd` is closed once if the loop ended on a failed wait, and not at all otherwise. |
| EpollHandlers.EpollHandler.Cycle | src/epoll-handler.cpp:102-116 | After one successful wait, the buffer holds the reported entries followed by its old tail. The table, the calls and the flag are those of `DispatchBatch` on the old table. |
| EpollHandlers.EpollHandler.DispatchEvents | src/epoll-handler.cpp:110-116 | The loop over the first `nfds` buffer slots leaves the table, the calls and the flag exactly as `DispatchBatch` defines them. |
| EpollHandlers.EpollHandler.ReceiveBatch | src/epoll-handler.cpp:102 | The reported entries overwrite the first buffer slots; the remaining slots keep their old contents. |
| EpollHandlers.EpollHandler.CloseEfd | src/epoll-handler.cpp:106 | A `close(efd)` adds exactly one to the count of closes and changes nothing else. |
| EpollHandlers.EpollHandler.Finish | src/epoll-handler.cpp:125-128 | Raises the stop flag and changes nothing else. |
| Dispatch.DispatchTable | src/epoll-handler.cpp:113 | After a batch, the table's keys are the old keys plus the descriptors of the batch's entries. Old entries are unchanged, and every added entry is an empty reference. |
| Dispatch.DispatchLiveness | src/epoll-handler.cpp:113-114 | Within a batch, a descriptor's entry is live at the lookup exactly when it was live before the batch; a live entry is still the original reference. |
| Dispatch.DispatchSelectsLive | src/epoll-handler.cpp:110-116 | A batch runs a callback exactly for the entries whose descriptor has a live table entry, in increasing buffer order. Each call gets the registered handle, the callback in that handle's slot, and the entry's mask. |
| Dispatch.DispatchFinished | src/epoll-handler.cpp:115-118 | The flag is raised during a batch exactly when one of the callbacks the batch ran calls `finish()`. |
| Dispatch.RunAfterFailed | src/epoll-handler.cpp:102-107 | A failed wait ends the loop at once, with no callback run and the state unchanged. |
| Dispatch.RunAfterReady | src/epoll-handler.cpp:102-119 | After a successful wait and its whole batch, the loop stops if the flag is up and otherwise continues with the next wait from the new table and buffer. |
| Dispatch.RunShape | src/epoll-handler.cpp:100-119 | The loop makes at most one wait per result, and every wait but the last succeeded. It ends on a failed wait exactly when its last wait failed, and on the flag only after a successful batch. A flag already up at the start still lets exactly one cycle run. |
| Dispatch.RunTable | src/epoll-handler.cpp:113 | A run never removes or changes an entry of the table; it adds only empty references. |
| Dispatch.RunIgnoresLaterCycles | src/epoll-handler.cpp:104-118 | Once a run has ended on a failed wait or on the flag, later wait results make no difference: no later cycle starts. |
| Dispatch.RunCallsLive | src/epoll-handler.cpp:100-116 | Every callback a run invokes is attributed to the wait whose batch ran it. The attributed waits never go back in time and are among the waits the run issued. Each of them succeeded and reported the call's handle alive, and the callback run is the one in that handle's slot. |
| Dispatch.Touch | src/epoll-handler.cpp:113 | After the lookup, the table always holds an entry for the descriptor. |
| Scenarios.TwoLiveBatch | src/epoll-handler.cpp:110-116 | Two live registered descriptors in one batch each run their own callback once, in reported order. |
| Scenarios.TwoReadyInOneCycle | src/epoll-handler.cpp:66-120 | Two handles are registered and both reported ready. Both callbacks run exactly once, in the order the kernel reported them. |
| Scenarios.ReplacedBatch | src/epoll-handler.cpp:82-85 | With the newer reference in the table, one ready entry runs only the newer handle's callback. |
| Scenarios.SecondRegistrationWins | src/epoll-handler.cpp:66-120 | The kernel accepts a second add under the same descriptor number, after the number was reused. One association remains, and a ready entry runs only the second callback, once. |
| Scenarios.StaleBatch | src/epoll-handler.cpp:113 | A destroyed handle's entry and an unregistered descriptor are skipped, and the unregistered one gains an empty entry. |
| Scenarios.StaleAndUnknownSkipped | src/epoll-handler.cpp:66-120 | After registration, a destroyed handle and a never-registered descriptor are skipped without a call. The lookup leaves an empty entry for the unknown descriptor. |
| Scenarios.FinishingBatch | src/epoll-handler.cpp:110-118 | A callback calling `finish()` lets the rest of its batch run, and the run stops after that batch. |
| Scenarios.FinishFromCallback | src/epoll-handler.cpp:98-128 | Calling `finish()` from a callback does not cut its batch short, and no further wait is made. |
| Scenarios.WaitFailure | src/epoll-handler.cpp:102-107 | A failed wait runs no callback, ignores later results, and closes `efd` exactly once. |
| Scenarios.UnregisteredBatch | src/epoll-handler.cpp:113 | With an empty table, a ready entry runs no callback. |
| Scenarios.RegistrationFailure | src/epoll-handler.cpp:74-107 | A refused registration returns null and closes `efd` twice. The next wait, on the closed context, fails without running a callback and closes `efd` a third time. |

## Left out

- The kernel and the C library are not modelled: `epoll_create1`, `epoll_ctl`, `epoll_wait` and `close` are represented by their results or by a count of calls. `EINTR` is not told apart from other failures, since the code does not distinguish it either.
- The messages written to `std::cerr` and `std::cout` (lines 76 and 90) are not modelled.
- A failing `calloc` is not modelled; the buffer is always allocated.
- The `shared_ptr` objects in `event_list` are kept as event values; their identity and reference counts are left out.
- `event_check` is only passed to the kernel, so the timeout meaning of its values is outside the model.
- The empty destructor (lines 55-57) is not modelled; it releases nothing.
- The `fd_handler` class is not part of this model beyond its descriptor, its interest mask and its callback slot. An empty `std::function` in a slot is not modelled.
- What a callback does is abstract. It either calls `finish()` or has no effect on the loop; registering, destroying handles or changing slots from inside a callback is not modelled. For that reason the set of live handles is fixed within a batch.
- Concurrent calls of `register_event` or `finish` from other threads are not modelled; the model is single-threaded.
- A callback that throws at line 115 leaves `listen_loop` by the exception: the rest of the batch is skipped and `efd` stays open. The model's `Callback` cannot fail, so this exit is not modelled.
- EpollHandlers.EpollHandler.RegisterEvent: `ctlOk` is a free input. It is not tied to the kernel's interest set, so it may be true for a descriptor already added, where the kernel answers `EEXIST`. It is also not tied to `efd` having been closed, so it may be true after a refused registration closed the context.
- EpollHandlers.EpollHandler.ListenLoop: the wait results are free inputs and are not tied to `efd` having been closed. After a refused registration, the source's next `epoll_wait` fails with `EBADF` unless the number was reused, but the model also allows a `Ready` result there.
- EpollHandlers.EpollHandler.ListenLoop: runs over a finite sequence of wait results. A loop that never fails and never sees the flag is represented by the `Exhausted` exit once the sequence ends.
- EpollHandlers.EpollHandler.RegisterEvent: requires a reference to a live handle, because with an expired one the source dereferences a null pointer at lines 70-72.
