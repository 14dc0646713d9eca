/** The descriptor handle the loop dispatches to. Only what the event loop
    uses of it is modelled: its raw descriptor number, its interest mask and
    its writable callback slot. */
module FdHandlers {
  import opened Epoll

  /** A `std::function<void (std::weak_ptr<fd_handler>, uint32_t)>`, known by
      an identity. `callsFinish` says whether running it calls `finish()` on
      the event loop that dispatched it. */
  datatype Callback = Callback(id: nat, callsFinish: bool)

  class FdHandler {
    /** `get_fd()` */
    const fd: int
    /** `get_events()` */
    const interest: u32
    /** The callback slot that registration overwrites. */
    var callback: Callback

    constructor (fd: int, interest: u32, callback: Callback)
      ensures this.fd == fd && this.interest == interest
      ensures this.callback == callback
    {
      this.fd := fd;
      this.interest := interest;
      this.callback := callback;
    }
  }

  /** A `std::weak_ptr<fd_handler>`: empty (default-constructed), or pointing
      at a handle that may since have been destroyed. */
  datatype WeakRef = Empty | Weak(target: FdHandler)
  {
    /** `expired()`, given the set of handles that still exist. */
    predicate Expired(alive: set<FdHandler>) {
      Empty? || target !in alive
    }
  }
}
