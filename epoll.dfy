/** The kernel's record type as the event loop uses it. */
module Epoll {
  /** Values of C's `uint32_t`, the type of interest and readiness masks. */
  newtype u32 = x: int | 0 <= x < 0x1_0000_0000

  /** A `struct epoll_event` as the loop uses it: the mask in `events` and
      the raw descriptor number in `data.fd`. */
  datatype Event = Event(events: u32, fd: int)

  /** The all-zero record that `calloc` leaves in every buffer slot. */
  const ZeroEvent: Event := Event(0, 0)
}
