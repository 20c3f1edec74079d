/** An optional value: what the feed sends when an update happens, what the
    receiver decodes from a large enough datagram, and the rate line it
    may print. */
module Options {
  datatype Option<+T> = None | Some(value: T)
}
