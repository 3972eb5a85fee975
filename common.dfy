/** Definitions shared by every component of the reactor model. */
module Common {

  /** A possibly-absent value; `None` plays the role of a NULL pointer. */
  datatype Option<+T> = None | Some(value: T)

  /** libuv's negative error codes, with their Linux values. */
  const UV_EINVAL: int := -22

  /** A callback pointer is modelled by an opaque identity; callbacks never mutate the model. */
  type Callback = nat
}
