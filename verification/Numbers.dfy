/** Small numbers. */
module Numbers {
  /** The source's `max(1)`. */
  function AtLeastOne(n: nat): nat {
    if n == 0 then 1 else n
  }
}
