/** Times in seconds, and the hour marks among them. */
module Hours {
  /** The hour mark at or before a time. */
  function Hour(t: int): (h: int)
    ensures h % 3600 == 0 && h <= t < h + 3600
  {
    t - t % 3600
  }
}
