/** Machine integers and instants, as the counters and clocks of the SDK use them. */
module Words {
  /** One more than the largest `usize` or `u64`. */
  const WORD: nat := 0x1_0000_0000_0000_0000

  /** One more than the largest `u32`. */
  const U32: nat := 0x1_0000_0000

  function AddWord(a: nat, b: nat): nat { (a + b) % WORD }

  function SubWord(a: nat, b: nat): nat { (a - b) % WORD }

  function Increment(n: nat): nat { (n + 1) % U32 }

  /** `Instant::elapsed` and `Instant::duration_since` saturate at zero. */
  function Elapsed(since: nat, now: nat): nat { if now >= since then now - since else 0 }
}
