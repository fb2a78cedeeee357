/** `ResourceManager`: in-flight accounting and the backpressure signal. */
module Resources {
  import opened Arithmetic
  import opened Words

  const BYTES_PER_MESSAGE: nat := 20 * 1024

  /** The part of the configuration the manager reads. */
  datatype Limits = Limits(maxMemoryBytes: nat, maxMessagesInFlight: nat, backpressureThreshold: real) {
    predicate Valid() {
      0 < maxMemoryBytes < WORD && 0 < maxMessagesInFlight < WORD && 0.1 <= backpressureThreshold <= 1.0
    }

    /** The product the memory points are cut from, before truncation. */
    function Budget(): real { maxMemoryBytes as real * backpressureThreshold }

    /** The four points the manager derives by truncating a product to an integer. */
    function Points(): (t: Thresholds)
      requires Valid()
      ensures t.Ordered()
      ensures t.messagesRelease == 0 <==> maxMessagesInFlight == 1
      ensures t.memoryRelease == 0 <==> Budget() * 0.70 < 1.0
      ensures t.memoryTrigger as real <= Budget() < t.memoryTrigger as real + 1.0
    {
      var budget := Budget();
      assert budget >= 0.0 by { NonNegativeProduct(maxMemoryBytes as real, backpressureThreshold); }
      Thresholds(maxMessagesInFlight,
                 Truncate(budget),
                 Truncate(maxMessagesInFlight as real * 0.70),
                 Truncate(budget * 0.70))
    }
  }

  function Truncate(x: real): (n: nat)
    requires x >= 0.0
    ensures n as real <= x < n as real + 1.0
  {
    x.Floor
  }

  datatype Thresholds = Thresholds(maxInFlight: nat, memoryTrigger: nat, messagesRelease: nat, memoryRelease: nat) {
    /** What every `Points()` satisfies: a release point is never above its trigger, and is 0 only below a trigger of 2. */
    predicate Ordered() {
      && 1 <= maxInFlight
      && messagesRelease <= maxInFlight
      && memoryRelease <= memoryTrigger
      && (messagesRelease == 0 ==> maxInFlight == 1)
      && (memoryRelease == 0 ==> memoryTrigger <= 1)
    }
  }

  /** The three shared counters. */
  datatype Gauges = Gauges(inFlight: nat, signals: nat, memoryEstimate: nat)

  function Estimate(inFlight: nat): nat { (inFlight * BYTES_PER_MESSAGE) % WORD }

  function Check(t: Thresholds, g: Gauges): (Gauges, bool) {
    if g.inFlight >= t.maxInFlight then
      (g.(signals := AddWord(g.signals, 1)), false)
    else
      var estimated := g.(memoryEstimate := Estimate(g.inFlight));
      if Estimate(g.inFlight) >= t.memoryTrigger then
        (estimated.(signals := AddWord(g.signals, 1)), false)
      else
        (estimated, true)
  }

  function Start(g: Gauges, n: nat): Gauges {
    g.(inFlight := AddWord(g.inFlight, n))
  }

  /** Both counters are below their release points. */
  predicate Released(t: Thresholds, inFlight: nat) {
    inFlight < t.messagesRelease && Estimate(inFlight) < t.memoryRelease
  }

  function Complete(t: Thresholds, g: Gauges, n: nat): Gauges {
    var left := SubWord(g.inFlight, n);
    Gauges(left,
           if Released(t, left) && g.signals > 0 then SubWord(g.signals, 1) else g.signals,
           Estimate(left))
  }

  /** Hysteresis: whatever makes `Check` fail also keeps the release condition false. */
  lemma {:induction false} FailedCheckIsUnreleased(t: Thresholds, g: Gauges)
    requires t.Ordered() && !Check(t, g).1
    ensures !Released(t, g.inFlight)
    ensures Check(t, g).0.signals == AddWord(g.signals, 1) && Check(t, g).0.inFlight == g.inFlight
  {
  }

  /** More load never releases, as long as the estimate does not wrap. */
  lemma {:induction false} UnreleasedIsMonotone(t: Thresholds, low: nat, high: nat)
    requires low <= high && high * BYTES_PER_MESSAGE < WORD
    requires !Released(t, low)
    ensures !Released(t, high)
  {
  }

  /** Within the word range, `complete_processing` takes back exactly what `start_processing` added. */
  lemma {:induction false} NoWrap(t: Thresholds, g: Gauges, n: nat)
    requires g.inFlight < WORD
    ensures g.inFlight + n < WORD ==> Start(g, n).inFlight == g.inFlight + n
    ensures n <= g.inFlight ==> Complete(t, g, n).inFlight == g.inFlight - n
  {
  }

  lemma {:induction false} BelowTruncated(n: nat, x: real)
    requires x >= 0.0
    ensures n < Truncate(x) <==> n as real + 1.0 <= x
  {
  }

  /**
   * The load at which a completion lowers the signal, in terms of the limits: 70% of the message limit and of the memory
   * budget, at 20480 bytes a message.
   */
  lemma {:induction false} LowersExactlyWhen(l: Limits, g: Gauges, n: nat)
    requires l.Valid() && n <= g.inFlight < WORD && g.signals < WORD
    ensures var left, after := g.inFlight - n, Complete(l.Points(), g, n);
            && after.inFlight == left
            && after.memoryEstimate == (left * 20480) % WORD
            && after.signals ==
               if g.signals > 0
                  && left as real + 1.0 <= l.maxMessagesInFlight as real * 0.70
                  && ((left * 20480) % WORD) as real + 1.0 <= l.Budget() * 0.70
               then g.signals - 1 else g.signals
  {
    var left := g.inFlight - n;
    BelowReleasePoints(l, left, Estimate(left));
    CompleteLowers(l.Points(), g, n);
  }

  lemma {:induction false} BelowReleasePoints(l: Limits, messages: nat, bytes: nat)
    requires l.Valid()
    ensures messages < l.Points().messagesRelease <==> messages as real + 1.0 <= l.maxMessagesInFlight as real * 0.70
    ensures bytes < l.Points().memoryRelease <==> bytes as real + 1.0 <= l.Budget() * 0.70
  {
    NonNegativeProduct(l.maxMemoryBytes as real, l.backpressureThreshold);
    BelowTruncated(messages, l.maxMessagesInFlight as real * 0.70);
    BelowTruncated(bytes, l.Budget() * 0.70);
  }

  lemma {:induction false} CompleteLowers(t: Thresholds, g: Gauges, n: nat)
    requires n <= g.inFlight < WORD && g.signals < WORD
    ensures var left, after := g.inFlight - n, Complete(t, g, n);
            && after.inFlight == left
            && after.memoryEstimate == (left * 20480) % WORD
            && after.signals ==
               if g.signals > 0 && left < t.messagesRelease && (left * 20480) % WORD < t.memoryRelease then g.signals - 1 else g.signals
  {
    NoWrap(t, g, n);
  }

  /** The load at which a check fails, in terms of the limits, and what it leaves behind. */
  lemma {:induction false} FailsExactlyWhen(l: Limits, g: Gauges)
    requires l.Valid() && g.signals + 1 < WORD
    ensures var (after, ok) := Check(l.Points(), g);
            && (ok <==> g.inFlight < l.maxMessagesInFlight && ((g.inFlight * 20480) % WORD) as real + 1.0 <= l.Budget())
            && after.inFlight == g.inFlight
            && after.signals == (if ok then g.signals else g.signals + 1)
            && after.memoryEstimate ==
               (if g.inFlight < l.maxMessagesInFlight then (g.inFlight * 20480) % WORD else g.memoryEstimate)
  {
    BelowBudget(l, Estimate(g.inFlight));
    CheckAnswers(l.Points(), g);
  }

  lemma {:induction false} BelowBudget(l: Limits, n: nat)
    requires l.Valid()
    ensures n < l.Points().memoryTrigger <==> n as real + 1.0 <= l.Budget()
    ensures l.Points().maxInFlight == l.maxMessagesInFlight
  {
    NonNegativeProduct(l.maxMemoryBytes as real, l.backpressureThreshold);
    BelowTruncated(n, l.Budget());
  }

  lemma {:induction false} CheckAnswers(t: Thresholds, g: Gauges)
    requires g.signals + 1 < WORD
    ensures var (after, ok) := Check(t, g);
            && (ok <==> g.inFlight < t.maxInFlight && (g.inFlight * 20480) % WORD < t.memoryTrigger)
            && after.inFlight == g.inFlight
            && after.signals == (if ok then g.signals else g.signals + 1)
            && after.memoryEstimate == (if g.inFlight < t.maxInFlight then (g.inFlight * 20480) % WORD else g.memoryEstimate)
  {
  }

  class ResourceManager {
    const points: Thresholds
    var messagesInFlight: nat
    var backpressureActiveSignals: nat
    var currentMemoryEstimateBytes: nat

    ghost function Counters(): Gauges
      reads this
    {
      Gauges(messagesInFlight, backpressureActiveSignals, currentMemoryEstimateBytes)
    }

    constructor (limits: Limits)
      requires limits.Valid()
      ensures points == limits.Points()
      ensures Counters() == Gauges(0, 0, 0)
    {
      points := limits.Points();
      messagesInFlight, backpressureActiveSignals, currentMemoryEstimateBytes := 0, 0, 0;
    }

    method GetEstimatedCurrentMemory() returns (bytes: nat)
      modifies this`currentMemoryEstimateBytes
      ensures bytes == Estimate(messagesInFlight)
      ensures currentMemoryEstimateBytes == bytes
    {
      bytes := (messagesInFlight * BYTES_PER_MESSAGE) % WORD;
      currentMemoryEstimateBytes := bytes;
    }

    method ActivateBackpressureSignal()
      modifies this`backpressureActiveSignals
      ensures backpressureActiveSignals == AddWord(old(backpressureActiveSignals), 1)
    {
      backpressureActiveSignals := AddWord(backpressureActiveSignals, 1);
    }

    method DeactivateBackpressureSignal()
      modifies this`backpressureActiveSignals
      ensures backpressureActiveSignals == SubWord(old(backpressureActiveSignals), 1)
    {
      backpressureActiveSignals := SubWord(backpressureActiveSignals, 1);
    }

    method IsBackpressureActive() returns (active: bool)
      ensures active <==> Counters().signals > 0
    {
      active := backpressureActiveSignals > 0;
    }

    method CheckResources() returns (ok: bool)
      modifies this
      ensures (Counters(), ok) == Check(points, old(Counters()))
    {
      if messagesInFlight >= points.maxInFlight {
        ActivateBackpressureSignal();
        return false;
      }
      var estimated := GetEstimatedCurrentMemory();
      if estimated >= points.memoryTrigger {
        ActivateBackpressureSignal();
        return false;
      }
      ok := true;
    }

    method StartProcessing(batchSize: nat)
      modifies this`messagesInFlight
      ensures Counters() == Start(old(Counters()), batchSize)
    {
      messagesInFlight := AddWord(messagesInFlight, batchSize);
    }

    method CompleteProcessing(batchSize: nat)
      modifies this
      ensures Counters() == Complete(points, old(Counters()), batchSize)
    {
      messagesInFlight := SubWord(messagesInFlight, batchSize);
      var currentInFlight := messagesInFlight;
      var estimated := GetEstimatedCurrentMemory();
      if currentInFlight < points.messagesRelease && estimated < points.memoryRelease {
        var active := IsBackpressureActive();
        if active {
          DeactivateBackpressureSignal();
        }
      }
    }
  }
}
