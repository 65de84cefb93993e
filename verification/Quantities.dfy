/** The requests and limits that internal/advice/cpu_throttle.go and memory_pressure.go suggest.
    Cores are exact reals and millicores unbounded integers; byte counts wrap at 64 bits. */
module Quantities {
  import opened Text
  import opened Advice
  import opened Figures

  // ---- quantities as text ----------------------------------------------------------------

  function Millis(m: nat): string { Dec(m) + "m" }

  function Mebibytes(n: nat): string { Dec(n / MIB) + "Mi" }

  /** What Kubernetes reads in a CPU quantity, in millicores: 250m, or whole cores. */
  function ReadCPU(q: string): Option<nat> {
    if q == "" then None
    else if AllDigits(q) then Some(1000 * Value(q))
    else if q[|q| - 1] == 'm' && AllDigits(q[..|q| - 1]) then Some(Value(q[..|q| - 1]))
    else None
  }

  /** What it reads in a memory quantity of whole mebibytes, in bytes. */
  function ReadMemory(q: string): Option<nat> {
    if |q| > 2 && q[|q| - 2..] == "Mi" && AllDigits(q[..|q| - 2]) then Some(MIB * Value(q[..|q| - 2])) else None
  }

  lemma ReadMillis(m: nat)
    ensures ReadCPU(Millis(m)) == Some(m)
  {
    var q := Millis(m);
    assert q[..|q| - 1] == Dec(m);
    assert q[|q| - 1] == 'm' && q[|q| - 1] in q;
    ValueDec(m);
  }

  lemma ReadMebibytes(n: nat)
    ensures ReadMemory(Mebibytes(n)) == Some(n / MIB * MIB)
  {
    var q := Mebibytes(n);
    assert q[..|q| - 2] == Dec(n / MIB) && q[|q| - 2..] == "Mi";
    ValueDec(n / MIB);
  }

  // ---- CPU ------------------------------------------------------------------------------

  /** int64(cores * 1000 * k + 0.5), for a positive count of cores. */
  function ToMillis(cores: real, k: real): nat
    requires cores > 0.0 && k > 0.0
  {
    (cores * k * 1000.0 + 0.5).Floor
  }

  function SuggestedLimitMillis(limit: real): nat {
    if limit <= 0.0 then 1000 else (ToMillis(limit, 2.0) + 99) / 100 * 100
  }

  function SuggestedCPULimit(limit: real): string {
    if limit <= 0.0 then "1" else Millis(SuggestedLimitMillis(limit))
  }

  function SuggestedCPURequest(request: real, limit: real): string {
    if request <= 0.0 then SuggestedCPULimit(limit) else
    var limitMillis := SuggestedLimitMillis(limit);
    if ToMillis(request, 1.0) > limitMillis then Millis(limitMillis) else Millis(ToMillis(request, 1.0))
  }

  lemma ReadCPULimit(limit: real)
    ensures ReadCPU(SuggestedCPULimit(limit)) == Some(SuggestedLimitMillis(limit))
  {
    ReadMillis(SuggestedLimitMillis(limit));
    assert Value("1") == 1;
  }

  /** As Kubernetes reads them the request never exceeds the limit; a measured request below the
      limit is kept, and a missing one becomes the limit. */
  lemma CPURequestFitsLimit(request: real, limit: real)
    ensures var r, l := ReadCPU(SuggestedCPURequest(request, limit)), ReadCPU(SuggestedCPULimit(limit));
            && r.Some? && l.Some? && r.value <= l.value
            && (request <= 0.0 ==> r == l)
            && (request > 0.0 && ToMillis(request, 1.0) <= l.value ==> r.value == ToMillis(request, 1.0))
  {
    hide ReadCPU, Millis;
    ReadCPULimit(limit);
    ReadMillis(SuggestedLimitMillis(limit));
    if request > 0.0 {
      ReadMillis(ToMillis(request, 1.0));
    }
  }

  /** A multiple of 100m, less than 100m above the rounded double of the measured limit and never
      below that limit. It is zero for limits under a quarter millicore, which Kubernetes accepts
      for no container, so for every limit there can be, 1m or more, it is positive. */
  lemma CPULimitIsRoundedDouble(limit: real)
    requires limit > 0.0
    ensures var l := SuggestedLimitMillis(limit);
            && l % 100 == 0
            && ToMillis(limit, 2.0) <= l < ToMillis(limit, 2.0) + 100
            && ToMillis(limit, 1.0) <= l
            && (l == 0 <==> limit < 0.00025)
            && (limit >= 0.001 ==> l > 0)
  {
    var m := ToMillis(limit, 2.0);
    var x := limit * 1000.0;
    assert limit * 2.0 * 1000.0 == x + x && limit * 1.0 * 1000.0 == x;
    assert m == (x + x + 0.5).Floor && ToMillis(limit, 1.0) == (x + 0.5).Floor;
    assert limit < 0.00025 <==> x + x + 0.5 < 1.0;
  }

  // ---- memory --------------------------------------------------------------------------

  const MIB: nat := 1024 * 1024
  const STEP: nat := 128 * MIB

  /** One and a half times the peak, up to the next 128 MiB, in 64-bit arithmetic. */
  function SuggestedMemoryBytes(peak: nat): nat {
    var want := peak * 3 % UINT64 / 2;
    (want + STEP - 1) % UINT64 / STEP * STEP % UINT64
  }

  function SuggestedRequestBytes(request: nat, peak: nat, limit: nat): nat {
    var want := if request == 0 then peak else request;
    if want < limit then want else limit
  }

  /** The suggestion covers one and a half times the peak exactly when tripling the peak does not
      overflow, and then it is the least multiple of 128 MiB that does. */
  lemma MemoryLimitCovers(peak: nat)
    requires peak < UINT64
    ensures SuggestedMemoryBytes(peak) >= peak * 3 / 2 <==> peak * 3 < UINT64
    ensures SuggestedMemoryBytes(peak) % STEP == 0
    ensures peak * 3 < UINT64 ==> SuggestedMemoryBytes(peak) < peak * 3 / 2 + STEP
  {
    var want := peak * 3 % UINT64 / 2;
    UpToStep(want);
    assert peak * 3 < UINT64 ==> want == peak * 3 / 2;
    assert peak * 3 >= UINT64 ==> want + UINT64 / 2 <= peak * 3 / 2;
  }

  lemma UpToStep(want: nat)
    requires want < UINT64 / 2
    ensures var r := (want + STEP - 1) % UINT64 / STEP * STEP % UINT64;
            want <= r < want + STEP && r % STEP == 0
  {
    assert (want + STEP - 1) % UINT64 == want + STEP - 1;
    var steps := (want + STEP - 1) / STEP;
    assert steps * STEP <= want + STEP - 1 < steps * STEP + STEP;
  }

  lemma WholeMebibytes(r: nat, limit: nat)
    requires r <= limit && limit % STEP == 0
    ensures r / MIB * MIB <= limit / MIB * MIB == limit
    ensures r / MIB * MIB <= r < r / MIB * MIB + MIB
  {
    var steps := limit / STEP;
    assert limit == steps * 128 * MIB;
  }

  /** Advice given at a pressure of two thirds or more never suggests less than the limit there is. */
  lemma MemoryLimitNeverShrinks(f: Facts, t: Thresholds)
    requires Pressed(f, t) && t.memoryPressure >= 2.0 / 3.0 && f.usage.value.peakMemory * 3 < UINT64
    ensures SuggestedMemoryBytes(f.usage.value.peakMemory) >= f.usage.value.memoryLimit
  {
    var peak, limit := f.usage.value.peakMemory, f.usage.value.memoryLimit;
    AtLeastShare(peak, limit, 2.0 / 3.0);
    MemoryLimitCovers(peak);
  }

  lemma AtLeastShare(peak: nat, limit: nat, share: real)
    requires limit > 0 && peak as real / limit as real >= share
    ensures peak as real >= share * limit as real
  {
    var q, l := peak as real / limit as real, limit as real;
    assert q * l == peak as real;
    assert (q - share) * l >= 0.0;
  }

  /** Without overflow the suggestion is below the measured limit exactly when a multiple of
      128 MiB that covers one and a half times the peak is. */
  lemma MemoryLimitShrinksIff(peak: nat, limit: nat)
    requires peak * 3 < UINT64
    ensures SuggestedMemoryBytes(peak) < limit <==> exists k: nat :: peak * 3 / 2 <= k * STEP < limit
  {
    MemoryLimitCovers(peak);
    var r := SuggestedMemoryBytes(peak);
    if r < limit {
      assert peak * 3 / 2 <= (r / STEP) * STEP < limit;
    }
    if k: nat :| peak * 3 / 2 <= k * STEP < limit {
      assert r < k * STEP + STEP;
      assert r / STEP <= k;
    }
  }

  /** So with a threshold of one half the advice to raise the ceiling lowers it: 1200 MiB, of
      which 600 were used, become 1024. */
  lemma HalfThresholdLowersLimit(f: Facts, t: Thresholds)
    requires t.memoryPressure == 0.5 && f.usage.Some?
    requires f.usage.value.peakMemory == 600 * MIB && f.usage.value.memoryLimit == 1200 * MIB
    ensures Pressed(f, t)
    ensures SuggestedMemoryBytes(f.usage.value.peakMemory) == 1024 * MIB < f.usage.value.memoryLimit
  {
  }

  const HUGE_PEAK: nat := 0x4000_0000_0000_0000
  const HUGE_LIMIT: nat := 0x6000_0000_0000_0001

  /** Two thirds is where that stops: at any threshold below, but for one part in 10^18, one and
      the same container gets advice to lower its limit, with no overflow. */
  lemma MemoryLimitMayShrink(f: Facts, t: Thresholds)
    requires 0.0 < t.memoryPressure <= HUGE_PEAK as real / HUGE_LIMIT as real
    requires f.usage.Some? && f.usage.value.peakMemory == HUGE_PEAK && f.usage.value.memoryLimit == HUGE_LIMIT
    ensures Pressed(f, t) && HUGE_PEAK * 3 < UINT64 && HUGE_LIMIT < UINT64
    ensures SuggestedMemoryBytes(HUGE_PEAK) < HUGE_LIMIT
    ensures 2.0 / 3.0 - 0.000_000_000_000_000_001 < HUGE_PEAK as real / HUGE_LIMIT as real < 2.0 / 3.0
  {
  }

  /** As Kubernetes reads them the request never exceeds the limit, and is the measured request,
      or without one the peak, where that fits. */
  lemma MemoryRequestFitsLimit(request: nat, peak: nat)
    requires request < UINT64 && peak < UINT64
    ensures var limit := SuggestedMemoryBytes(peak);
            var r := ReadMemory(Mebibytes(SuggestedRequestBytes(request, peak, limit)));
            var l := ReadMemory(Mebibytes(limit));
            && r.Some? && l.Some? && r.value <= l.value == limit
            && (0 < request <= limit ==> r.value <= request < r.value + MIB)
            && (request == 0 && peak * 3 < UINT64 ==> r.value <= peak < r.value + MIB)
  {
    hide ReadMemory, Mebibytes, SuggestedMemoryBytes;
    var limit := SuggestedMemoryBytes(peak);
    var r := SuggestedRequestBytes(request, peak, limit);
    ReadMebibytes(r);
    ReadMebibytes(limit);
    MemoryLimitCovers(peak);
    WholeMebibytes(r, limit);
  }
}
