/**
 * The native backend of the application: the `greet` and `calculate`
 * commands and the background loop started by `start_process_monitoring`.
 * Clock readings are parameters; the emission of events is recorded as the
 * sequence of events the loop emits.
 */
module Backend {
  import opened Wrappers
  import Decimal

  /** The range of Rust's `i32`. */
  predicate InI32(x: int) { -0x8000_0000 <= x <= 0x7fff_ffff }

  /** Rust's `i32`. */
  newtype i32 = x: int | InI32(x)

  function Abs(x: int): nat { if x < 0 then -x else x }

  // ---------------------------------------------------------------------------
  // greet

  const GREETING: string := "Hello world from Rust! Current epoch: "

  /** The greeting for the wall-clock reading `epochMs` (milliseconds since the Unix epoch). */
  function Greet(epochMs: nat): (s: string)
    ensures |s| > |GREETING| && s[..|GREETING|] == GREETING
    ensures Decimal.AllDigits(s[|GREETING|..])
    ensures Decimal.ParseDigits(s[|GREETING|..]) == epochMs
    ensures s[|GREETING|] == '0' ==> |s| == |GREETING| + 1
  {
    var digits := Decimal.NatToString(epochMs);
    Decimal.ParseNatToString(epochMs);
    assert (GREETING + digits)[|GREETING|..] == digits;
    GREETING + digits
  }

  // ---------------------------------------------------------------------------
  // Integer division as Rust defines it on `i32`

  /** `q` is a quotient of `a` by `b` truncated toward zero: the remainder is
      smaller than the divisor and is zero or has the sign of the dividend. */
  predicate IsTruncatedQuotient(a: int, b: int, q: int)
  {
    var r := a - q * b;
    Abs(r) < Abs(b) && (r == 0 || (r < 0 <==> a < 0))
  }

  /** Rust's `a / b`: the exact quotient rounded toward zero. */
  function TruncDiv(a: int, b: int): (q: int)
    requires b != 0
    ensures IsTruncatedQuotient(a, b, q)
    ensures Abs(q) <= Abs(a)
  {
    var q0: int := Abs(a) / Abs(b);
    var q := if (a < 0) == (b < 0) then q0 else -q0;
    TruncDivCorrect(a, b, q0, q);
    q
  }

  lemma TruncDivCorrect(a: int, b: int, q0: int, q: int)
    requires b != 0
    requires q0 == Abs(a) / Abs(b)
    requires q == if (a < 0) == (b < 0) then q0 else -q0
    ensures IsTruncatedQuotient(a, b, q)
    ensures Abs(q) <= Abs(a)
  {
    var A: int, B: int := Abs(a), Abs(b);
    var p := q0 * B;
    DivisionFacts(A, B, q0);
    NegatedProduct(q0, B);
    // q * b is +p or -p, according to the sign of the dividend
    if a < 0 {
      assert q * b == -p;
    } else {
      assert q * b == p;
    }
  }

  lemma DivisionFacts(A: nat, B: nat, q0: int)
    requires B >= 1 && q0 == A / B
    ensures 0 <= A - q0 * B < B
    ensures 0 <= q0 <= A
  {
    MulAtLeastOne(q0, B);
  }

  lemma NegatedProduct(x: int, y: int)
    ensures (-x) * y == -(x * y) && x * (-y) == -(x * y) && (-x) * (-y) == x * y
  {
  }

  lemma MulAtLeastOne(q: nat, d: nat)
    requires d >= 1
    ensures q <= q * d
  {
  }

  lemma MultipleSmallerThanFactor(k: int, b: int)
    requires b != 0 && Abs(k * b) < Abs(b)
    ensures k == 0
  {
    if k != 0 {
      assert Abs(k * b) == Abs(k) * Abs(b);
      MulAtLeastOne(Abs(b), Abs(k));
    }
  }

  lemma DistributeDifference(q: int, q': int, b: int)
    ensures q' * b - q * b == (q' - q) * b
  {
  }

  /** The truncated quotient is unique: TruncDiv is the only integer with its defining property. */
  lemma TruncatedQuotientUnique(a: int, b: int, q: int)
    requires b != 0
    ensures IsTruncatedQuotient(a, b, q) <==> q == TruncDiv(a, b)
  {
    if IsTruncatedQuotient(a, b, q) {
      var q' := TruncDiv(a, b);
      var r, r' := a - q * b, a - q' * b;
      if a < 0 {
        assert -(Abs(b) as int) < r <= 0 && -(Abs(b) as int) < r' <= 0;
      } else {
        assert 0 <= r < Abs(b) && 0 <= r' < Abs(b);
      }
      assert r - r' == (q' - q) * b by { DistributeDifference(q, q', b); }
      MultipleSmallerThanFactor(q' - q, b);
    }
  }

  // ---------------------------------------------------------------------------
  // calculate

  const DIVIDE_BY_ZERO: string := "Cannot divide by zero"
  const UNKNOWN_OPERATION: string := "Unknown operation: "

  datatype CalculationResult = CalculationResult(result: i32, timestamp: nat, description: string)

  predicate IsKnownOperation(operation: string)
  {
    operation == "add" || operation == "subtract" || operation == "multiply" || operation == "divide"
  }

  /** The exact value of an arithmetic operation on unbounded integers, if it is one of the four. */
  function Exact(a: int, b: int, operation: string): (r: int)
    requires IsKnownOperation(operation)
    requires operation == "divide" ==> b != 0
    ensures operation == "divide" ==> IsTruncatedQuotient(a, b, r) && Abs(r) <= Abs(a)
  {
    if operation == "add" then a + b
    else if operation == "subtract" then a - b
    else if operation == "multiply" then a * b
    else TruncDiv(a, b)
  }

  /** The operation does not leave the range of `i32` (Rust does not promise wrap-around there). */
  predicate NoOverflow(a: i32, b: i32, operation: string)
  {
    IsKnownOperation(operation) && !(operation == "divide" && b == 0) ==>
      InI32(Exact(a as int, b as int, operation))
  }

  /** The description a successful calculation carries. */
  function Description(a: int, operation: string, b: int): (d: string)
    ensures "Operation: " <= d
    ensures |d| >= |"Operation: "| + |operation| + 4
  {
    "Operation: " + Decimal.IntToString(a) + " " + operation + " " + Decimal.IntToString(b)
  }

  /** The `calculate` command at wall-clock reading `timestamp`. */
  function Calculate(a: i32, b: i32, operation: string, timestamp: nat): (r: Result<CalculationResult, string>)
    requires NoOverflow(a, b, operation)
    ensures r.Ok? <==> IsKnownOperation(operation) && !(operation == "divide" && b == 0)
    ensures operation == "add" ==> r.Ok? && r.value.result as int == a as int + b as int
    ensures operation == "subtract" ==> r.Ok? && r.value.result as int == a as int - b as int
    ensures operation == "multiply" ==> r.Ok? && r.value.result as int == a as int * b as int
    ensures operation == "divide" && b != 0 ==>
      r.Ok? && IsTruncatedQuotient(a as int, b as int, r.value.result as int)
    ensures operation == "divide" && b == 0 ==> r == Err(DIVIDE_BY_ZERO)
    ensures !IsKnownOperation(operation) ==> r == Err(UNKNOWN_OPERATION + operation)
    ensures r.Ok? ==> r.value.timestamp == timestamp
    ensures r.Ok? ==> r.value.description == Description(a as int, operation, b as int)
    ensures r.Ok? ==> ParseDescription(r.value.description) == Some((a as int, operation, b as int))
  {
    if !IsKnownOperation(operation) then
      Err(UNKNOWN_OPERATION + operation)
    else if operation == "divide" && b == 0 then
      Err(DIVIDE_BY_ZERO)
    else
      DescriptionRoundTrip(a as int, operation, b as int);
      Ok(CalculationResult(Exact(a as int, b as int, operation) as i32, timestamp,
                           Description(a as int, operation, b as int)))
  }

  // ---------------------------------------------------------------------------
  // Reading a description back

  const DESCRIPTION_PREFIX: string := "Operation: "

  /** Splits `s` at its first space. */
  function SplitAtSpace(s: string): Option<(string, string)>
  {
    if s == [] then None
    else if s[0] == ' ' then Some(([], s[1..]))
    else match SplitAtSpace(s[1..])
      case None => None
      case Some(parts) => Some(([s[0]] + parts.0, parts.1))
  }

  lemma {:induction false} SplitAtSpaceConcat(x: string, y: string)
    requires ' ' !in x
    ensures SplitAtSpace(x + " " + y) == Some((x, y))
  {
    if x != [] {
      assert (x + " " + y)[1..] == x[1..] + " " + y;
      SplitAtSpaceConcat(x[1..], y);
      assert [x[0]] + x[1..] == x;
    }
  }

  /** Reads the operands and the operation back from a description. */
  function ParseDescription(d: string): Option<(int, string, int)>
  {
    if |d| < |DESCRIPTION_PREFIX| || d[..|DESCRIPTION_PREFIX|] != DESCRIPTION_PREFIX then None
    else match SplitAtSpace(d[|DESCRIPTION_PREFIX|..])
      case None => None
      case Some(first) =>
        match SplitAtSpace(first.1)
        case None => None
        case Some(second) =>
          match (Decimal.ParseInt(first.0), Decimal.ParseInt(second.1))
          case (Some(a), Some(b)) => Some((a, second.0, b))
          case _ => None
  }

  /** A description names its operands and an operation without spaces unambiguously. */
  lemma DescriptionRoundTrip(a: int, operation: string, b: int)
    requires ' ' !in operation
    ensures ParseDescription(Description(a, operation, b)) == Some((a, operation, b))
  {
    var sa, sb := Decimal.IntToString(a), Decimal.IntToString(b);
    var d := Description(a, operation, b);
    assert d == DESCRIPTION_PREFIX + (sa + " " + (operation + " " + sb));
    assert d[|DESCRIPTION_PREFIX|..] == sa + " " + (operation + " " + sb);
    SplitAtSpaceConcat(sa, operation + " " + sb);
    SplitAtSpaceConcat(operation, sb);
    Decimal.IntToStringRoundTrip(a);
    Decimal.IntToStringRoundTrip(b);
  }

  /** Two successful calculations with the same description had the same operands and operation. */
  lemma DescriptionDeterminesInputs(a: i32, b: i32, op: string, t: nat, a': i32, b': i32, op': string, t': nat)
    requires NoOverflow(a, b, op) && NoOverflow(a', b', op')
    requires Calculate(a, b, op, t).Ok? && Calculate(a', b', op', t').Ok?
    requires Calculate(a, b, op, t).value.description == Calculate(a', b', op', t').value.description
    ensures a == a' && b == b' && op == op'
  {
  }

  // ---------------------------------------------------------------------------
  // The monitoring loop

  /** The two event channels the loop emits on. */
  datatype Channel = ProcessStatus | WindowProcessStatus

  function ChannelName(c: Channel): string
  {
    match c
    case ProcessStatus => "process-status"
    case WindowProcessStatus => "window-process-status"
  }

  /** The loop stops after this many iterations. */
  const MONITOR_ITERATIONS: nat := 10

  /** A simulated process sample; `cpuTenths` is the CPU usage in tenths (the source sends it as a float). */
  datatype ProcessInfo = ProcessInfo(id: nat, memoryUsage: nat, cpuTenths: nat, timestamp: nat)

  datatype Emission = Emission(channel: Channel, payload: ProcessInfo)

  /** The sample built on iteration `count` when the clock reads `now`. */
  function Sample(count: nat, now: nat): (r: ProcessInfo)
    ensures r.id == count && r.timestamp == now
    ensures r.memoryUsage >= 100 && r.cpuTenths < 10
  {
    ProcessInfo(count, 100 + count * 10, count % 10, now)
  }

  /** The events iteration `count` emits: always the global event, and the
      window event when the window is still found. */
  function IterationEmissions(count: nat, clock: nat -> nat, windowOpen: nat -> bool): (r: seq<Emission>)
    ensures |r| == if windowOpen(count) then 2 else 1
    ensures r[0] == Emission(ProcessStatus, Sample(count, clock(count)))
    ensures windowOpen(count) ==> r[1] == Emission(WindowProcessStatus, Sample(count, clock(count)))
  {
    var info := Sample(count, clock(count));
    if windowOpen(count) then [Emission(ProcessStatus, info), Emission(WindowProcessStatus, info)]
    else [Emission(ProcessStatus, info)]
  }

  /** Everything the first `n` iterations emit, in order: one or two events per iteration. */
  function MonitorTrace(n: nat, clock: nat -> nat, windowOpen: nat -> bool): (r: seq<Emission>)
    ensures n <= |r| <= 2 * n
  {
    if n == 0 then [] else MonitorTrace(n - 1, clock, windowOpen) + IterationEmissions(n - 1, clock, windowOpen)
  }

  /** The payloads of the emissions on `channel`, in order. */
  function Payloads(trace: seq<Emission>, channel: Channel): seq<ProcessInfo>
  {
    if trace == [] then []
    else (if trace[0].channel == channel then [trace[0].payload] else []) + Payloads(trace[1..], channel)
  }

  lemma {:induction false} PayloadsAppend(s: seq<Emission>, t: seq<Emission>, channel: Channel)
    ensures Payloads(s + t, channel) == Payloads(s, channel) + Payloads(t, channel)
  {
    if s != [] {
      assert (s + t)[1..] == s[1..] + t;
      PayloadsAppend(s[1..], t, channel);
    } else {
      assert s + t == t;
    }
  }

  lemma IterationPayloads(count: nat, clock: nat -> nat, windowOpen: nat -> bool)
    ensures Payloads(IterationEmissions(count, clock, windowOpen), ProcessStatus) == [Sample(count, clock(count))]
    ensures Payloads(IterationEmissions(count, clock, windowOpen), WindowProcessStatus)
      == if windowOpen(count) then [Sample(count, clock(count))] else []
  {
    var info := Sample(count, clock(count));
    var e := IterationEmissions(count, clock, windowOpen);
    var last := [Emission(ProcessStatus, info)];
    assert Payloads(last, ProcessStatus) == [info] + Payloads([], ProcessStatus);
    assert Payloads(last, WindowProcessStatus) == [] + Payloads([], WindowProcessStatus);
    if windowOpen(count) {
      var w := [Emission(WindowProcessStatus, info)];
      assert e == last + w;
      assert Payloads(w, ProcessStatus) == [] + Payloads([], ProcessStatus);
      assert Payloads(w, WindowProcessStatus) == [info] + Payloads([], WindowProcessStatus);
      PayloadsAppend(last, w, ProcessStatus);
      PayloadsAppend(last, w, WindowProcessStatus);
    }
  }

  /** The global channel of the first `n` iterations carries the samples 0, 1, ..., n - 1 in order. */
  lemma {:induction false} GlobalPayloads(n: nat, clock: nat -> nat, windowOpen: nat -> bool)
    ensures Payloads(MonitorTrace(n, clock, windowOpen), ProcessStatus) == Samples(n, clock)
  {
    if n > 0 {
      var prefix, last := MonitorTrace(n - 1, clock, windowOpen), IterationEmissions(n - 1, clock, windowOpen);
      assert MonitorTrace(n, clock, windowOpen) == prefix + last;
      GlobalPayloads(n - 1, clock, windowOpen);
      PayloadsAppend(prefix, last, ProcessStatus);
      IterationPayloads(n - 1, clock, windowOpen);
    }
  }

  /** The samples of iterations 0, 1, ..., n - 1. */
  function Samples(n: nat, clock: nat -> nat): seq<ProcessInfo>
  {
    if n == 0 then [] else Samples(n - 1, clock) + [Sample(n - 1, clock(n - 1))]
  }

  /** The k-th sample has id k, memory 100 + 10k and the k-th clock reading. */
  lemma {:induction false} SamplesAt(n: nat, clock: nat -> nat)
    ensures |Samples(n, clock)| == n
    ensures forall k :: 0 <= k < n ==> Samples(n, clock)[k] == Sample(k, clock(k))
  {
    if n > 0 {
      SamplesAt(n - 1, clock);
      var prev, last := Samples(n - 1, clock), Sample(n - 1, clock(n - 1));
      assert Samples(n, clock) == prev + [last];
      forall k | 0 <= k < n ensures Samples(n, clock)[k] == Sample(k, clock(k)) {
        if k < n - 1 { assert (prev + [last])[k] == prev[k]; }
      }
    }
  }

  /** The samples of those iterations among 0, 1, ..., n - 1 on which the window was found. */
  function WindowSamples(n: nat, clock: nat -> nat, windowOpen: nat -> bool): seq<ProcessInfo>
  {
    if n == 0 then []
    else WindowSamples(n - 1, clock, windowOpen) + if windowOpen(n - 1) then [Sample(n - 1, clock(n - 1))] else []
  }

  /** The window channel of the first `n` iterations carries the window samples in order. */
  lemma {:induction false} WindowPayloadsInOrder(n: nat, clock: nat -> nat, windowOpen: nat -> bool)
    ensures Payloads(MonitorTrace(n, clock, windowOpen), WindowProcessStatus) == WindowSamples(n, clock, windowOpen)
  {
    if n > 0 {
      var prefix, last := MonitorTrace(n - 1, clock, windowOpen), IterationEmissions(n - 1, clock, windowOpen);
      assert MonitorTrace(n, clock, windowOpen) == prefix + last;
      WindowPayloadsInOrder(n - 1, clock, windowOpen);
      PayloadsAppend(prefix, last, WindowProcessStatus);
      IterationPayloads(n - 1, clock, windowOpen);
    }
  }

  lemma {:induction false} WindowSamplesMembers(n: nat, clock: nat -> nat, windowOpen: nat -> bool)
    ensures forall p :: p in WindowSamples(n, clock, windowOpen) <==>
      exists k :: 0 <= k < n && windowOpen(k) && p == Sample(k, clock(k))
  {
    if n > 0 {
      WindowSamplesMembers(n - 1, clock, windowOpen);
      var before := WindowSamples(n - 1, clock, windowOpen);
      var added := if windowOpen(n - 1) then [Sample(n - 1, clock(n - 1))] else [];
      assert WindowSamples(n, clock, windowOpen) == before + added;
      forall p
        ensures p in before + added <==> exists k :: 0 <= k < n && windowOpen(k) && p == Sample(k, clock(k))
      {
        if p in before {
          var k :| 0 <= k < n - 1 && windowOpen(k) && p == Sample(k, clock(k));
          assert 0 <= k < n;
        }
      }
    }
  }

  /** The window channel carries the sample of an iteration exactly when the window was found on it. */
  lemma WindowPayloads(n: nat, clock: nat -> nat, windowOpen: nat -> bool)
    ensures forall p :: p in Payloads(MonitorTrace(n, clock, windowOpen), WindowProcessStatus) <==>
      exists k :: 0 <= k < n && windowOpen(k) && p == Sample(k, clock(k))
  {
    WindowPayloadsInOrder(n, clock, windowOpen);
    WindowSamplesMembers(n, clock, windowOpen);
  }

  /** The task spawned by `start_process_monitoring`: emits the samples of ten
      iterations and stops. `clock(k)` is the time read on iteration `k` and
      `windowOpen(k)` tells whether the window was found on iteration `k`. */
  method MonitorTask(clock: nat -> nat, windowOpen: nat -> bool) returns (emitted: seq<Emission>)
    ensures emitted == MonitorTrace(MONITOR_ITERATIONS, clock, windowOpen)
    ensures |Payloads(emitted, ProcessStatus)| == MONITOR_ITERATIONS
    ensures forall k :: 0 <= k < MONITOR_ITERATIONS ==>
      var p := Payloads(emitted, ProcessStatus)[k];
      p.id == k && p.memoryUsage == 100 + 10 * k && p.timestamp == clock(k)
  {
    var count: nat := 0;
    emitted := [];
    while true
      invariant count < MONITOR_ITERATIONS
      invariant emitted == MonitorTrace(count, clock, windowOpen)
      decreases MONITOR_ITERATIONS - count
    {
      ghost var before := emitted;
      var info := Sample(count, clock(count));
      emitted := emitted + [Emission(ProcessStatus, info)];
      if windowOpen(count) {
        emitted := emitted + [Emission(WindowProcessStatus, info)];
      }
      assert emitted == before + IterationEmissions(count, clock, windowOpen);
      count := count + 1;
      if count >= MONITOR_ITERATIONS {
        break;
      }
    }
    assert emitted == MonitorTrace(MONITOR_ITERATIONS, clock, windowOpen);
    GlobalPayloads(MONITOR_ITERATIONS, clock, windowOpen);
    SamplesAt(MONITOR_ITERATIONS, clock);
    assert Payloads(emitted, ProcessStatus) == Samples(MONITOR_ITERATIONS, clock);
  }
}
