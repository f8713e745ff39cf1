/**
 * The communication demo page: its state fields, the handlers that set them
 * step by step, and the trailing window of `process-status` payloads.
 * A bridge call is split into the handler that issues it and a handler for
 * its settlement; the settlement is an input.
 */
module Demo {
  import opened Wrappers
  import Backend

  /** The listener keeps this many of the most recent payloads. */
  const CAPACITY: nat := 5

  const UNKNOWN_ERROR: string := "An unknown error occurred"

  function Min(x: nat, y: nat): nat { if x < y then x else y }

  /** The last `min(|received|, CAPACITY)` elements of `received`, in arrival order. */
  function Window<T>(received: seq<T>): seq<T>
  {
    if |received| <= CAPACITY then received else received[|received| - CAPACITY..]
  }

  /** The listener's update: append the payload, then keep at most the last five. */
  function Trim<T>(current: seq<T>, payload: T): (r: seq<T>)
    ensures |r| == Min(|current| + 1, CAPACITY)
    ensures r[|r| - 1] == payload
  {
    var appended := current + [payload];
    if |appended| > CAPACITY then appended[|appended| - CAPACITY..] else appended
  }

  /** An append never takes a buffer of at most five entries above five. */
  lemma TrimBounded<T>(current: seq<T>, payload: T)
    requires |current| <= CAPACITY
    ensures |Trim(current, payload)| <= CAPACITY
  {
  }

  /** Below capacity, an append adds the payload at the end and drops nothing. */
  lemma TrimBelowCapacity<T>(current: seq<T>, payload: T)
    requires |current| < CAPACITY
    ensures Trim(current, payload) == current + [payload]
  {
  }

  /** Trimming the window of what was received gives the window of what was received next. */
  lemma TrimWindow<T>(received: seq<T>, payload: T)
    ensures Trim(Window(received), payload) == Window(received + [payload])
  {
    var n := |received|;
    var next := received + [payload];
    if n >= CAPACITY {
      assert Window(received) + [payload] == next[n - CAPACITY..];
      assert (Window(received) + [payload])[1..] == next[n + 1 - CAPACITY..];
    } else {
      assert Window(received) == received;
      assert Window(next) == next;
    }
  }

  /** The buffer the listener holds after receiving `payloads` from an empty start. */
  function Replay<T>(payloads: seq<T>): seq<T>
  {
    if payloads == [] then [] else Trim(Replay(payloads[..|payloads| - 1]), payloads[|payloads| - 1])
  }

  /** The buffer always holds the last `min(n, 5)` payloads received since the
      last reset, in arrival order. */
  lemma {:induction false} ReplayIsWindow<T>(payloads: seq<T>)
    ensures Replay(payloads) == Window(payloads)
    ensures |Replay(payloads)| == Min(|payloads|, CAPACITY)
  {
    if payloads != [] {
      var init := payloads[..|payloads| - 1];
      ReplayIsWindow(init);
      TrimWindow(init, payloads[|payloads| - 1]);
      assert init + [payloads[|payloads| - 1]] == payloads;
    }
  }

  // ---------------------------------------------------------------------------
  // The bridge

  /** Why a call was rejected: the bridge delivers a string reason or something else. */
  datatype Reason = StringReason(message: string) | OtherReason

  datatype Settlement<+T> = Resolved(value: T) | Rejected(reason: Reason)

  /** How a command's `Result` reaches the page: `Ok` resolves the call, `Err(s)` rejects it with `s`. */
  function Delivered<T>(r: Result<T, string>): Settlement<T>
  {
    match r
    case Ok(v) => Resolved(v)
    case Err(e) => Rejected(StringReason(e))
  }

  /** The text the page shows for a rejected calculation. */
  function ErrorText(reason: Reason): (r: string)
    ensures reason.StringReason? ==> r == reason.message
    ensures reason.OtherReason? ==> r == UNKNOWN_ERROR
  {
    match reason
    case StringReason(m) => m
    case OtherReason => UNKNOWN_ERROR
  }

  /** A backend error of `calculate` is shown verbatim; a rejection without a string reason shows the generic text. */
  lemma BackendErrorShown(a: Backend.i32, b: Backend.i32, operation: string, timestamp: nat)
    requires Backend.NoOverflow(a, b, operation)
    requires Backend.Calculate(a, b, operation, timestamp).Err?
    ensures ErrorText(Delivered(Backend.Calculate(a, b, operation, timestamp)).reason)
      == if operation == "divide" then Backend.DIVIDE_BY_ZERO else Backend.UNKNOWN_OPERATION + operation
  {
  }

  datatype HardwareInfo = HardwareInfo(cpu: string, memoryTotal: nat, memoryFree: nat,
                                       operatingSystem: string, hostname: string, cores: nat)

  /** The arguments `performCalculation` passes to `calculate`. */
  datatype CalculationRequest = CalculationRequest(a: int, b: int, operation: string)

  class DemoPage {
    var greeted: Option<string>
    var firstNumber: int
    var secondNumber: int
    var operation: string
    var calculationResult: Option<Backend.CalculationResult>
    var error: Option<string>
    var processStatuses: seq<Backend.ProcessInfo>
    var isMonitoring: bool
    var hardwareInfo: Option<HardwareInfo>
    var hardwareLoading: bool
    /** Whether the `process-status` listener is still registered. */
    var listening: bool
    /** The payloads received since the buffer was last emptied. */
    ghost var received: seq<Backend.ProcessInfo>

    ghost predicate Valid()
      reads this
    {
      processStatuses == Window(received)
    }

    /** The page after its first render and its effect: the buffer is emptied and the listener registered. */
    constructor ()
      ensures Valid()
      ensures greeted == None && firstNumber == 0 && secondNumber == 0 && operation == "add"
      ensures calculationResult == None && error == None
      ensures processStatuses == [] && received == [] && !isMonitoring && listening
      ensures hardwareInfo == None && !hardwareLoading
    {
      greeted := None;
      firstNumber, secondNumber, operation := 0, 0, "add";
      calculationResult, error := None, None;
      processStatuses, received := [], [];
      isMonitoring := false;
      hardwareInfo, hardwareLoading := None, false;
      listening := true;
    }

    /** The settlement of the `greet` call: a resolved greeting is stored, a rejection is only logged. */
    method GreetSettled(outcome: Settlement<string>)
      modifies this
      ensures greeted == (if outcome.Resolved? then Some(outcome.value) else old(greeted))
      ensures unchanged(this`firstNumber, this`secondNumber, this`operation, this`calculationResult, this`error)
      ensures unchanged(this`processStatuses, this`isMonitoring, this`hardwareInfo, this`hardwareLoading)
      ensures unchanged(this`listening, this`received)
    {
      if outcome.Resolved? {
        greeted := Some(outcome.value);
      }
    }

    method SetFirstNumber(n: int)
      modifies this`firstNumber
      ensures firstNumber == n
    {
      firstNumber := n;
    }

    method SetSecondNumber(n: int)
      modifies this`secondNumber
      ensures secondNumber == n
    {
      secondNumber := n;
    }

    method SetOperation(op: string)
      modifies this`operation
      ensures operation == op
    {
      operation := op;
    }

    /** `performCalculation` up to the call: clears the error and issues the request. */
    method PerformCalculation() returns (request: CalculationRequest)
      modifies this`error
      ensures error == None
      ensures request == CalculationRequest(firstNumber, secondNumber, operation)
    {
      error := None;
      request := CalculationRequest(firstNumber, secondNumber, operation);
    }

    /** The settlement of the `calculate` call. A result replaces the previous
        one and leaves the error cleared; a rejection sets the error text and
        keeps the previous result. */
    method CalculationSettled(outcome: Settlement<Backend.CalculationResult>)
      modifies this`calculationResult, this`error
      ensures outcome.Resolved? ==> calculationResult == Some(outcome.value) && error == old(error)
      ensures outcome.Rejected? ==> calculationResult == old(calculationResult)
      ensures outcome.Rejected? && outcome.reason.StringReason? ==> error == Some(outcome.reason.message)
      ensures outcome.Rejected? && outcome.reason.OtherReason? ==> error == Some(UNKNOWN_ERROR)
    {
      match outcome
      case Resolved(r) =>
        calculationResult := Some(r);
      case Rejected(reason) =>
        error := Some(ErrorText(reason));
    }

    /** `startMonitoring` up to the call: empties the buffer and raises the monitoring flag. */
    method StartMonitoring()
      requires Valid()
      modifies this`processStatuses, this`received, this`isMonitoring
      ensures Valid()
      ensures processStatuses == [] && received == [] && isMonitoring
    {
      processStatuses, received := [], [];
      isMonitoring := true;
    }

    /** The settlement of `start_process_monitoring`: only a failure lowers the flag again. */
    method StartMonitoringSettled(succeeded: bool)
      modifies this`isMonitoring
      ensures isMonitoring == (old(isMonitoring) && succeeded)
    {
      if !succeeded {
        isMonitoring := false;
      }
    }

    /** A `process-status` payload arrives: while the listener is registered the
        buffer becomes the window of everything received since the last reset. */
    method ReceiveProcessStatus(payload: Backend.ProcessInfo)
      requires Valid()
      modifies this`processStatuses, this`received
      ensures Valid()
      ensures received == if old(listening) then old(received) + [payload] else old(received)
      ensures processStatuses == if listening then Trim(old(processStatuses), payload) else old(processStatuses)
      ensures |processStatuses| <= CAPACITY
    {
      if listening {
        TrimWindow(received, payload);
        processStatuses := Trim(processStatuses, payload);
        received := received + [payload];
      }
    }

    /** `fetchHardwareInfo` up to the call. */
    method FetchHardwareInfo()
      modifies this`hardwareLoading
      ensures hardwareLoading
    {
      hardwareLoading := true;
    }

    /** The settlement of `get_hardware_info`: the flag drops whether the call
        succeeded or failed; only a success replaces the information. */
    method HardwareSettled(outcome: Settlement<HardwareInfo>)
      modifies this`hardwareInfo, this`hardwareLoading
      ensures !hardwareLoading
      ensures hardwareInfo == if outcome.Resolved? then Some(outcome.value) else old(hardwareInfo)
    {
      if outcome.Resolved? {
        hardwareInfo := Some(outcome.value);
      }
      hardwareLoading := false;
    }

    /** The effect's cleanup: the listener is removed, later payloads are not received. */
    method Unmount()
      modifies this`listening
      ensures !listening
    {
      listening := false;
    }
  }
}
