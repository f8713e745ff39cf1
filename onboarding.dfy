/**
 * The four-step onboarding wizard: personal information, wallet, confirmation
 * with the terms checkbox, and the success screen. The page holds a step
 * number and a form; its handlers change them without looking at the step,
 * and the step's screen decides which inputs and buttons exist.
 */
module Onboarding {
  import opened Wrappers

  datatype FormData = FormData(name: string, email: string, walletAddress: string, acceptTerms: bool)

  function EmptyForm(): FormData
  {
    FormData("", "", "", false)
  }

  /** The `name` attribute of an input, one per form field. */
  datatype Field = Name | Email | WalletAddress | AcceptTerms

  /** The `type` attribute of an input. */
  datatype InputKind = TextInput | EmailInput | CheckboxInput

  /** What an input reports on change: its name, its type, its text and its checked flag. */
  datatype ChangeEvent = ChangeEvent(name: Field, kind: InputKind, value: string, checked: bool)

  /** A field's value in the form object. */
  datatype Value = Text(text: string) | Flag(flag: bool)

  function Get(f: FormData, field: Field): Value
  {
    match field
    case Name => Text(f.name)
    case Email => Text(f.email)
    case WalletAddress => Text(f.walletAddress)
    case AcceptTerms => Flag(f.acceptTerms)
  }

  /** The type of the input the page renders for each field. */
  function KindOf(field: Field): InputKind
  {
    match field
    case Name => TextInput
    case Email => EmailInput
    case WalletAddress => TextInput
    case AcceptTerms => CheckboxInput
  }

  /** The event comes from the input the page renders for its field. */
  predicate FromPageInput(e: ChangeEvent)
  {
    e.kind == KindOf(e.name)
  }

  /** The value `handleChange` stores: `checked` for a checkbox, `value` otherwise. */
  function StoredValue(e: ChangeEvent): Value
  {
    if e.kind == CheckboxInput then Flag(e.checked) else Text(e.value)
  }

  /** The form after `handleChange`: the named field takes the event's value and no other field changes. */
  function Updated(f: FormData, e: ChangeEvent): (g: FormData)
    requires FromPageInput(e)
    ensures forall field :: Get(g, field) == if field == e.name then StoredValue(e) else Get(f, field)
  {
    match e.name
    case Name => f.(name := e.value)
    case Email => f.(email := e.value)
    case WalletAddress => f.(walletAddress := e.value)
    case AcceptTerms => f.(acceptTerms := e.checked)
  }

  // ---------------------------------------------------------------------------
  // The wizard as a transition system

  datatype State = State(step: int, form: FormData)

  function Initial(): State
  {
    State(1, EmptyForm())
  }

  datatype Action = Next | Prev | Submit | GoToTasks | Change(event: ChangeEvent)

  /** What each handler does; none of them checks the step it is on.
      Going to the task page leaves the wizard's state as it is. */
  function Apply(s: State, a: Action): (r: State)
    requires a.Change? ==> FromPageInput(a.event)
    ensures a.Change? ==> r.step == s.step
    ensures !a.Change? ==> r.form == s.form
    ensures a == Next ==> r.step == s.step + 1
    ensures a == Prev ==> r.step == s.step - 1
    ensures a == Submit ==> r.step == 4
    ensures a == GoToTasks ==> r == s
  {
    match a
    case Next => s.(step := s.step + 1)
    case Prev => s.(step := s.step - 1)
    case Submit => s.(step := 4)
    case GoToTasks => s
    case Change(e) => s.(form := Updated(s.form, e))
  }

  /** The buttons the screen of each step renders. */
  function Buttons(step: int): (r: set<Action>)
    ensures r == {} <==> !(1 <= step <= 4)
    ensures Next in r <==> step == 1 || step == 2
    ensures Prev in r <==> step == 2 || step == 3
    ensures Submit in r <==> step == 3
    ensures GoToTasks in r <==> step == 4
    ensures forall a :: a in r ==> !a.Change?
  {
    if step == 1 then {Next}
    else if step == 2 then {Prev, Next}
    else if step == 3 then {Prev, Submit}
    else if step == 4 then {GoToTasks}
    else {}
  }

  /** The fields the screen of each step has inputs for. */
  function Inputs(step: int): (r: set<Field>)
    ensures r == {} <==> !(1 <= step <= 3)
    ensures AcceptTerms in r <==> step == 3
    ensures WalletAddress in r <==> step == 2
  {
    if step == 1 then {Name, Email}
    else if step == 2 then {WalletAddress}
    else if step == 3 then {AcceptTerms}
    else {}
  }

  /** The user can take action `a`: a rendered button that is not disabled
      (submit is disabled until the terms are accepted), or a change of a
      rendered input. */
  predicate Enabled(s: State, a: Action)
    ensures Enabled(s, a) ==> 1 <= s.step <= 4
    ensures Enabled(s, a) && a == Submit ==> s.step == 3 && s.form.acceptTerms
    ensures Enabled(s, a) && a.Change? ==> s.step <= 3 && FromPageInput(a.event)
  {
    match a
    case Change(e) => FromPageInput(e) && e.name in Inputs(s.step)
    case Submit => Submit in Buttons(s.step) && s.form.acceptTerms
    case _ => a in Buttons(s.step)
  }

  /** Each action of the sequence is enabled in the state the previous ones lead to. */
  predicate ValidTrace(s: State, actions: seq<Action>)
    decreases |actions|
  {
    actions == [] || (Enabled(s, actions[0]) && ValidTrace(Apply(s, actions[0]), actions[1..]))
  }

  function Run(s: State, actions: seq<Action>): State
    requires ValidTrace(s, actions)
    decreases |actions|
  {
    if actions == [] then s else Run(Apply(s, actions[0]), actions[1..])
  }

  /** What holds of every state the user can reach. */
  predicate Reachable(s: State)
  {
    1 <= s.step <= 4 && (s.step == 4 ==> s.form.acceptTerms)
  }

  lemma EnabledKeepsReachable(s: State, a: Action)
    requires Reachable(s) && Enabled(s, a)
    ensures Reachable(Apply(s, a))
  {
  }

  /** Through the screens the step stays within 1..4, and the success screen
      is only reached with the terms accepted. */
  lemma {:induction false} RunKeepsReachable(s: State, actions: seq<Action>)
    requires Reachable(s) && ValidTrace(s, actions)
    ensures Reachable(Run(s, actions))
    decreases |actions|
  {
    if actions != [] {
      EnabledKeepsReachable(s, actions[0]);
      RunKeepsReachable(Apply(s, actions[0]), actions[1..]);
    }
  }

  lemma ReachableFromInitial(actions: seq<Action>)
    requires ValidTrace(Initial(), actions)
    ensures 1 <= Run(Initial(), actions).step <= 4
    ensures Run(Initial(), actions).step == 4 ==> Run(Initial(), actions).form.acceptTerms
  {
    RunKeepsReachable(Initial(), actions);
  }

  /** Every one of the four steps can be reached. */
  lemma StepReachable(k: int) returns (trace: seq<Action>)
    requires 1 <= k <= 4
    ensures ValidTrace(Initial(), trace) && Run(Initial(), trace).step == k
  {
    var accept := Change(ChangeEvent(AcceptTerms, CheckboxInput, "", true));
    if k == 1 {
      trace := [];
    } else if k == 2 {
      trace := [Next];
    } else if k == 3 {
      trace := [Next, Next];
    } else {
      trace := [Next, Next, accept, Submit];
      var s3 := State(3, EmptyForm());
      var s3' := Apply(s3, accept);
      assert s3'.form.acceptTerms && s3'.step == 3;
      assert ValidTrace(s3', [Submit]) && Run(s3', [Submit]).step == 4;
      assert [accept, Submit][1..] == [Submit];
      assert ValidTrace(s3, [accept, Submit]) && Run(s3, [accept, Submit]).step == 4;
      assert trace[1..] == [Next, accept, Submit] && trace[1..][1..] == [accept, Submit];
    }
  }

  /** On the confirmation screen, submitting is possible exactly when the terms are accepted, and it leads to step 4. */
  lemma SubmitGate(s: State)
    requires s.step == 3
    ensures Enabled(s, Submit) <==> s.form.acceptTerms
    ensures Apply(s, Submit).step == 4 && Apply(s, Submit).form == s.form
  {
  }

  /** The success screen is final for the wizard: every action it offers leaves the state as it is. */
  lemma SuccessIsFinal(s: State, a: Action)
    requires s.step == 4 && Enabled(s, a)
    ensures Apply(s, a) == s
  {
  }

  // ---------------------------------------------------------------------------
  // What is rendered

  datatype Screen = PersonalInfo | ConnectWallet | Confirm | Success

  function Rendered(step: int): (r: Option<Screen>)
    ensures r.Some? <==> 1 <= step <= 4
    ensures r == Some(Success) <==> step == 4
  {
    if step == 1 then Some(PersonalInfo)
    else if step == 2 then Some(ConnectWallet)
    else if step == 3 then Some(Confirm)
    else if step == 4 then Some(Success)
    else None
  }

  /** A screen is rendered exactly for steps 1..4, and distinct steps render distinct screens. */
  lemma RenderedScreens(step: int, other: int)
    ensures Rendered(step).Some? <==> 1 <= step <= 4
    ensures Rendered(step).Some? && Rendered(step) == Rendered(other) ==> step == other
  {
  }

  /** The number of circles of the progress indicator */
  const INDICATOR_ITEMS: nat := 3

  /** Circle `item` of the progress indicator is highlighted. */
  predicate CircleLit(step: int, item: int) { step >= item }

  /** The connector after circle `item` is highlighted. */
  predicate ConnectorLit(step: int, item: int)
    ensures ConnectorLit(step, item) <==> CircleLit(step, item + 1)
  {
    step > item
  }

  /** How many of the circles 1..n are highlighted. */
  function LitCircles(step: int, n: nat): nat
  {
    if n == 0 then 0 else LitCircles(step, n - 1) + if CircleLit(step, n) then 1 else 0
  }

  /** How many of the connectors 1..n are highlighted. */
  function LitConnectors(step: int, n: nat): nat
  {
    if n == 0 then 0 else LitConnectors(step, n - 1) + if ConnectorLit(step, n) then 1 else 0
  }

  function Clamp(x: int, hi: nat): nat { if x < 0 then 0 else if x > hi then hi else x }

  lemma {:induction false} LitCirclesCount(step: int, n: nat)
    ensures LitCircles(step, n) == Clamp(step, n)
  {
    if n > 0 { LitCirclesCount(step, n - 1); }
  }

  lemma {:induction false} LitConnectorsCount(step: int, n: nat)
    ensures LitConnectors(step, n) == Clamp(step - 1, n)
  {
    if n > 0 { LitConnectorsCount(step, n - 1); }
  }

  /** The indicator shows progress: on step k the first min(k, 3) circles and
      the first min(k - 1, 2) connectors are highlighted, and a highlighted
      connector always sits between two highlighted circles. */
  lemma IndicatorShowsStep(step: int)
    requires 1 <= step <= 4
    ensures LitCircles(step, INDICATOR_ITEMS) == (if step < 3 then step else 3)
    ensures LitConnectors(step, INDICATOR_ITEMS - 1) == (if step - 1 < 2 then step - 1 else 2)
    ensures forall item :: 1 <= item < INDICATOR_ITEMS && ConnectorLit(step, item) ==>
      CircleLit(step, item) && CircleLit(step, item + 1)
  {
    LitCirclesCount(step, INDICATOR_ITEMS);
    LitConnectorsCount(step, INDICATOR_ITEMS - 1);
  }

  // ---------------------------------------------------------------------------
  // The page

  class OnboardingPage {
    var step: int
    var formData: FormData

    function Current(): State
      reads this
    {
      State(step, formData)
    }

    /** The page on mount: step 1 with an empty form. */
    constructor ()
      ensures step == 1 && formData == EmptyForm()
      ensures Current() == Initial()
    {
      step := 1;
      formData := EmptyForm();
    }

    /** `handleChange`: only the named field changes. */
    method HandleChange(e: ChangeEvent)
      requires FromPageInput(e)
      modifies this
      ensures step == old(step)
      ensures forall field :: Get(formData, field) == if field == e.name then StoredValue(e) else Get(old(formData), field)
      ensures Current() == Apply(old(Current()), Change(e))
    {
      formData := Updated(formData, e);
    }

    /** `nextStep`: one step forward, without a bound check. */
    method NextStep()
      modifies this
      ensures step == old(step) + 1 && formData == old(formData)
      ensures Current() == Apply(old(Current()), Next)
    {
      step := step + 1;
    }

    /** `prevStep`: one step back, without a bound check. */
    method PrevStep()
      modifies this
      ensures step == old(step) - 1 && formData == old(formData)
      ensures Current() == Apply(old(Current()), Prev)
    {
      step := step - 1;
    }

    /** `handleSubmit`: to the success screen; the form is only logged. */
    method HandleSubmit()
      modifies this
      ensures step == 4 && formData == old(formData)
      ensures Current() == Apply(old(Current()), Submit)
    {
      step := 4;
    }
  }
}
