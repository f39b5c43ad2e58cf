/**
 * The "AI Blueprint" wizard (components/AIBlueprint.tsx): three steps, one
 * option chosen per step, then a simulated deployment screen.
 */
module AIBlueprint {
  import opened Wrappers

  /** The option ids of each step, in order; titles, labels and icons are left out. */
  const StepOptions: seq<seq<string>> := [
    ["leads", "calls", "emails"],
    ["analysis", "summary", "translation"],
    ["whatsapp", "crm", "invoice"]
  ]

  /** `steps.length`. */
  const StepCount: nat := 3

  /**
   * The component's three state variables. `selections` is a JavaScript array,
   * so a slot that was never written is `None` (a hole).
   */
  datatype Wizard = Wizard(activeStep: nat, selections: seq<Option<string>>, isSimulating: bool)

  const Initial: Wizard := Wizard(0, [], false)

  /** JavaScript's `arr[i] = v`: overwrite slot `i`, or grow the array, leaving holes before `i`. */
  function WriteAt(arr: seq<Option<string>>, i: nat, v: string): (r: seq<Option<string>>)
    ensures |r| == if i < |arr| then |arr| else i + 1
    ensures r[i] == Some(v)
    ensures forall j | 0 <= j < |arr| && j != i :: r[j] == arr[j]
    ensures forall j | |arr| <= j < i :: r[j] == None
  {
    if i < |arr| then arr[i := Some(v)]
    else arr + seq(i - |arr|, _ => None) + [Some(v)]
  }

  /** `handleSelect(optionId)`: record the choice for the current step, then advance or start simulating. */
  function Select(w: Wizard, optionId: string): (r: Wizard)
    ensures |r.selections| == if w.activeStep < |w.selections| then |w.selections| else w.activeStep + 1
    ensures r.selections[w.activeStep] == Some(optionId)
    ensures forall j | 0 <= j < |w.selections| && j != w.activeStep :: r.selections[j] == w.selections[j]
    ensures w.activeStep < StepCount - 1 ==> r.activeStep == w.activeStep + 1 && r.isSimulating == w.isSimulating
    ensures w.activeStep >= StepCount - 1 ==> r.activeStep == w.activeStep && r.isSimulating
  {
    var selections := WriteAt(w.selections, w.activeStep, optionId);
    if w.activeStep < StepCount - 1 then Wizard(w.activeStep + 1, selections, w.isSimulating)
    else Wizard(w.activeStep, selections, true)
  }

  /** `reset`: back to the first step with nothing chosen. */
  function Reset(): (r: Wizard)
    ensures r.activeStep == 0 && r.selections == [] && !r.isSimulating
  {
    Initial
  }

  /** Progress segment `i` of the indicator is lit. */
  predicate SegmentLit(w: Wizard, i: nat) {
    i <= w.activeStep
  }

  /** The indicator as rendered: one flag per step. */
  function Progress(w: Wizard): (lit: seq<bool>)
    ensures |lit| == StepCount
  {
    seq(StepCount, i requires 0 <= i < StepCount => SegmentLit(w, i))
  }

  /** What the user can do: pick one of the current step's options (only while the options are shown), or start over. */
  datatype Action = Choose(optionId: string) | StartOver

  /** The options are on screen only while not simulating, and they are the current step's. */
  predicate Offered(w: Wizard, a: Action) {
    a.Choose? ==> !w.isSimulating && w.activeStep < StepCount && a.optionId in StepOptions[w.activeStep]
  }

  function Apply(w: Wizard, a: Action): Wizard {
    match a
    case Choose(id) => Select(w, id)
    case StartOver => Reset()
  }

  /** What holds of every state the wizard can reach. */
  ghost predicate Inv(w: Wizard) {
    && w.activeStep < StepCount
    && (w.isSimulating ==> w.activeStep == StepCount - 1 && |w.selections| == StepCount)
    && (!w.isSimulating ==> |w.selections| == w.activeStep)
    && forall j | 0 <= j < |w.selections| :: w.selections[j].Some? && w.selections[j].value in StepOptions[j]
  }

  /** The wizard opens in a state that satisfies the invariant. */
  lemma InitialInv()
    ensures Inv(Initial)
  {
  }

  /**
   * The wizard after the user's `actions` from `w`. An action the screen does not
   * offer at that moment cannot be taken, so it leaves the state as it is.
   */
  function Run(w: Wizard, actions: seq<Action>): Wizard
    decreases |actions|
  {
    if actions == [] then w
    else
      var next := if Offered(w, actions[0]) then Apply(w, actions[0]) else w;
      Run(next, actions[1..])
  }

  /** Every offered action keeps the invariant: the step stays in [0, 2], no hole appears, and each choice belongs to its step. */
  lemma ApplyKeepsInv(w: Wizard, a: Action)
    requires Inv(w) && Offered(w, a)
    ensures Inv(Apply(w, a))
  {
  }

  /** Every state reached from the opening one by any sequence of actions satisfies the invariant. */
  lemma {:induction false} RunKeepsInv(w: Wizard, actions: seq<Action>)
    requires Inv(w)
    ensures Inv(Run(w, actions))
    decreases |actions|
  {
    if actions != [] {
      var a := actions[0];
      if Offered(w, a) {
        ApplyKeepsInv(w, a);
      }
      var next := if Offered(w, a) then Apply(w, a) else w;
      RunKeepsInv(next, actions[1..]);
    }
  }

  /** The indicator of any reached state lights exactly the first `activeStep + 1` segments. */
  lemma ReachedProgressIsPrefix(actions: seq<Action>)
    ensures Run(Initial, actions).activeStep < StepCount
    ensures var w := Run(Initial, actions);
      Progress(w) == seq(w.activeStep + 1, _ => true) + seq(StepCount - 1 - w.activeStep, _ => false)
  {
    InitialInv();
    RunKeepsInv(Initial, actions);
    ProgressIsPrefix(Run(Initial, actions));
  }

  /** On a reachable state the lit segments are exactly the first `activeStep + 1`. */
  lemma ProgressIsPrefix(w: Wizard)
    requires Inv(w)
    ensures Progress(w) == seq(w.activeStep + 1, _ => true) + seq(StepCount - 1 - w.activeStep, _ => false)
  {
  }

  /** Three choices from the start lead to the simulation screen holding exactly those choices. */
  lemma ThreeChoicesSimulate(a: string, b: string, c: string)
    ensures Select(Select(Select(Initial, a), b), c) == Wizard(2, [Some(a), Some(b), Some(c)], true)
  {
  }
}
