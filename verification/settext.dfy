/** The reentrancy guard on a parameter field's `setText`
    (field_parameter_flydown.js, lines 68-78). The base text-input `setText`
    is an abstract delegate: it may store text and may call `setText` on the
    same field again, which is the loop the guard exists to cut. */
module ReentrancyGuard {

  /** The `alreadySettingText` flag as a two-state machine. */
  datatype Guard = Idle | Mutating

  /** One parameter field: its text, its guard, and the requested texts the
      base delegate has been invoked with, in call order. */
  datatype Field = Field(text: string, guard: Guard, delegateCalls: seq<string>)

  /** One thing the base delegate does: store a text in the field, or call
      `setText` on the same field again (through a rename handler, say). */
  datatype Step = Store(text: string) | NestedSetText(text: string)

  /** The base delegate, given the field's current text and the requested
      one, as the steps it performs in order. */
  type Delegate = (string, string) -> seq<Step>

  /** The text left in a field that held `current` once `steps` are done,
      counting only `Store` steps: the last one stored wins. */
  function LastStored(current: string, steps: seq<Step>): string
    decreases |steps|
  {
    if steps == [] then current
    else match steps[0]
      case Store(t) => LastStored(t, steps[1..])
      case NestedSetText(_) => LastStored(current, steps[1..])
  }

  /** `setText`: a no-op while the field is already mutating; otherwise
      enter `Mutating`, run the base delegate once, and go back to `Idle`. */
  function SetText(f: Field, text: string, base: Delegate): (r: Field)
    ensures f.guard == Mutating ==> r == f
    ensures f.guard == Idle ==> r.guard == Idle
    decreases if f.guard == Idle then 1 else 0, 0, 0
  {
    if f.guard == Mutating then f
    else
      var entered := f.(guard := Mutating, delegateCalls := f.delegateCalls + [text]);
      RunDelegate(entered, base(f.text, text), base).(guard := Idle)
  }

  /** Performs the delegate's steps on a field that is mutating. */
  function RunDelegate(f: Field, steps: seq<Step>, base: Delegate): (r: Field)
    requires f.guard == Mutating
    ensures r.guard == Mutating
    decreases 0, 1, |steps|
  {
    if steps == [] then f
    else match steps[0]
      case Store(t) => RunDelegate(f.(text := t), steps[1..], base)
      case NestedSetText(t) => RunDelegate(SetText(f, t, base), steps[1..], base)
  }

  /** While the delegate runs, nested `setText` calls change nothing: the
      only effect of the steps is the text they store. */
  lemma {:induction false} NestedCallsDoNotReachDelegate(f: Field, steps: seq<Step>, base: Delegate)
    requires f.guard == Mutating
    ensures RunDelegate(f, steps, base) == f.(text := LastStored(f.text, steps))
    decreases |steps|
  {
    if steps != [] {
      match steps[0]
      case Store(t) =>
        NestedCallsDoNotReachDelegate(f.(text := t), steps[1..], base);
      case NestedSetText(t) =>
        NestedCallsDoNotReachDelegate(f, steps[1..], base);
    }
  }

  /** `setText` from `Idle` invokes the delegate exactly once, with the
      requested text, ends `Idle`, and leaves the last stored text. */
  lemma SetTextFromIdle(f: Field, text: string, base: Delegate)
    requires f.guard == Idle
    ensures SetText(f, text, base).delegateCalls == f.delegateCalls + [text]
    ensures SetText(f, text, base).guard == Idle
    ensures SetText(f, text, base).text == LastStored(f.text, base(f.text, text))
  {
    NestedCallsDoNotReachDelegate(f.(guard := Mutating, delegateCalls := f.delegateCalls + [text]), base(f.text, text), base);
  }

  /** A run of outer `setText` calls, one after another. */
  function SetTexts(f: Field, texts: seq<string>, base: Delegate): Field
    decreases |texts|
  {
    if texts == [] then f else SetTexts(SetText(f, texts[0], base), texts[1..], base)
  }

  /** However the delegates re-enter, each outer call from `Idle` reaches
      the delegate exactly once: the delegate sees exactly the outer texts. */
  lemma {:induction false} OneDelegateCallPerOuterCall(f: Field, texts: seq<string>, base: Delegate)
    requires f.guard == Idle
    ensures SetTexts(f, texts, base).delegateCalls == f.delegateCalls + texts
    ensures SetTexts(f, texts, base).guard == Idle
    decreases |texts|
  {
    if texts != [] {
      SetTextFromIdle(f, texts[0], base);
      OneDelegateCallPerOuterCall(SetText(f, texts[0], base), texts[1..], base);
      assert f.delegateCalls + [texts[0]] + texts[1..] == f.delegateCalls + texts;
    }
  }
}
