/** The process-wide switch that turns rename propagation on and off, and the
    change handler every parameter field installs on itself
    (field_parameter_flydown.js, lines 27-66). */
module ChangeHandlerGate {

  import opened Optional

  /** How a thunk run ended: it returned, or it threw. */
  datatype Outcome = Returned | Threw(error: string)

  /** The editor-wide state these operations read and write: the gate flag,
      and the texts the additional change handlers have been called with, in
      call order (the observable trace of rename propagation). */
  datatype Editor = Editor(changeHandlerEnabled: bool, propagated: seq<string>)

  /** The state after running some code, and how that code ended. */
  datatype Run = Run(editor: Editor, outcome: Outcome)

  /** Code handed to `WithChangeHandlerDisabled`: it may change anything in
      the editor, the gate flag included, and it may throw. */
  type Thunk = Editor -> Run

  /** What a call of the additional handler does: return some value, which
      the caller ignores, or throw. */
  datatype Reply = Value(value: string) | Failure(error: string)

  /** The optional one-argument handler a field is constructed with. */
  type AdditionalHandler = string -> Reply

  /** How the change handler ends: it hands a text back to the text-input
      base class, or the additional handler's exception passes through it. */
  datatype Handled = Gives(editor: Editor, text: string) | Raises(editor: Editor, error: string)

  /** The gate is enabled when the editor starts. */
  const InitialEditor: Editor := Editor(true, [])

  /** Runs `thunk` with the gate switched off and puts the old flag back on
      every exit path, whatever the thunk did to the flag. */
  function WithChangeHandlerDisabled(e: Editor, thunk: Thunk): (r: Run)
    ensures r.editor.changeHandlerEnabled == e.changeHandlerEnabled
    ensures r.outcome == thunk(e.(changeHandlerEnabled := false)).outcome
    ensures r.editor.propagated == thunk(e.(changeHandlerEnabled := false)).editor.propagated
  {
    var oldFlag := e.changeHandlerEnabled;
    var inner := thunk(e.(changeHandlerEnabled := false));
    Run(inner.editor.(changeHandlerEnabled := oldFlag), inner.outcome)
  }

  /** The per-field handler built in the constructor: it calls the additional
      handler only while the gate is on; when it returns, it hands back its
      input, and an exception from the additional handler passes through. */
  function ChangeHandler(e: Editor, extra: Option<AdditionalHandler>, text: string): (r: Handled)
    ensures r.editor.changeHandlerEnabled == e.changeHandlerEnabled
    ensures r.Gives? ==> r.text == text
    ensures r.Raises? <==> e.changeHandlerEnabled && extra.Some? && extra.value(text).Failure?
    ensures r.Raises? ==> r.error == extra.value(text).error
    ensures e.changeHandlerEnabled && extra.Some? ==> r.editor.propagated == e.propagated + [text]
    ensures !e.changeHandlerEnabled || extra.None? ==> r == Gives(e, text)
  {
    if e.changeHandlerEnabled then
      if extra.Some? then
        var called := e.(propagated := e.propagated + [text]);
        match extra.value(text)
        case Value(_) => Gives(called, text)
        case Failure(err) => Raises(called, err)
      else
        Gives(e, text)
    else
      Gives(e, text)
  }

  /** Whatever values two returning additional handlers compute, the change
      handler's result is the same: the handler is called for its side
      effect only. */
  lemma ChangeHandlerIgnoresHandlerResult(e: Editor, f: AdditionalHandler, g: AdditionalHandler, text: string)
    requires f(text).Value? && g(text).Value?
    ensures ChangeHandler(e, Some(f), text) == ChangeHandler(e, Some(g), text)
  {
  }

  /** The position of the first text the handler throws on, or `|texts|`. */
  function FirstFailure(h: AdditionalHandler, texts: seq<string>): (k: nat)
    ensures k <= |texts|
    ensures forall i :: 0 <= i < k ==> h(texts[i]).Value?
    ensures k < |texts| ==> h(texts[k]).Failure?
    decreases |texts|
  {
    if texts == [] then 0
    else if h(texts[0]).Failure? then 0
    else 1 + FirstFailure(h, texts[1..])
  }

  /** A batch of text changes on fields sharing one additional handler, as a
      thunk: each change goes through `ChangeHandler` in order. */
  function HandleAll(e: Editor, extra: Option<AdditionalHandler>, texts: seq<string>): (r: Run)
    decreases |texts|
  {
    if texts == [] then Run(e, Returned)
    else match ChangeHandler(e, extra, texts[0])
      case Gives(e1, _) => HandleAll(e1, extra, texts[1..])
      case Raises(e1, err) => Run(e1, Threw(err))
  }

  /** With the gate off, no change in the batch propagates: the editor is
      left exactly as it was. */
  lemma {:induction false} HandleAllSilentWhileDisabled(e: Editor, extra: Option<AdditionalHandler>, texts: seq<string>)
    requires !e.changeHandlerEnabled
    ensures HandleAll(e, extra, texts) == Run(e, Returned)
    decreases |texts|
  {
    if texts != [] {
      HandleAllSilentWhileDisabled(ChangeHandler(e, extra, texts[0]).editor, extra, texts[1..]);
    }
  }

  /** With the gate on and a handler present, the changes reach the handler
      once each, in order, up to and including the first one it throws on;
      that exception ends the batch, and the changes after it never run. */
  lemma {:induction false} HandleAllPropagatesWhileEnabled(e: Editor, h: AdditionalHandler, texts: seq<string>)
    requires e.changeHandlerEnabled
    ensures var k := FirstFailure(h, texts);
            var r := HandleAll(e, Some(h), texts);
            && r.editor.changeHandlerEnabled
            && (k == |texts| ==> r.outcome == Returned && r.editor.propagated == e.propagated + texts)
            && (k < |texts| ==> r.outcome == Threw(h(texts[k]).error)
                                && r.editor.propagated == e.propagated + texts[..k + 1])
    decreases |texts|
  {
    if texts != [] {
      var e1 := ChangeHandler(e, Some(h), texts[0]).editor;
      if h(texts[0]).Value? {
        HandleAllPropagatesWhileEnabled(e1, h, texts[1..]);
        assert e.propagated + [texts[0]] + texts[1..] == e.propagated + texts;
        var k := FirstFailure(h, texts);
        if k < |texts| {
          assert texts[1..][..k - 1 + 1] == texts[1..k + 1];
          assert e.propagated + [texts[0]] + texts[1..k + 1] == e.propagated + texts[..k + 1];
        }
      } else {
        assert texts[..1] == [texts[0]];
      }
    }
  }

  /** A batch run inside `WithChangeHandlerDisabled` propagates nothing and
      leaves the gate as it found it, whatever state the gate was in. */
  lemma BulkUpdateUnderGate(e: Editor, extra: Option<AdditionalHandler>, texts: seq<string>)
    ensures WithChangeHandlerDisabled(e, (e': Editor) => HandleAll(e', extra, texts)) == Run(e, Returned)
  {
    HandleAllSilentWhileDisabled(e.(changeHandlerEnabled := false), extra, texts);
  }

  /** Nesting one disabled scope inside another is the same as one scope. */
  lemma NestedScopesCollapse(e: Editor, thunk: Thunk)
    ensures WithChangeHandlerDisabled(e, (e': Editor) => WithChangeHandlerDisabled(e', thunk))
         == WithChangeHandlerDisabled(e, thunk)
  {
  }
}
