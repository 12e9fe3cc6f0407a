# Parameter-name field with getter/setter flydown — a Dafny model

This project models the sequential logic of `FieldParameterFlydown`, the
editable parameter-name field of the Blockly-based block editor. The field
names a declared variable inside a block. On hover it offers a flydown of a
getter and a setter block for that variable. When its name is edited, it
propagates the rename without triggering reentrant update loops.

Four pieces are modelled, one module each. A fifth module, `Optional`, holds
the `Option` type they share.

- `ChangeHandlerGate` (`gate.dfy`): the process-wide `changeHandlerEnabled`
  flag, `withChangeHanderDisabled`, and the change handler that every field
  builds in its constructor. The global state is an `Editor` record. It holds
  the gate flag and the texts the additional change handlers were called
  with, in call order. A thunk is a function from `Editor` to a `Run`, which
  is the resulting state plus an `Outcome` (`Returned` or `Threw`). A thunk
  may change anything, the flag included.
- `ReentrancyGuard` (`settext.dfy`): `setText` and its `alreadySettingText`
  flag, as a two-state `Guard` (`Idle`, `Mutating`). A field starts `Idle`,
  because the flag is unset and so falsy. The base text-input `setText` is an
  abstract `Delegate`. Given the current and the requested text, it yields
  the steps it performs: `Store` a text, or make a `NestedSetText` call on the
  same field. The field records every text the delegate was invoked with.
- `Flydown` (`flydown.dfy`): the scoped variable name and the XML string
  offered by the flydown. An independent structured form (`BlockDescriptor`,
  `XmlDocument`) serves as the reference for the XML's shape.
- `ContextMenu` (`menu.dfy`): `addHorizontalVerticalOption`. A method
  follows the source's two index scans and splices. Recursive reference
  definitions state what the method must compute: `FirstIndex`,
  `InsertBeforeFirst`, `RemoveFirst` and `Augmented`.

## Notes on the code as written

- The change handler always returns its input `text` (lines 37 and 39). When
  the additional handler runs (line 34), its result is thrown away.
- `setText` (lines 72-77) has no `try`/`finally`. If the base `setText` throws,
  `alreadySettingText` stays set. The model therefore makes no claim about a
  failing delegate.
- The doc comment of `flydownBlocksXML_` (lines 82-83) says it returns a list
  of two XML elements. The code (lines 92-105) returns one string holding an
  `<xml>` document with both blocks, and the model follows the code.

## Model

| member | source | states |
|---|---|---|
| ChangeHandlerGate.WithChangeHandlerDisabled | octopus/blocktopus/blockly/core/field_parameter_flydown.js:58-66 | The thunk runs starting from the gate switched off. Afterwards the gate holds its value from before the call, whatever the thunk did to it. The thunk's outcome, returned or thrown, is passed on unchanged, and so are its propagation effects. |
| ChangeHandlerGate.ChangeHandler | octopus/blocktopus/blockly/core/field_parameter_flydown.js:29-41 | The additional handler is called once, with the text, only when the gate is on and a handler was given. Otherwise the handler returns its input and nothing in the editor changes. When it returns, it returns its input text. It throws exactly when the additional handler throws, with the same error. The gate never changes. |
| ChangeHandlerGate.ChangeHandlerIgnoresHandlerResult | octopus/blocktopus/blockly/core/field_parameter_flydown.js:33-37 | Two additional handlers that both return, with whatever values, give the same outcome. The handler is called for its side effect only. |
| ChangeHandlerGate.HandleAllSilentWhileDisabled | octopus/blocktopus/blockly/core/field_parameter_flydown.js:38-40 | While the gate is off, a batch of text changes leaves the editor exactly as it was. Nothing propagates. |
| ChangeHandlerGate.HandleAllPropagatesWhileEnabled | octopus/blocktopus/blockly/core/field_parameter_flydown.js:30-35 | While the gate is on and a handler is present, the changes reach the handler once each, in order. If the handler throws, that change is the last to reach it, and the batch ends with the handler's exception. Otherwise the batch returns normally after every change has reached it. The gate is left on. |
| ChangeHandlerGate.BulkUpdateUnderGate | octopus/blocktopus/blockly/core/field_parameter_flydown.js:51-66 | A batch of field changes run inside the disabled scope propagates nothing. It leaves the editor, gate included, as it found it, whether the gate was on or off before. |
| ChangeHandlerGate.NestedScopesCollapse | octopus/blocktopus/blockly/core/field_parameter_flydown.js:58-66 | A disabled scope nested inside another is equivalent to a single scope. |
| ReentrancyGuard.SetText | octopus/blocktopus/blockly/core/field_parameter_flydown.js:72-78 | A call while the field is mutating returns the field unchanged: text, guard and delegate record. A call from idle ends idle. |
| ReentrancyGuard.RunDelegate | octopus/blocktopus/blockly/core/field_parameter_flydown.js:74-75 | The guard stays `Mutating` for the whole time the delegate runs, nested calls included. |
| ReentrancyGuard.NestedCallsDoNotReachDelegate | octopus/blocktopus/blockly/core/field_parameter_flydown.js:68-78 | Nested `setText` calls made during the delegate have no effect. The delegate's only effect is the last text it stores. |
| ReentrancyGuard.SetTextFromIdle | octopus/blocktopus/blockly/core/field_parameter_flydown.js:72-77 | A call from idle invokes the delegate exactly once, with the requested text. It ends idle and leaves the last text the delegate stored. |
| ReentrancyGuard.OneDelegateCallPerOuterCall | octopus/blocktopus/blockly/core/field_parameter_flydown.js:68-78 | Over any run of outer calls, however the delegates re-enter, the delegate sees exactly the outer texts, once each and in order. The field ends idle. |
| Flydown.ScopedName | octopus/blocktopus/blockly/core/field_parameter_flydown.js:86-91 | Without a scope the name is the text itself. With a scope its length is twice the text's plus the scope name's plus four. Either way it starts and ends with the text. |
| Flydown.ScopeRecoverable | octopus/blocktopus/blockly/core/field_parameter_flydown.js:86-91 | Given the text, the scoped name determines the scope: reading the scope back from the name returns the scope it was built from. |
| Flydown.ScopeOfSound | octopus/blocktopus/blockly/core/field_parameter_flydown.js:88 | Every name the reader accepts is exactly the `text@@scope::text` composition of the scope it returns. |
| Flydown.FlydownBlocksXml | octopus/blocktopus/blockly/core/field_parameter_flydown.js:92-105 | The XML is an `<xml>` document holding exactly two blocks: first a `lexical_variable_get` block, then a `lexical_variable_set` block. Both have a `VAR` title carrying the scoped name. |
| Flydown.FlydownXmlInjective | octopus/blocktopus/blockly/core/field_parameter_flydown.js:85-106 | Equal flydown documents carry equal scoped names. |
| Flydown.FlydownXmlDeterminesScope | octopus/blocktopus/blockly/core/field_parameter_flydown.js:85-106 | For one field text, the flydown document determines the scope. |
| ContextMenu.OrientationLabelNamesResult | octopus/blocktopus/blockly/core/field_parameter_flydown.js:121-125 | The new option is enabled. Its label is the vertical label exactly when clicking it makes the parameters vertical, and the horizontal label exactly when clicking makes them horizontal. |
| ContextMenu.FirstIndex | octopus/blocktopus/blockly/core/field_parameter_flydown.js:128-133 | The scan stops at the first option with the wanted label, and no earlier option has it. When no option has it, the scan returns the list length. |
| ContextMenu.InsertBeforeFirstSplices | octopus/blocktopus/blockly/core/field_parameter_flydown.js:127-136 | Inserting before the first match is the splice at the scan's index. With no match, the list is unchanged. |
| ContextMenu.RemoveFirstSplices | octopus/blocktopus/blockly/core/field_parameter_flydown.js:138-148 | Removing the first match is the splice that deletes the option at the scan's index. With no match, the list is unchanged. |
| ContextMenu.RemoveInsertCommute | octopus/blocktopus/blockly/core/field_parameter_flydown.js:127-148 | Suppose neither the anchor label nor the inserted option carries the removed label. Then inserting and then removing gives the same list as removing and then inserting. |
| ContextMenu.InsertCounts | octopus/blocktopus/blockly/core/field_parameter_flydown.js:134-136 | Inserting adds exactly one option, and only when the anchor is present. Every other label's count is unchanged. |
| ContextMenu.RemoveCounts | octopus/blocktopus/blockly/core/field_parameter_flydown.js:138-148 | Removing drops exactly one option with the removed label when one exists. Every other label's count is unchanged. |
| ContextMenu.InsertLandsBeforeAnchor | octopus/blocktopus/blockly/core/field_parameter_flydown.js:127-136 | After insertion the list is one longer. The new option sits where the first anchor was, and that anchor moves up by exactly one. |
| ContextMenu.AugmentedReordersNothing | octopus/blocktopus/blockly/core/field_parameter_flydown.js:115-150 | Assume the edit applies and the labels are distinct. Then the result is the list with its first "Inline Inputs" entry removed, with the toggle inserted before the first "Collapse Block" entry. All other entries keep their relative order. |
| ContextMenu.AugmentedLength | octopus/blocktopus/blockly/core/field_parameter_flydown.js:115-150 | The list grows by one if a "Collapse Block" entry exists. It shrinks by one if an "Inline Inputs" entry exists. |
| ContextMenu.AugmentedRemovesOneInline | octopus/blocktopus/blockly/core/field_parameter_flydown.js:138-148 | Exactly one "Inline Inputs" entry is removed, wherever it is, if there is any. |
| ContextMenu.AugmentedPlacesToggle | octopus/blocktopus/blockly/core/field_parameter_flydown.js:121-136 | If a "Collapse Block" entry exists, the toggle sits immediately before the result's first such entry. That entry is the same option the original list had first. |
| ContextMenu.InsertsBeforeCollapse | octopus/blocktopus/blockly/core/field_parameter_flydown.js:115-150 | Worked example: `[A, Collapse Block, B]` becomes `[A, toggle, Collapse Block, B]`. |
| ContextMenu.AddHorizontalVerticalOption | octopus/blocktopus/blockly/core/field_parameter_flydown.js:115-150 | The list is unchanged when the block has no parameters (including no `getParameters` at all), when collapsing is disabled, or when `collapsed` is set. Otherwise the two index scans and splices compute exactly the reference result: insert before the first "Collapse Block" entry, then remove the first "Inline Inputs" entry. |

## Left out

- Styling: the CSS class names (lines 47 and 49), and all rendering, mouse-over and flyout display from the base field classes.
- The base `Blockly.FieldTextInput.prototype.setText` is not part of this model. It is the abstract `Delegate`, whose steps depend only on the current and the requested text. It cannot look at the field again partway through its run.
- A delegate that throws inside `setText`: the source has no `try`/`finally` there (lines 72-77), so nothing is claimed about the guard after a failure.
- `setText(null)` during disposal: texts are strings. The null case the comment at line 70 mentions is not modelled.
- ChangeHandlerGate.ChangeHandler: the additional handler's effects, such as renaming lexical variables, are not modelled. Its `this` binding is also not modelled. Only its invocation, with the text, is recorded, together with whether it returned or threw.
- The scope resolver and block internals: `getVariableScope().getName()` is an optional scope name, `getParameters().length` is an optional count, and `setParameterOrientation` is the recorded callback `FlipParameterOrientation`.
- ContextMenu.AddHorizontalVerticalOption: `this.collapsed` at line 120 is an opaque boolean input. No claim is made that it reflects whether the block is collapsed.
- ContextMenu.AddHorizontalVerticalOption: the source splices the caller's `options` array in place (lines 135 and 147) and returns nothing. The model returns the edited list as a new sequence instead. The second scan reads the list after the insertion, as the source's does.
- ContextMenu.AddHorizontalVerticalOption: the scans at lines 129 and 140 stop at a falsy entry. Options here are records that cannot be null, so that case cannot arise.
- Localised labels: the four labels are a parameter. The lemmas that need them to differ require this (`DistinctLabels`); the operation itself does not.
- Parsing or instantiating the flydown XML: only the produced string is modelled.
