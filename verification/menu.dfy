/** The context-menu edit `addHorizontalVerticalOption`
    (field_parameter_flydown.js, lines 108-150): offer a parameter
    orientation toggle just before "Collapse Block", then drop the first
    "Inline Inputs" entry. */
module ContextMenu {

  import opened Optional

  /** What choosing an option does: the new option flips the block's
      parameter orientation; the host's own options are foreign code. */
  datatype Callback = FlipParameterOrientation | Foreign(id: nat)

  datatype MenuOption = MenuOption(text: string, enabled: bool, callback: Callback)

  /** The localised labels the edit compares against and shows. */
  datatype Labels = Labels(collapseBlock: string, inlineInputs: string,
                           horizontalParameters: string, verticalParameters: string)

  /** The four labels are pairwise different, as the message table has them. */
  predicate DistinctLabels(l: Labels)
  {
    && l.collapseBlock != l.inlineInputs
    && l.collapseBlock != l.horizontalParameters
    && l.collapseBlock != l.verticalParameters
    && l.inlineInputs != l.horizontalParameters
    && l.inlineInputs != l.verticalParameters
    && l.horizontalParameters != l.verticalParameters
  }

  /** What the edit reads of the block: `getParameters().length` when the
      block has `getParameters` at all, and `horizontalParameters`. */
  datatype Block = Block(parameterCount: Option<nat>, horizontalParameters: bool)

  /** What the edit reads of the editor: whether collapsing is enabled
      globally, the `collapsed` property it consults, and the labels. */
  datatype Settings = Settings(collapseEnabled: bool, collapsed: bool, labels: Labels)

  /** The parameter count, zero for a block without `getParameters`. */
  function NumParams(b: Block): nat
  {
    match b.parameterCount
    case None => 0
    case Some(n) => n
  }

  /** Whether the edit touches the list at all. */
  predicate Applies(s: Settings, b: Block)
  {
    s.collapseEnabled && !s.collapsed && NumParams(b) > 0
  }

  /** The option to insert: its label names the orientation a click leads to. */
  function OrientationOption(b: Block, l: Labels): MenuOption
  {
    MenuOption(if b.horizontalParameters then l.verticalParameters else l.horizontalParameters,
               true, FlipParameterOrientation)
  }

  /** The orientation a callback asks the block for, when it is clicked on a
      block whose parameters are currently horizontal or not; the callback
      reads the block's orientation when clicked, not when the menu is built. */
  function OrientationAfterClick(cb: Callback, horizontal: bool): Option<bool>
  {
    match cb
    case FlipParameterOrientation => Some(!horizontal)
    case Foreign(_) => None
  }

  /** The inserted option is labelled vertical exactly when clicking it
      (in the orientation the menu was built for) makes the parameters
      vertical, and horizontal exactly when it makes them horizontal. */
  lemma OrientationLabelNamesResult(b: Block, l: Labels)
    requires DistinctLabels(l)
    ensures OrientationOption(b, l).enabled
    ensures OrientationOption(b, l).text == l.verticalParameters
        <==> OrientationAfterClick(OrientationOption(b, l).callback, b.horizontalParameters) == Some(false)
    ensures OrientationOption(b, l).text == l.horizontalParameters
        <==> OrientationAfterClick(OrientationOption(b, l).callback, b.horizontalParameters) == Some(true)
  {
  }

  // ---------------------------------------------------------------------
  // The list operations, as independent reference definitions.

  /** The position of the first option labelled `wanted`, or `|s|` if none. */
  function FirstIndex(s: seq<MenuOption>, wanted: string): (i: nat)
    ensures i <= |s|
    ensures forall k :: 0 <= k < i ==> s[k].text != wanted
    ensures i < |s| ==> s[i].text == wanted
    decreases |s|
  {
    if s == [] then 0
    else if s[0].text == wanted then 0
    else 1 + FirstIndex(s[1..], wanted)
  }

  predicate HasLabel(s: seq<MenuOption>, wanted: string)
  {
    exists k :: 0 <= k < |s| && s[k].text == wanted
  }

  /** `s` with `x` placed just before its first option labelled `wanted`;
      `s` itself when there is none. */
  function InsertBeforeFirst(s: seq<MenuOption>, wanted: string, x: MenuOption): seq<MenuOption>
    decreases |s|
  {
    if s == [] then []
    else if s[0].text == wanted then [x] + s
    else [s[0]] + InsertBeforeFirst(s[1..], wanted, x)
  }

  /** `s` without its first option labelled `wanted`; `s` itself when there
      is none. */
  function RemoveFirst(s: seq<MenuOption>, wanted: string): seq<MenuOption>
    decreases |s|
  {
    if s == [] then []
    else if s[0].text == wanted then s[1..]
    else [s[0]] + RemoveFirst(s[1..], wanted)
  }

  /** Inserting is a splice at the first match. */
  lemma {:induction false} InsertBeforeFirstSplices(s: seq<MenuOption>, wanted: string, x: MenuOption)
    ensures FirstIndex(s, wanted) < |s| ==>
      InsertBeforeFirst(s, wanted, x) == s[..FirstIndex(s, wanted)] + [x] + s[FirstIndex(s, wanted)..]
    ensures FirstIndex(s, wanted) == |s| ==> InsertBeforeFirst(s, wanted, x) == s
    decreases |s|
  {
    if s != [] && s[0].text != wanted {
      InsertBeforeFirstSplices(s[1..], wanted, x);
      var i := FirstIndex(s[1..], wanted);
      if i < |s[1..]| {
        assert s[..i + 1] == [s[0]] + s[1..][..i];
        assert s[i + 1..] == s[1..][i..];
      }
    }
  }

  /** Removing is a splice at the first match. */
  lemma {:induction false} RemoveFirstSplices(s: seq<MenuOption>, wanted: string)
    ensures FirstIndex(s, wanted) < |s| ==>
      RemoveFirst(s, wanted) == s[..FirstIndex(s, wanted)] + s[FirstIndex(s, wanted) + 1..]
    ensures FirstIndex(s, wanted) == |s| ==> RemoveFirst(s, wanted) == s
    decreases |s|
  {
    if s != [] && s[0].text != wanted {
      RemoveFirstSplices(s[1..], wanted);
      var i := FirstIndex(s[1..], wanted);
      if i < |s[1..]| {
        assert s[..i + 1] == [s[0]] + s[1..][..i];
        assert s[i + 2..] == s[1..][i + 1..];
      }
    }
  }

  /** When neither the inserted option nor the insertion anchor carries the
      removed wanted, inserting and removing commute: the removal picks the
      same option either way. */
  lemma {:induction false} RemoveInsertCommute(s: seq<MenuOption>, anchor: string, removed: string, x: MenuOption)
    requires anchor != removed && x.text != removed
    ensures RemoveFirst(InsertBeforeFirst(s, anchor, x), removed)
         == InsertBeforeFirst(RemoveFirst(s, removed), anchor, x)
    decreases |s|
  {
    if s != [] {
      if s[0].text == anchor {
        assert ([x] + s)[1..] == s;
        assert RemoveFirst(s, removed) == [s[0]] + RemoveFirst(s[1..], removed);
      } else if s[0].text == removed {
        assert InsertBeforeFirst(s, anchor, x) == [s[0]] + InsertBeforeFirst(s[1..], anchor, x);
      } else {
        RemoveInsertCommute(s[1..], anchor, removed, x);
        assert ([s[0]] + RemoveFirst(s[1..], removed))[1..] == RemoveFirst(s[1..], removed);
        assert ([s[0]] + InsertBeforeFirst(s[1..], anchor, x))[1..] == InsertBeforeFirst(s[1..], anchor, x);
      }
    }
  }

  /** The reference result of the edit. */
  function Augmented(st: Settings, b: Block, options: seq<MenuOption>): seq<MenuOption>
  {
    if Applies(st, b) then
      RemoveFirst(InsertBeforeFirst(options, st.labels.collapseBlock, OrientationOption(b, st.labels)),
                  st.labels.inlineInputs)
    else options
  }

  /** How many options carry the label `wanted`. */
  function CountLabel(s: seq<MenuOption>, wanted: string): nat
    decreases |s|
  {
    if s == [] then 0
    else (if s[0].text == wanted then 1 else 0) + CountLabel(s[1..], wanted)
  }

  lemma HasLabelTail(s: seq<MenuOption>, wanted: string)
    requires s != [] && s[0].text != wanted
    ensures HasLabel(s, wanted) <==> HasLabel(s[1..], wanted)
  {
    if HasLabel(s, wanted) {
      var k :| 0 <= k < |s| && s[k].text == wanted;
      assert s[1..][k - 1].text == wanted;
    }
    if HasLabel(s[1..], wanted) {
      var k :| 0 <= k < |s[1..]| && s[1..][k].text == wanted;
      assert s[k + 1].text == wanted;
    }
  }

  /** Inserting adds one option, and only when the anchor is present. */
  lemma {:induction false} InsertCounts(s: seq<MenuOption>, anchor: string, x: MenuOption, l: string)
    ensures CountLabel(InsertBeforeFirst(s, anchor, x), l)
         == CountLabel(s, l) + (if HasLabel(s, anchor) && x.text == l then 1 else 0)
    decreases |s|
  {
    if s != [] {
      if s[0].text == anchor {
        assert HasLabel(s, anchor);
        assert ([x] + s)[1..] == s;
      } else {
        HasLabelTail(s, anchor);
        InsertCounts(s[1..], anchor, x, l);
        assert ([s[0]] + InsertBeforeFirst(s[1..], anchor, x))[1..] == InsertBeforeFirst(s[1..], anchor, x);
      }
    }
  }

  /** Removing drops exactly one option labelled `removed` when there is
      one, and leaves the count of every other label alone. */
  lemma {:induction false} RemoveCounts(s: seq<MenuOption>, removed: string, l: string)
    ensures CountLabel(RemoveFirst(s, removed), l)
         == CountLabel(s, l) - (if HasLabel(s, removed) && l == removed then 1 else 0)
    decreases |s|
  {
    if s != [] {
      if s[0].text == removed {
        assert HasLabel(s, removed);
      } else {
        HasLabelTail(s, removed);
        RemoveCounts(s[1..], removed, l);
        assert ([s[0]] + RemoveFirst(s[1..], removed))[1..] == RemoveFirst(s[1..], removed);
        if HasLabel(s[1..], removed) && l == removed {
          assert CountLabel(s[1..], l) > 0 by { CountPositive(s[1..], l); }
        }
      }
    }
  }

  lemma {:induction false} CountPositive(s: seq<MenuOption>, l: string)
    requires HasLabel(s, l)
    ensures CountLabel(s, l) > 0
    decreases |s|
  {
    if s[0].text != l {
      HasLabelTail(s, l);
      CountPositive(s[1..], l);
    }
  }

  /** Removing an option with another label keeps whether `l` is present. */
  lemma {:induction false} RemoveKeepsOther(s: seq<MenuOption>, removed: string, l: string)
    requires removed != l
    ensures HasLabel(RemoveFirst(s, removed), l) <==> HasLabel(s, l)
    decreases |s|
  {
    if s != [] && s[0].text != removed {
      var r := RemoveFirst(s, removed);
      assert r[0] == s[0] && r[1..] == RemoveFirst(s[1..], removed);
      if s[0].text == l {
        assert HasLabel(s, l) && HasLabel(r, l);
      } else {
        HasLabelTail(s, l);
        HasLabelTail(r, l);
        RemoveKeepsOther(s[1..], removed, l);
      }
    } else if s != [] {
      HasLabelTail(s, l);
    }
  }

  /** Removing an option with another label leaves the first option
      labelled `l` the same option. */
  lemma {:induction false} RemoveKeepsFirstOther(s: seq<MenuOption>, removed: string, l: string)
    requires removed != l && HasLabel(s, l)
    ensures HasLabel(RemoveFirst(s, removed), l)
    ensures RemoveFirst(s, removed)[FirstIndex(RemoveFirst(s, removed), l)] == s[FirstIndex(s, l)]
    decreases |s|
  {
    RemoveKeepsOther(s, removed, l);
    var r := RemoveFirst(s, removed);
    if s[0].text == removed {
      HasLabelTail(s, l);
      assert r == s[1..];
    } else if s[0].text != l {
      assert r[0] == s[0] && r[1..] == RemoveFirst(s[1..], removed);
      HasLabelTail(s, l);
      RemoveKeepsFirstOther(s[1..], removed, l);
    }
  }

  /** When the edit applies and the labels are distinct, it equals removing
      the first "Inline Inputs" entry and then inserting the toggle: every
      entry other than those two keeps its relative order. */
  lemma AugmentedReordersNothing(st: Settings, b: Block, options: seq<MenuOption>)
    requires Applies(st, b) && DistinctLabels(st.labels)
    ensures Augmented(st, b, options)
         == InsertBeforeFirst(RemoveFirst(options, st.labels.inlineInputs),
                              st.labels.collapseBlock, OrientationOption(b, st.labels))
  {
    RemoveInsertCommute(options, st.labels.collapseBlock, st.labels.inlineInputs, OrientationOption(b, st.labels));
  }

  /** The edit grows the list by one when there is a "Collapse Block" entry
      and shrinks it by one when there is an "Inline Inputs" entry. */
  lemma AugmentedLength(st: Settings, b: Block, options: seq<MenuOption>)
    requires Applies(st, b) && DistinctLabels(st.labels)
    ensures |Augmented(st, b, options)|
         == |options| + (if HasLabel(options, st.labels.collapseBlock) then 1 else 0)
                      - (if HasLabel(options, st.labels.inlineInputs) then 1 else 0)
  {
    var l := st.labels;
    var x := OrientationOption(b, l);
    var p := RemoveFirst(options, l.inlineInputs);
    AugmentedReordersNothing(st, b, options);
    RemoveFirstSplices(options, l.inlineInputs);
    InsertBeforeFirstSplices(p, l.collapseBlock, x);
    RemoveKeepsOther(options, l.inlineInputs, l.collapseBlock);
  }

  /** Exactly one "Inline Inputs" entry goes, if there is any. */
  lemma AugmentedRemovesOneInline(st: Settings, b: Block, options: seq<MenuOption>)
    requires Applies(st, b) && DistinctLabels(st.labels)
    ensures CountLabel(Augmented(st, b, options), st.labels.inlineInputs)
         == CountLabel(options, st.labels.inlineInputs)
            - (if HasLabel(options, st.labels.inlineInputs) then 1 else 0)
  {
    var l := st.labels;
    var x := OrientationOption(b, l);
    var p := RemoveFirst(options, l.inlineInputs);
    AugmentedReordersNothing(st, b, options);
    InsertCounts(p, l.collapseBlock, x, l.inlineInputs);
    RemoveCounts(options, l.inlineInputs, l.inlineInputs);
  }

  /** After inserting an option with another label, the first match has
      moved up by one and the inserted option sits right before it. */
  lemma {:induction false} InsertLandsBeforeAnchor(s: seq<MenuOption>, anchor: string, x: MenuOption)
    requires x.text != anchor && HasLabel(s, anchor)
    ensures FirstIndex(InsertBeforeFirst(s, anchor, x), anchor) == FirstIndex(s, anchor) + 1
    ensures |InsertBeforeFirst(s, anchor, x)| == |s| + 1
    ensures InsertBeforeFirst(s, anchor, x)[FirstIndex(s, anchor)] == x
    ensures InsertBeforeFirst(s, anchor, x)[FirstIndex(s, anchor) + 1] == s[FirstIndex(s, anchor)]
    decreases |s|
  {
    var r := InsertBeforeFirst(s, anchor, x);
    if s[0].text == anchor {
      assert r == [x] + s;
      assert r[1..] == s;
    } else {
      HasLabelTail(s, anchor);
      InsertLandsBeforeAnchor(s[1..], anchor, x);
      assert r[1..] == InsertBeforeFirst(s[1..], anchor, x);
    }
  }

  /** The toggle sits immediately before the first "Collapse Block" entry,
      which is the same entry the original list had first. */
  lemma AugmentedPlacesToggle(st: Settings, b: Block, options: seq<MenuOption>)
    requires Applies(st, b) && DistinctLabels(st.labels)
    requires HasLabel(options, st.labels.collapseBlock)
    ensures 0 < FirstIndex(Augmented(st, b, options), st.labels.collapseBlock) < |Augmented(st, b, options)|
    ensures Augmented(st, b, options)[FirstIndex(Augmented(st, b, options), st.labels.collapseBlock) - 1]
         == OrientationOption(b, st.labels)
    ensures Augmented(st, b, options)[FirstIndex(Augmented(st, b, options), st.labels.collapseBlock)]
         == options[FirstIndex(options, st.labels.collapseBlock)]
  {
    var l := st.labels;
    var x := OrientationOption(b, l);
    var p := RemoveFirst(options, l.inlineInputs);
    AugmentedReordersNothing(st, b, options);
    RemoveKeepsFirstOther(options, l.inlineInputs, l.collapseBlock);
    InsertLandsBeforeAnchor(p, l.collapseBlock, x);
  }

  /** The worked example: a toggle lands just before "Collapse Block". */
  lemma InsertsBeforeCollapse(st: Settings, b: Block, a: MenuOption, c: MenuOption, z: MenuOption)
    requires Applies(st, b) && DistinctLabels(st.labels)
    requires c.text == st.labels.collapseBlock
    requires a.text !in {st.labels.collapseBlock, st.labels.inlineInputs}
    requires z.text != st.labels.inlineInputs
    ensures Augmented(st, b, [a, c, z]) == [a, OrientationOption(b, st.labels), c, z]
  {
    var x := OrientationOption(b, st.labels);
    assert [a, c, z][1..] == [c, z];
    assert InsertBeforeFirst([a, c, z], st.labels.collapseBlock, x) == [a, x, c, z];
    assert [a, x, c, z][1..] == [x, c, z];
    assert [x, c, z][1..] == [c, z];
    assert [c, z][1..] == [z];
    assert [z][1..] == [];
    var l := st.labels.inlineInputs;
    assert RemoveFirst([z], l) == [z] + RemoveFirst([], l);
    assert RemoveFirst([c, z], l) == [c] + RemoveFirst([z], l);
    assert RemoveFirst([x, c, z], l) == [x] + RemoveFirst([c, z], l);
    assert RemoveFirst([a, x, c, z], l) == [a] + RemoveFirst([x, c, z], l);
  }

  // ---------------------------------------------------------------------
  // The operation as the source performs it: two index scans and splices.

  method AddHorizontalVerticalOption(st: Settings, b: Block, options: seq<MenuOption>)
    returns (result: seq<MenuOption>)
    ensures !Applies(st, b) ==> result == options
    ensures b.parameterCount.None? ==> result == options
    ensures result == Augmented(st, b, options)
  {
    result := options;
    var numParams := 0;
    if b.parameterCount.Some? {
      numParams := b.parameterCount.value;
    }
    if st.collapseEnabled && !st.collapsed && numParams > 0 {
      var horizVertOption := OrientationOption(b, st.labels);

      var insertionIndex := 0;
      while insertionIndex < |result|
        invariant insertionIndex <= |result|
        invariant forall k :: 0 <= k < insertionIndex ==> result[k].text != st.labels.collapseBlock
        decreases |result| - insertionIndex
      {
        if result[insertionIndex].text == st.labels.collapseBlock {
          break;
        }
        insertionIndex := insertionIndex + 1;
      }
      assert insertionIndex == FirstIndex(result, st.labels.collapseBlock);
      InsertBeforeFirstSplices(result, st.labels.collapseBlock, horizVertOption);
      if insertionIndex < |result| {
        result := result[..insertionIndex] + [horizVertOption] + result[insertionIndex..];
      }

      var removalIndex := -1;
      var i := 0;
      while i < |result|
        invariant i <= |result|
        invariant removalIndex == -1
        invariant forall k :: 0 <= k < i ==> result[k].text != st.labels.inlineInputs
        decreases |result| - i
      {
        if result[i].text == st.labels.inlineInputs {
          removalIndex := i;
          break;
        }
        i := i + 1;
      }
      assert removalIndex >= 0 ==> removalIndex == FirstIndex(result, st.labels.inlineInputs);
      assert removalIndex < 0 ==> FirstIndex(result, st.labels.inlineInputs) == |result|;
      RemoveFirstSplices(result, st.labels.inlineInputs);
      if removalIndex >= 0 {
        result := result[..removalIndex] + result[removalIndex + 1..];
      }
    }
  }
}
