/** What the flydown offers on mouse-over: a getter and a setter block for
    the field's variable, named by the field's text and its lexical scope
    (field_parameter_flydown.js, lines 80-106). */
module Flydown {

  import opened Optional

  const GetterType := "lexical_variable_get"
  const SetterType := "lexical_variable_set"

  /** The name the flydown blocks refer to: the plain text for a global
      parameter, otherwise the text qualified by the scope's name. */
  function ScopedName(text: string, scope: Option<string>): (name: string)
    ensures scope.None? ==> name == text
    ensures scope.Some? ==> |name| == 2 * |text| + |scope.value| + 4
    ensures |text| <= |name| && name[..|text|] == text && name[|name| - |text|..] == text
  {
    match scope
    case None => text
    case Some(s) => text + "@@" + s + "::" + text
  }

  /** Reads the scope back out of a name, knowing the text it was built from. */
  function ScopeOf(text: string, name: string): Option<string>
  {
    var n := |text|;
    if name != text && |name| >= 2 * n + 4
       && name[..n + 2] == text + "@@" && name[|name| - n - 2..] == "::" + text
    then Some(name[n + 2..|name| - n - 2])
    else None
  }

  /** Given the text, the scoped name determines the scope. */
  lemma ScopeRecoverable(text: string, scope: Option<string>)
    ensures ScopeOf(text, ScopedName(text, scope)) == scope
  {
    if scope.Some? {
      var name := ScopedName(text, scope);
      var n := |text|;
      assert name[..n + 2] == text + "@@";
      assert name[|name| - n - 2..] == "::" + text;
      assert name[n + 2..|name| - n - 2] == scope.value;
    }
  }

  /** Every name `ScopeOf` accepts is the scoped name of what it returns. */
  lemma ScopeOfSound(text: string, name: string, s: string)
    requires ScopeOf(text, name) == Some(s)
    ensures ScopedName(text, Some(s)) == name
  {
    var n := |text|;
    assert name == name[..n + 2] + name[n + 2..|name| - n - 2] + name[|name| - n - 2..];
  }

  /** A block for the flydown: its type and the variable in its VAR title. */
  datatype BlockDescriptor = BlockDescriptor(blockType: string, varName: string)

  function OpenBlock(blockType: string): string
  {
    "<block type=\"" + blockType + "\">"
  }

  function VarTitle(name: string): string
  {
    "<title name=\"VAR\">" + name + "</title>"
  }

  function BlockXml(b: BlockDescriptor): string
  {
    OpenBlock(b.blockType) + VarTitle(b.varName) + "</block>"
  }

  function BlocksXml(blocks: seq<BlockDescriptor>): string
    decreases |blocks|
  {
    if blocks == [] then "" else BlockXml(blocks[0]) + BlocksXml(blocks[1..])
  }

  /** An XML document holding the given blocks in order. */
  function XmlDocument(blocks: seq<BlockDescriptor>): string
  {
    "<xml>" + BlocksXml(blocks) + "</xml>"
  }

  /** The flydown's contents: exactly a getter and then a setter, both naming
      the scoped name of the field's text. */
  function FlydownBlocksXml(text: string, scope: Option<string>): (xml: string)
    ensures xml == XmlDocument([BlockDescriptor(GetterType, ScopedName(text, scope)),
                                BlockDescriptor(SetterType, ScopedName(text, scope))])
  {
    var name := ScopedName(text, scope);
    var getterSetterXml :=
      "<xml>" +
        "<block type=\"lexical_variable_get\">" +
          "<title name=\"VAR\">" +
            name +
          "</title>" +
        "</block>" +
        "<block type=\"lexical_variable_set\">" +
          "<title name=\"VAR\">" +
            name +
          "</title>" +
        "</block>" +
      "</xml>";
    DocumentOfPair(name);
    getterSetterXml
  }

  /** Regroups a two-block document into one flat concatenation. */
  lemma Regroup(x: string, o1: string, o2: string, t: string, n: string, c: string, e: string, z: string)
    ensures x + ((o1 + (t + n + c) + e) + ((o2 + (t + n + c) + e) + "")) + z
         == x + o1 + t + n + c + e + o2 + t + n + c + e + z
  {
  }

  lemma OpenTags()
    ensures OpenBlock(GetterType) == "<block type=\"lexical_variable_get\">"
    ensures OpenBlock(SetterType) == "<block type=\"lexical_variable_set\">"
  {
  }

  lemma TwoBlocks(g: BlockDescriptor, s: BlockDescriptor)
    ensures BlocksXml([g, s]) == BlockXml(g) + (BlockXml(s) + "")
  {
    assert [g, s][1..] == [s];
    assert [s][1..] == [];
    assert BlocksXml([s]) == BlockXml(s) + BlocksXml([]);
    assert BlocksXml([g, s]) == BlockXml(g) + BlocksXml([s]);
  }

  /** The getter-then-setter document, written out tag by tag. */
  lemma DocumentOfPair(name: string)
    ensures XmlDocument([BlockDescriptor(GetterType, name), BlockDescriptor(SetterType, name)])
         == "<xml>" +
              "<block type=\"lexical_variable_get\">" + "<title name=\"VAR\">" + name + "</title>" + "</block>" +
              "<block type=\"lexical_variable_set\">" + "<title name=\"VAR\">" + name + "</title>" + "</block>" +
            "</xml>"
  {
    var g := BlockDescriptor(GetterType, name);
    var s := BlockDescriptor(SetterType, name);
    OpenTags();
    TwoBlocks(g, s);
    Regroup("<xml>", OpenBlock(GetterType), OpenBlock(SetterType), "<title name=\"VAR\">", name, "</title>", "</block>", "</xml>");
  }

  /** The name in a two-name template is determined by the filled-in string. */
  lemma TemplateInjective(pre: string, mid: string, post: string, a: string, b: string)
    requires pre + a + mid + a + post == pre + b + mid + b + post
    ensures a == b
  {
    var x := pre + a + mid + a + post;
    assert |a| == |b|;
    assert x[|pre|..|pre| + |a|] == a;
    assert x[|pre|..|pre| + |b|] == b;
  }

  /** Regroups the flat flydown concatenation into a two-name template. */
  lemma RegroupTemplate(x0: string, x1: string, x2: string, y0: string, y1: string, y2: string, y3: string,
                        z0: string, z1: string, z2: string, n: string)
    ensures x0 + x1 + x2 + n + y0 + y1 + y2 + y3 + n + z0 + z1 + z2
         == (x0 + x1 + x2) + n + (y0 + y1 + y2 + y3) + n + (z0 + z1 + z2)
  {
  }

  /** Different names give different flydown documents. */
  lemma FlydownXmlInjective(t1: string, s1: Option<string>, t2: string, s2: Option<string>)
    requires FlydownBlocksXml(t1, s1) == FlydownBlocksXml(t2, s2)
    ensures ScopedName(t1, s1) == ScopedName(t2, s2)
  {
    var x0, x1, x2 := "<xml>", "<block type=\"lexical_variable_get\">", "<title name=\"VAR\">";
    var y0, y1, y2, y3 := "</title>", "</block>", "<block type=\"lexical_variable_set\">", "<title name=\"VAR\">";
    var z0, z1, z2 := "</title>", "</block>", "</xml>";
    var n1 := ScopedName(t1, s1);
    var n2 := ScopedName(t2, s2);
    RegroupTemplate(x0, x1, x2, y0, y1, y2, y3, z0, z1, z2, n1);
    RegroupTemplate(x0, x1, x2, y0, y1, y2, y3, z0, z1, z2, n2);
    TemplateInjective(x0 + x1 + x2, y0 + y1 + y2 + y3, z0 + z1 + z2, n1, n2);
  }

  /** For one field text, the flydown document determines the scope. */
  lemma FlydownXmlDeterminesScope(text: string, s1: Option<string>, s2: Option<string>)
    requires FlydownBlocksXml(text, s1) == FlydownBlocksXml(text, s2)
    ensures s1 == s2
  {
    FlydownXmlInjective(text, s1, text, s2);
    ScopeRecoverable(text, s1);
    ScopeRecoverable(text, s2);
  }
}
