/** The tree renderer `render_json` of src/main.rs (lines 74-103).

    The egui `Ui` that the source draws into is abstracted as the widget sequence
    it ends up holding: `ui.collapsing(title, ..)` appends a `Section` whose body is
    what the closure draws, which is what the section shows when expanded, and `ui.label(text)` appends a `Label`. `Render` is the
    specification of one call; `RenderJson` is the walk itself, with the source's
    `for` loops, and is proved to produce exactly `Render`. */
module TreeRender {
  import opened JsonValues
  import opened Decimal

  datatype Widget =
    | Section(title: string, body: seq<Widget>)
    | Label(text: string)

  /** The text a widget shows: a section's header or a label's line. */
  function Caption(w: Widget): string {
    match w
    case Section(title, _) => title
    case Label(text) => text
  }

  /** `"  ".repeat(depth)`: two spaces per nesting level. */
  function Indent(depth: nat): (s: string)
    ensures |s| == 2 * depth
    ensures forall i :: 0 <= i < |s| ==> s[i] == ' '
  {
    if depth == 0 then "" else "  " + Indent(depth - 1)
  }

  /** What `render_json(ui, v, depth)` appends to `ui`. */
  function Render(v: JsonValue, depth: nat): seq<Widget>
    decreases v
  {
    match v
    case Object(ms) => RenderMembers(ms, depth)
    case Array(es) => RenderElements(es, 0, depth)
    case String(s) => [Label(Indent(depth) + "\"" + s + "\"")]
    case Number(n) => [Label(Indent(depth) + n.display)]
    case Bool(b) => [Label(Indent(depth) + if b then "true" else "false")]
    case Null => [Label(Indent(depth) + "null")]
  }

  /** The sections of an object's members, one per member in map order. */
  function RenderMembers(ms: seq<Member>, depth: nat): seq<Widget>
    decreases ms
  {
    if ms == [] then []
    else [MemberSection(ms[0], depth)] + RenderMembers(ms[1..], depth)
  }

  /** The collapsible section of one member, titled with its key. */
  function MemberSection(m: Member, depth: nat): Widget
    decreases m
  {
    Section(Indent(depth) + m.key, Render(m.value, depth + 1))
  }

  /** The sections of array elements, the first of them at index `first`. */
  function RenderElements(es: seq<JsonValue>, first: nat, depth: nat): seq<Widget>
    decreases es
  {
    if es == [] then []
    else [Section(ElementTitle(first, depth), Render(es[0], depth + 1))]
         + RenderElements(es[1..], first + 1, depth)
  }

  /** `format!("{}[{}]", "  ".repeat(depth), i)`. */
  function ElementTitle(i: nat, depth: nat): string {
    Indent(depth) + "[" + NatToString(i) + "]"
  }

  // ---------------------------------------------------------------------------
  // The renderer as the source writes it: a recursive walk with loops.
  // ---------------------------------------------------------------------------

  method RenderJson(value: JsonValue, depth: nat) returns (ui: seq<Widget>)
    ensures ui == Render(value, depth)
    decreases value
  {
    match value
    case Object(members) =>
      ui := [];
      var i := 0;
      while i < |members|
        invariant 0 <= i <= |members|
        invariant |ui| == i
        invariant forall k :: 0 <= k < i ==>
          ui[k] == Section(Indent(depth) + members[k].key, Render(members[k].value, depth + 1))
      {
        assert members[i] in members;
        var body := RenderJson(members[i].value, depth + 1);
        ui := ui + [Section(Indent(depth) + members[i].key, body)];
        i := i + 1;
      }
      ObjectRender(members, depth);
    case Array(elements) =>
      ui := [];
      var i := 0;
      while i < |elements|
        invariant 0 <= i <= |elements|
        invariant |ui| == i
        invariant forall k :: 0 <= k < i ==>
          ui[k] == Section(ElementTitle(k, depth), Render(elements[k], depth + 1))
      {
        var body := RenderJson(elements[i], depth + 1);
        ui := ui + [Section(Indent(depth) + "[" + NatToString(i) + "]", body)];
        i := i + 1;
      }
      ArrayRender(elements, depth);
    case String(s) =>
      ui := [Label(Indent(depth) + "\"" + s + "\"")];
    case Number(n) =>
      ui := [Label(Indent(depth) + n.display)];
    case Bool(b) =>
      ui := [Label(Indent(depth) + if b then "true" else "false")];
    case Null =>
      ui := [Label(Indent(depth) + "null")];
  }

  // ---------------------------------------------------------------------------
  // What one call renders, node kind by node kind.
  // ---------------------------------------------------------------------------

  lemma {:induction false} RenderMembersAt(ms: seq<Member>, depth: nat)
    ensures |RenderMembers(ms, depth)| == |ms|
    ensures forall i :: 0 <= i < |ms| ==>
      RenderMembers(ms, depth)[i] == Section(Indent(depth) + ms[i].key, Render(ms[i].value, depth + 1))
    decreases ms
  {
    if ms != [] {
      RenderMembersAt(ms[1..], depth);
    }
  }

  /** An object yields one section per member, in map order, titled with the
      indented key, whose body renders the member's value one level deeper;
      an empty object yields nothing. */
  lemma ObjectRender(ms: seq<Member>, depth: nat)
    ensures |Render(Object(ms), depth)| == |ms|
    ensures forall i :: 0 <= i < |ms| ==>
      Render(Object(ms), depth)[i] == Section(Indent(depth) + ms[i].key, Render(ms[i].value, depth + 1))
  {
    RenderMembersAt(ms, depth);
  }

  lemma {:induction false} RenderElementsAt(es: seq<JsonValue>, first: nat, depth: nat)
    ensures |RenderElements(es, first, depth)| == |es|
    ensures forall i :: 0 <= i < |es| ==>
      RenderElements(es, first, depth)[i] == Section(ElementTitle(first + i, depth), Render(es[i], depth + 1))
    decreases es
  {
    if es != [] {
      var r := RenderElements(es, first, depth);
      var tail := RenderElements(es[1..], first + 1, depth);
      assert r == [Section(ElementTitle(first, depth), Render(es[0], depth + 1))] + tail;
      RenderElementsAt(es[1..], first + 1, depth);
      forall i | 0 < i < |es|
        ensures r[i] == Section(ElementTitle(first + i, depth), Render(es[i], depth + 1))
      {
        assert r[i] == tail[i - 1];
        assert es[1..][i - 1] == es[i];
      }
    }
  }

  /** An array yields one section per element, in index order, titled with the
      indented zero-based index in brackets, whose body renders the element one
      level deeper; an empty array yields nothing. */
  lemma ArrayRender(es: seq<JsonValue>, depth: nat)
    ensures |Render(Array(es), depth)| == |es|
    ensures forall i :: 0 <= i < |es| ==>
      Render(Array(es), depth)[i] == Section(Indent(depth) + "[" + NatToString(i) + "]", Render(es[i], depth + 1))
  {
    RenderElementsAt(es, 0, depth);
  }

  /** A scalar yields exactly one label and no section: a string in quotation
      marks with no escaping, a number as it displays, a boolean as `true` or
      `false`, null as `null`. */
  lemma ScalarRender(v: JsonValue, depth: nat)
    requires IsScalar(v)
    ensures |Render(v, depth)| == 1 && Render(v, depth)[0].Label?
    ensures Render(v, depth)[0].text == Indent(depth) +
      match v
      case String(s) => "\"" + s + "\""
      case Number(n) => n.display
      case Bool(b) => if b then "true" else "false"
      case Null => "null"
  {
  }

  // ---------------------------------------------------------------------------
  // Indentation: every caption at nesting level d starts with 2*d spaces.
  // ---------------------------------------------------------------------------

  /** Every widget of `ws` has a caption that begins with `Indent(depth)`, and the
      body of every section is indented, in the same sense, one level deeper. */
  predicate IndentedAt(ws: seq<Widget>, depth: nat)
    decreases ws
  {
    forall i :: 0 <= i < |ws| ==> WidgetIndentedAt(ws[i], depth)
  }

  predicate WidgetIndentedAt(w: Widget, depth: nat)
    decreases w
  {
    Indent(depth) <= Caption(w) && (w.Section? ==> IndentedAt(w.body, depth + 1))
  }

  lemma {:induction false} RenderIndented(v: JsonValue, depth: nat)
    ensures IndentedAt(Render(v, depth), depth)
    decreases v
  {
    match v
    case Object(ms) => MembersIndented(ms, depth);
    case Array(es) => ElementsIndented(es, depth);
    case String(s) =>
      assert Render(v, depth)[0].text == Indent(depth) + ("\"" + s + "\"");
    case Number(n) =>
    case Bool(b) =>
    case Null =>
  }

  lemma {:induction false} MembersIndented(ms: seq<Member>, depth: nat)
    ensures IndentedAt(RenderMembers(ms, depth), depth)
    decreases ms
  {
    var r := RenderMembers(ms, depth);
    RenderMembersAt(ms, depth);
    forall i | 0 <= i < |ms|
      ensures WidgetIndentedAt(r[i], depth)
    {
      assert r[i] == MemberSection(ms[i], depth);
      MemberIndented(ms[i], depth);
    }
  }

  lemma {:induction false} ElementsIndented(es: seq<JsonValue>, depth: nat)
    ensures IndentedAt(RenderElements(es, 0, depth), depth)
    decreases es
  {
    var r := RenderElements(es, 0, depth);
    RenderElementsAt(es, 0, depth);
    forall i | 0 <= i < |es|
      ensures WidgetIndentedAt(r[i], depth)
    {
      assert Caption(r[i]) == Indent(depth) + ("[" + NatToString(i) + "]");
      RenderIndented(es[i], depth + 1);
    }
  }

  lemma {:induction false} MemberIndented(m: Member, depth: nat)
    ensures WidgetIndentedAt(MemberSection(m, depth), depth)
    decreases m
  {
    RenderIndented(m.value, depth + 1);
  }

  // ---------------------------------------------------------------------------
  // Nesting: the widget tree is exactly as deep as the value.
  // ---------------------------------------------------------------------------

  function Max(a: nat, b: nat): nat {
    if a < b then b else a
  }

  /** Number of nested levels the value shows when fully expanded: a scalar is
      one level, a container one above its deepest child, and an empty container
      none, since it renders nothing. This differs from the usual nesting depth of
      a value that contains empty containers: `[[]]` has height 1. */
  function Height(v: JsonValue): nat
    decreases v
  {
    match v
    case Object(ms) => MembersHeight(ms)
    case Array(es) => ElementsHeight(es)
    case _ => 1
  }

  function MembersHeight(ms: seq<Member>): nat
    decreases ms
  {
    if ms == [] then 0 else Max(MemberHeight(ms[0]), MembersHeight(ms[1..]))
  }

  function MemberHeight(m: Member): nat
    decreases m
  {
    1 + Height(m.value)
  }

  function ElementsHeight(es: seq<JsonValue>): nat
    decreases es
  {
    if es == [] then 0 else Max(1 + Height(es[0]), ElementsHeight(es[1..]))
  }

  /** Nesting depth of a widget sequence: a label is one level, a section one
      level above its body. */
  function TreeHeight(ws: seq<Widget>): nat
    decreases ws
  {
    if ws == [] then 0 else Max(WidgetHeight(ws[0]), TreeHeight(ws[1..]))
  }

  function WidgetHeight(w: Widget): nat
    decreases w
  {
    match w
    case Label(_) => 1
    case Section(_, body) => 1 + TreeHeight(body)
  }

  lemma {:induction false} RenderHeight(v: JsonValue, depth: nat)
    ensures TreeHeight(Render(v, depth)) == Height(v)
    decreases v
  {
    match v
    case Object(ms) => RenderMembersHeight(ms, depth);
    case Array(es) => RenderElementsHeight(es, 0, depth);
    case _ =>
  }

  lemma {:induction false} RenderMembersHeight(ms: seq<Member>, depth: nat)
    ensures TreeHeight(RenderMembers(ms, depth)) == MembersHeight(ms)
    decreases ms
  {
    if ms != [] {
      var ws := RenderMembers(ms, depth);
      assert ws[1..] == RenderMembers(ms[1..], depth);
      MemberSectionHeight(ms[0], depth);
      RenderMembersHeight(ms[1..], depth);
    }
  }

  lemma {:induction false} MemberSectionHeight(m: Member, depth: nat)
    ensures WidgetHeight(MemberSection(m, depth)) == MemberHeight(m)
    decreases m
  {
    RenderHeight(m.value, depth + 1);
  }

  lemma {:induction false} RenderElementsHeight(es: seq<JsonValue>, first: nat, depth: nat)
    ensures TreeHeight(RenderElements(es, first, depth)) == ElementsHeight(es)
    decreases es
  {
    if es != [] {
      var ws := RenderElements(es, first, depth);
      assert ws[1..] == RenderElements(es[1..], first + 1, depth);
      RenderHeight(es[0], depth + 1);
      RenderElementsHeight(es[1..], first + 1, depth);
    }
  }

  // ---------------------------------------------------------------------------
  // Section titles tell siblings apart.
  // ---------------------------------------------------------------------------

  /** The sections of an object have pairwise distinct titles exactly when its
      keys are distinct, as they are in an `IndexMap`. */
  lemma ObjectTitlesDistinct(ms: seq<Member>, depth: nat)
    ensures var r := Render(Object(ms), depth);
      |r| == |ms| &&
      (DistinctKeys(ms) <==> forall i, j :: 0 <= i < j < |r| ==> Caption(r[i]) != Caption(r[j]))
  {
    ObjectRender(ms, depth);
    var r := Render(Object(ms), depth);
    var ind := Indent(depth);
    forall i, j | 0 <= i < j < |ms|
      ensures Caption(r[i]) == Caption(r[j]) <==> ms[i].key == ms[j].key
    {
      var ti, tj := ind + ms[i].key, ind + ms[j].key;
      if ti == tj {
        assert ms[i].key == ti[|ind|..] == tj[|ind|..] == ms[j].key;
      }
    }
  }

  /** The sections of an array have pairwise distinct titles. */
  lemma ArrayTitlesDistinct(es: seq<JsonValue>, depth: nat)
    ensures var r := Render(Array(es), depth);
      |r| == |es| && forall i, j :: 0 <= i < j < |r| ==> Caption(r[i]) != Caption(r[j])
  {
    ArrayRender(es, depth);
    var r := Render(Array(es), depth);
    forall i, j | 0 <= i < j < |es|
      ensures Caption(r[i]) != Caption(r[j])
    {
      var ti, tj := Caption(r[i]), Caption(r[j]);
      var n := |Indent(depth)| + 1;
      if ti == tj {
        var si, sj := NatToString(i), NatToString(j);
        assert |si| == |sj|;
        assert si == ti[n..|ti| - 1] == tj[n..|tj| - 1] == sj;
        NatToStringInjective(i, j);
      }
    }
  }

  /** The document `{"a":{"b":[1,2]}}`, fully expanded: section "a", inside it
      section "  b", inside that "    [0]" and "    [1]", each holding its number. */
  lemma NestedExample()
    ensures
      var one, two := Number(JsonNumber("1")), Number(JsonNumber("2"));
      var doc := Object([Member("a", Object([Member("b", Array([one, two]))]))]);
      Render(doc, 0) ==
        [Section("a", [Section("  b", [Section("    [0]", [Label("      1")]),
                                       Section("    [1]", [Label("      2")])])])]
  {
    var one, two := Number(JsonNumber("1")), Number(JsonNumber("2"));
    assert NatToString(0) == "0" && NatToString(1) == "1";
    assert Indent(1) == "  " && Indent(2) == "    " && Indent(3) == "      ";
    assert [one, two][1..] == [two] && [two][1..] == [];
    assert ElementTitle(0, 2) == "    [0]" && ElementTitle(1, 2) == "    [1]";
    assert Indent(3) + "1" == "      1" && Indent(3) + "2" == "      2";
    assert Render(one, 3) == [Label("      1")] && Render(two, 3) == [Label("      2")];
    assert RenderElements([two], 1, 2) == [Section("    [1]", [Label("      2")])];
    assert Render(Array([one, two]), 2) ==
      [Section("    [0]", [Label("      1")]), Section("    [1]", [Label("      2")])];
    assert Indent(1) + "b" == "  b" && Indent(0) + "a" == "a";
    var mb := Member("b", Array([one, two]));
    var ma := Member("a", Object([mb]));
    assert [mb][1..] == [] && [ma][1..] == [];
    assert RenderMembers([], 0) == [] && RenderMembers([], 1) == [];
    assert RenderMembers([mb], 1) == [MemberSection(mb, 1)] + RenderMembers([], 1);
    assert RenderMembers([ma], 0) == [MemberSection(ma, 0)] + RenderMembers([], 0);
    assert Render(Object([mb]), 1) == [MemberSection(mb, 1)];
    assert Render(Object([ma]), 0) == [MemberSection(ma, 0)];
  }
}
