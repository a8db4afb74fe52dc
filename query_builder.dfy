/**
 * The query builder of src/query_builder.js: `wire_svg` turns every node of the rendered table
 * graph into a title element and a list of field elements, and `show_query_builder` registers a
 * click listener that toggles a field in or out of the list of selected fields. DOM elements are
 * objects, so membership in the selection is by identity, as `===` is in the source.
 */
module QueryBuilder {
  import opened Base
  import opened Seqs
  import Strings

  /** A `<text>` element of the SVG: its text content and its class list. */
  class Element {
    const text: string
    var classes: set<string>

    constructor(text: string)
      ensures this.text == text && classes == {}
    {
      this.text := text;
      classes := {};
    }
  }

  /** A graph node: its `<text>` elements in document order (table name, separator, fields). */
  class SvgNode {
    const texts: seq<Element>

    constructor(texts: seq<Element>)
      ensures this.texts == texts
    {
      this.texts := texts;
    }
  }

  /** The record `wire_node` returns for one node. */
  datatype WiredNode = WiredNode(node: SvgNode, titleEl: Element, title: string, fields: seq<Element>)

  /** `titleEl.classList` on an undefined `titleEl` raises a `TypeError`. */
  datatype Exception = TypeError

  const TitleClass: string := "nodetitle"
  const FieldClass: string := "nodefield"
  const SelectedClass: string := "selected"

  /** The text elements of a node after the first two (`texts.splice(0, 2)` leaves them). */
  function FieldsOf(texts: seq<Element>): seq<Element>
  {
    if |texts| >= 2 then texts[2..] else []
  }

  /**
   * `wire_node`: the first text element is the title and gets the title class; the second is
   * skipped; every later one is a field, in document order, and gets the field class. A node
   * without text elements fails on the title.
   */
  method WireNode(node: SvgNode) returns (r: Result<WiredNode, Exception>)
    modifies set e | e in node.texts
    ensures node.texts == [] <==> r == Raise(TypeError)
    ensures node.texts != [] ==>
      r == Ok(WiredNode(node, node.texts[0], node.texts[0].text, FieldsOf(node.texts)))
    ensures forall e :: e in node.texts ==>
      e.classes == old(e.classes) + (if e == node.texts[0] then {TitleClass} else {})
                                  + (if e in FieldsOf(node.texts) then {FieldClass} else {})
  {
    var texts := node.texts;
    if texts == [] {
      return Raise(TypeError);
    }
    var titleEl := texts[0];
    texts := FieldsOf(texts);
    titleEl.classes := titleEl.classes + {TitleClass};
    var fields := [];
    for i := 0 to |texts|
      invariant fields == texts[..i]
      invariant forall e :: e in node.texts ==>
        e.classes == old(e.classes) + (if e == titleEl then {TitleClass} else {})
                                    + (if e in texts[..i] then {FieldClass} else {})
    {
      fields := fields + [texts[i]];
      texts[i].classes := texts[i].classes + {FieldClass};
      PrefixSnoc(texts, i);
    }
    assert texts[..|texts|] == texts;
    return Ok(WiredNode(node, titleEl, titleEl.text, fields));
  }

  /** The comparison of `find_node`: titles are equal once both are upper-cased. */
  predicate TitleMatches(n: WiredNode, name: string)
  {
    Strings.Upper(n.title) == Strings.Upper(name)
  }

  /** `find_node`: the first node whose title matches `name`, or nothing when none does. */
  method FindNode(nodes: seq<WiredNode>, name: string) returns (r: Option<WiredNode>)
    ensures r.None? <==> forall k :: 0 <= k < |nodes| ==> !TitleMatches(nodes[k], name)
    ensures r.Some? ==> exists k :: 0 <= k < |nodes| && nodes[k] == r.value && TitleMatches(nodes[k], name)
                          && forall j :: 0 <= j < k ==> !TitleMatches(nodes[j], name)
  {
    for i := 0 to |nodes|
      invariant forall j :: 0 <= j < i ==> !TitleMatches(nodes[j], name)
    {
      if Strings.Upper(nodes[i].title) == Strings.Upper(name) {
        return Some(nodes[i]);
      }
    }
    return None;
  }

  /** `s` without the first occurrence of `x` (`s.splice(s.indexOf(x), 1)`). */
  function Without<T(==)>(s: seq<T>, x: T): seq<T>
    requires x in s
  {
    s[..IndexOf(s, x)] + s[IndexOf(s, x) + 1..]
  }

  /** The selection after one click on `x`: appended when absent, taken out when present. */
  function Toggled<T(==)>(s: seq<T>, x: T): seq<T>
  {
    if x in s then Without(s, x) else s + [x]
  }

  /** The selection after `n` clicks on `x`. */
  function ToggledTimes<T(==)>(s: seq<T>, x: T, n: nat): seq<T>
  {
    if n == 0 then s else Toggled(ToggledTimes(s, x, n - 1), x)
  }

  /** Taking out `x` keeps the other elements, in their order, and loses one element. */
  lemma WithoutKeepsOthers<T>(s: seq<T>, x: T)
    requires x in s && NoRepeats(s)
    ensures |Without(s, x)| == |s| - 1
    ensures x !in Without(s, x)
    ensures forall y :: y != x ==> (y in Without(s, x) <==> y in s)
    ensures NoRepeats(Without(s, x))
  {
    var k := IndexOf(s, x);
    var w := Without(s, x);
    assert forall i :: 0 <= i < k ==> w[i] == s[i];
    assert forall i :: k <= i < |w| ==> w[i] == s[i + 1];
    forall y | y in s && y != x
      ensures y in w
    {
      var j :| 0 <= j < |s| && s[j] == y;
      if j < k {
        assert w[j] == y;
      } else {
        assert j != k;
        assert w[j - 1] == y;
      }
    }
  }

  /** A click flips the membership of the clicked element and of no other, and never repeats one. */
  lemma ToggledFlipsOne<T>(s: seq<T>, x: T)
    requires NoRepeats(s)
    ensures x in Toggled(s, x) <==> x !in s
    ensures forall y :: y != x ==> (y in Toggled(s, x) <==> y in s)
    ensures NoRepeats(Toggled(s, x))
  {
    if x in s {
      WithoutKeepsOthers(s, x);
    }
  }

  /** Two clicks on an unselected element give back the selection as it was. */
  lemma ToggleTwiceRestores<T>(s: seq<T>, x: T)
    requires x !in s
    ensures ToggledTimes(s, x, 2) == s
  {
    var t := s + [x];
    assert ToggledTimes(s, x, 1) == Toggled(s, x) == t;
    assert IndexOf(t, x) == |s|;
    assert t[..|s|] == s && t[|s| + 1..] == [];
    assert Toggled(t, x) == Without(t, x) == s;
  }

  /** Two clicks on a selected element move it to the end of the selection. */
  lemma ToggleTwiceMovesLast<T>(s: seq<T>, x: T)
    requires x in s && NoRepeats(s)
    ensures ToggledTimes(s, x, 2) == Without(s, x) + [x]
  {
    WithoutKeepsOthers(s, x);
    assert ToggledTimes(s, x, 1) == Toggled(s, x) == Without(s, x);
  }

  /** A click listener registered with `listen_on_node_click`. */
  datatype Listener = ToggleSelection | Observer(tag: nat)

  /** One call of a click listener: the listener, the node, the clicked field and the node's title. */
  datatype Click = Click(listener: Listener, node: SvgNode, field: Element, titleEl: Element)

  /** The calls one click makes, one per registered listener, in registration order. */
  function ClicksOn(ls: seq<Listener>, node: SvgNode, field: Element, titleEl: Element): seq<Click>
  {
    seq(|ls|, i requires 0 <= i < |ls| => Click(ls[i], node, field, titleEl))
  }

  /** How many times the toggle is registered among `ls`. */
  function Toggles(ls: seq<Listener>): (n: nat)
    ensures n <= |ls|
    ensures n == 0 <==> ToggleSelection !in ls
  {
    if ls == [] then 0
    else Toggles(ls[..|ls| - 1]) + (if ls[|ls| - 1] == ToggleSelection then 1 else 0)
  }

  lemma ClicksStep(ls: seq<Listener>, i: nat, node: SvgNode, field: Element, titleEl: Element)
    requires i < |ls|
    ensures ClicksOn(ls[..i + 1], node, field, titleEl) == ClicksOn(ls[..i], node, field, titleEl) + [Click(ls[i], node, field, titleEl)]
    ensures Toggles(ls[..i + 1]) == Toggles(ls[..i]) + (if ls[i] == ToggleSelection then 1 else 0)
    ensures forall s: seq<Element> ::
      AfterClicks(s, field, ls[..i + 1])
        == (if ls[i] == ToggleSelection then Toggled(AfterClicks(s, field, ls[..i]), field) else AfterClicks(s, field, ls[..i]))
  {
    PrefixSnoc(ls, i);
  }

  /** The selection after the listeners `ls` have been called, in order, on a click on `x`. */
  function AfterClicks<T(==)>(s: seq<T>, x: T, ls: seq<Listener>): seq<T>
  {
    if ls == [] then s
    else
      var before := AfterClicks(s, x, ls[..|ls| - 1]);
      if ls[|ls| - 1] == ToggleSelection then Toggled(before, x) else before
  }

  /** Calling the listeners toggles the clicked element once per registration of the toggle. */
  lemma {:induction false} AfterClicksToggles<T>(s: seq<T>, x: T, ls: seq<Listener>)
    ensures AfterClicks(s, x, ls) == ToggledTimes(s, x, Toggles(ls))
  {
    if ls != [] {
      var init := ls[..|ls| - 1];
      AfterClicksToggles(s, x, init);
      var n := Toggles(init);
      if ls[|ls| - 1] == ToggleSelection {
        assert Toggles(ls) == n + 1;
        assert ToggledTimes(s, x, n + 1) == Toggled(ToggledTimes(s, x, n), x);
      } else {
        assert Toggles(ls) == n;
      }
    }
  }

  /**
   * The state `wire_svg` and `show_query_builder` share: the wired nodes, the registered click
   * listeners, the selected fields, and the log of listener calls.
   */
  class Builder {
    var nodes: seq<WiredNode>
    var clickListeners: seq<Listener>
    var selected: seq<Element>
    var heard: seq<Click>

    /** No field is selected twice, and every selected field carries the selected class. */
    ghost predicate Valid()
      reads this, selected
    {
      && NoRepeats(selected)
      && forall e :: e in selected ==> SelectedClass in e.classes
    }

    /** `show_query_builder`: the wired nodes, the toggle as the one listener, nothing selected. */
    constructor Show(nodes: seq<WiredNode>)
      ensures Valid()
      ensures this.nodes == nodes && clickListeners == [ToggleSelection]
      ensures selected == [] && heard == []
    {
      this.nodes := nodes;
      clickListeners := [ToggleSelection];
      selected := [];
      heard := [];
    }

    /** `listen_on_node_click`: the listener is called after every one registered before it. */
    method ListenOnNodeClick(l: Listener)
      modifies this
      ensures clickListeners == old(clickListeners) + [l]
      ensures nodes == old(nodes) && selected == old(selected) && heard == old(heard)
    {
      clickListeners := clickListeners + [l];
    }

    /**
     * The listener of `show_query_builder`: a linear search by identity decides whether the
     * field is selected; an unselected field is marked and appended, a selected one is unmarked
     * and spliced out.
     */
    method Toggle(field: Element)
      requires Valid()
      modifies this, field
      ensures Valid()
      ensures selected == Toggled(old(selected), field)
      ensures field in old(selected) ==> field.classes == old(field.classes) - {SelectedClass}
      ensures field !in old(selected) ==> field.classes == old(field.classes) + {SelectedClass}
      ensures SelectedClass in field.classes <==> field in selected
      ensures nodes == old(nodes) && clickListeners == old(clickListeners) && heard == old(heard)
    {
      var nowSelected := true;
      for i := 0 to |selected|
        invariant field !in selected[..i]
      {
        if selected[i] == field {
          nowSelected := false;
          break;
        }
      }
      ToggledFlipsOne(selected, field);
      if nowSelected {
        assert selected[..|selected|] == selected;
        field.classes := field.classes + {SelectedClass};
        selected := selected + [field];
      } else {
        field.classes := field.classes - {SelectedClass};
        var pos := IndexOf(selected, field);
        selected := selected[..pos] + selected[pos + 1..];
      }
    }

    /** Calls one click listener: logs the call and, for the toggle, toggles the field. */
    method CallListener(l: Listener, node: SvgNode, field: Element, titleEl: Element)
      requires Valid()
      modifies this, field
      ensures Valid()
      ensures heard == old(heard) + [Click(l, node, field, titleEl)]
      ensures selected == (if l == ToggleSelection then Toggled(old(selected), field) else old(selected))
      ensures l == ToggleSelection ==> (SelectedClass in field.classes <==> field in selected)
      ensures l != ToggleSelection ==> field.classes == old(field.classes)
      ensures nodes == old(nodes) && clickListeners == old(clickListeners)
    {
      heard := heard + [Click(l, node, field, titleEl)];
      if l == ToggleSelection {
        Toggle(field);
      }
    }

    /**
     * The `onclick` handler `wire_node` puts on a field: every registered listener is called, in
     * registration order, with the node, the field and the node's title; each registration of the
     * toggle toggles the field once more.
     */
    method ClickField(node: SvgNode, field: Element, titleEl: Element)
      requires Valid()
      modifies this, field
      ensures Valid()
      ensures heard == old(heard) + ClicksOn(old(clickListeners), node, field, titleEl)
      ensures selected == AfterClicks(old(selected), field, old(clickListeners))
      ensures Toggles(old(clickListeners)) > 0 ==> (SelectedClass in field.classes <==> field in selected)
      ensures Toggles(old(clickListeners)) == 0 ==> field.classes == old(field.classes)
      ensures nodes == old(nodes) && clickListeners == old(clickListeners)
    {
      var ls := clickListeners;
      for i := 0 to |ls|
        invariant Valid()
        invariant nodes == old(nodes) && clickListeners == ls
        invariant heard == old(heard) + ClicksOn(ls[..i], node, field, titleEl)
        invariant selected == AfterClicks(old(selected), field, ls[..i])
        invariant Toggles(ls[..i]) > 0 ==> (SelectedClass in field.classes <==> field in selected)
        invariant Toggles(ls[..i]) == 0 ==> field.classes == old(field.classes)
      {
        ClicksStep(ls, i, node, field, titleEl);
        CallListener(ls[i], node, field, titleEl);
      }
      assert ls[..|ls|] == ls;
    }
  }
}
