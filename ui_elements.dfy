/** The movable HUD elements (client/ui/elements/DraggableUIElement.java
    and UIElementManager.java): each has a rectangle the mouse can be
    over, and the manager keeps them in a list it can reset to a column. */
module UiElements {
  import opened Wrappers
  import opened Ints

  class DraggableUIElement {
    const name: string
    var x: int
    var y: int
    var width: int
    var height: int
    var visible: bool

    /** The element is placed and sized as given, and visible. */
    constructor(name: string, x: int, y: int, width: int, height: int)
      ensures this.name == name && this.x == x && this.y == y && this.width == width && this.height == height
      ensures visible
    {
      this.name := name;
      this.x, this.y, this.width, this.height := x, y, width, height;
      visible := true;
    }

    /** `isMouseOver`: within the rectangle, every edge included. The
        far edges `x + width` and `y + height` are Java `int` sums. */
    function IsMouseOver(mouseX: int, mouseY: int): (b: bool)
      reads this
      ensures IsJavaInt(x + width) && IsJavaInt(y + height) ==>
        (b <==> x <= mouseX <= x + width && y <= mouseY <= y + height)
    {
      mouseX >= x && mouseX <= Wrap32(x + width) && mouseY >= y && mouseY <= Wrap32(y + height)
    }

    /** `setPosition`: only the corner moves. */
    method SetPosition(x: int, y: int)
      modifies this
      ensures this.x == x && this.y == y
      ensures width == old(width) && height == old(height) && visible == old(visible)
    {
      this.x, this.y := x, y;
    }

    /** `setVisible`. */
    method SetVisible(v: bool)
      modifies this
      ensures visible == v
      ensures x == old(x) && y == old(y) && width == old(width) && height == old(height)
    {
      visible := v;
    }
  }

  /** Both corners of an element belong to it. */
  lemma CornersAreOver(e: DraggableUIElement)
    requires 0 <= e.width && 0 <= e.height && IsJavaInt(e.x + e.width) && IsJavaInt(e.y + e.height)
    ensures e.IsMouseOver(e.x, e.y) && e.IsMouseOver(e.x + e.width, e.y + e.height)
  {
  }

  /** An element whose right edge passes the largest Java `int` is never
      under the mouse: the sum wraps to a negative edge left of `x`. */
  lemma WrappedEdgeHidesElement(e: DraggableUIElement, mouseX: int, mouseY: int)
    requires IsJavaInt(e.x) && 0 <= e.width < 0x8000_0000 && !IsJavaInt(e.x + e.width)
    ensures !e.IsMouseOver(mouseX, mouseY)
  {
    assert Wrap32(e.x + e.width) == e.x + e.width - TWO_32;
  }

  // ---------------------------------------------------------------------
  // The element list

  /** The game's text renderer, when there is one: the width of a text and
      the height of the font. */
  datatype TextRenderer = TextRenderer(textWidth: string -> int, fontHeight: int)

  /** The size a `TextUIElement` gives itself: the text's size once a
      renderer exists, 100 by 10 before. */
  function TextSize(renderer: Option<TextRenderer>, text: string): (int, int)
  {
    if renderer.Some? then (renderer.value.textWidth(text), renderer.value.fontHeight) else (100, 10)
  }

  predicate Distinct(es: seq<DraggableUIElement>)
  {
    forall i, j :: 0 <= i < j < |es| ==> es[i] != es[j]
  }

  /** Where `List.remove` finds the element: its first occurrence. */
  function FirstIndex(es: seq<DraggableUIElement>, e: DraggableUIElement): (r: Option<nat>)
    ensures r.Some? ==> r.value < |es| && es[r.value] == e && e !in es[..r.value]
    ensures r.None? <==> e !in es
    decreases |es|
  {
    if es == [] then None
    else if es[0] == e then Some(0)
    else
      match FirstIndex(es[1..], e)
      case None => None
      case Some(k) =>
        assert es[..k + 1] == [es[0]] + es[1..][..k];
        Some(k + 1)
  }

  /** `removeElement`: the first occurrence goes, the rest keep their order. */
  function RemoveFirst(es: seq<DraggableUIElement>, e: DraggableUIElement): seq<DraggableUIElement>
  {
    match FirstIndex(es, e)
    case None => es
    case Some(i) => es[..i] + es[i + 1..]
  }

  /** Removing takes away exactly one occurrence when there is one. */
  lemma RemoveFirstCount(es: seq<DraggableUIElement>, e: DraggableUIElement)
    ensures multiset(RemoveFirst(es, e)) == multiset(es) - multiset{e}
  {
    match FirstIndex(es, e)
    case None =>
    case Some(i) =>
      assert es == es[..i] + [e] + es[i + 1..];
  }

  /** Removing what was just added to a list that did not hold it gives
      the list back. */
  lemma RemoveAdded(es: seq<DraggableUIElement>, e: DraggableUIElement)
    requires e !in es
    ensures RemoveFirst(es + [e], e) == es
  {
    assert FirstIndex(es + [e], e) == Some(|es|) by {
      assert (es + [e])[..|es|] == es;
    }
  }

  /** The last place below `n` holding the same element as index `j`. */
  function LastBelow(es: seq<DraggableUIElement>, n: nat, j: nat): (r: nat)
    requires j < n <= |es|
    ensures j <= r < n
    decreases n
  {
    if es[n - 1] == es[j] then n - 1 else LastBelow(es, n - 1, j)
  }

  /** The last place holding the same element as index `j`: where
      `resetAllPositions` puts that element last. */
  function LastOf(es: seq<DraggableUIElement>, j: nat): (r: nat)
    requires j < |es|
    ensures j <= r < |es|
  {
    LastBelow(es, |es|, j)
  }

  /** The place `LastBelow` finds holds the same element, and no place
      after it does. */
  lemma {:induction false} LastBelowIsLast(es: seq<DraggableUIElement>, n: nat, j: nat)
    requires j < n <= |es|
    ensures es[LastBelow(es, n, j)] == es[j]
    ensures forall k :: LastBelow(es, n, j) < k < n ==> es[k] != es[j]
    decreases n
  {
    if es[n - 1] != es[j] {
      LastBelowIsLast(es, n - 1, j);
    }
  }

  /** `LastOf` is the last place holding the element: nothing after it
      does. */
  lemma LastOfIsLast(es: seq<DraggableUIElement>, j: nat)
    requires j < |es|
    ensures es[LastOf(es, j)] == es[j]
    ensures forall k :: LastOf(es, j) < k < |es| ==> es[k] != es[j]
  {
    LastBelowIsLast(es, |es|, j);
  }

  /** In a list without repeats the last place is the only one. */
  lemma LastOfDistinct(es: seq<DraggableUIElement>, i: nat)
    requires Distinct(es) && i < |es|
    ensures LastOf(es, i) == i
  {
    LastOfIsLast(es, i);
  }

  /** The row `resetAllPositions` gives the element at index `i`:
      `10 + i * 20` in Java `int` arithmetic. */
  function ResetRow(i: int): int
  {
    Wrap32(10 + i * 20)
  }

  /** `setPosition(10, row(i))` on element `i`, the loop body of
      `resetAllPositions`. */
  method ResetAt(es: seq<DraggableUIElement>, i: nat, row: int -> int)
    requires i < |es|
    requires forall j :: 0 <= j < i ==> es[j].x == 10 && es[j].y == row(LastBelow(es, i, j))
    modifies es[i]
    ensures forall j :: 0 <= j < i + 1 ==> es[j].x == 10 && es[j].y == row(LastBelow(es, i + 1, j))
    ensures forall j :: 0 <= j < |es| ==>
      es[j].width == old(es[j].width) && es[j].height == old(es[j].height) && es[j].visible == old(es[j].visible)
  {
    es[i].SetPosition(10, row(i));
  }

  /** The loop of `resetAllPositions`, element `i` going to row `row(i)`:
      an element listed twice ends at the row of its last place. */
  method ResetColumnOf(es: seq<DraggableUIElement>, row: int -> int)
    modifies es
    ensures forall i :: 0 <= i < |es| ==> es[i].x == 10 && es[i].y == row(LastOf(es, i))
    ensures forall i :: 0 <= i < |es| ==>
      es[i].width == old(es[i].width) && es[i].height == old(es[i].height) && es[i].visible == old(es[i].visible)
  {
    for i := 0 to |es|
      invariant forall j :: 0 <= j < i ==> es[j].x == 10 && es[j].y == row(LastBelow(es, i, j))
      invariant forall j :: 0 <= j < |es| ==>
        es[j].width == old(es[j].width) && es[j].height == old(es[j].height) && es[j].visible == old(es[j].visible)
    {
      ResetAt(es, i, row);
    }
    forall j | 0 <= j < |es|
      ensures es[j].x == 10 && es[j].y == row(LastOf(es, j))
    {
      assert es[j].y == row(LastBelow(es, |es|, j));
    }
  }

  class UIElementManager {
    var elements: seq<DraggableUIElement>

    /** `initializeDefaultElements`: three text elements and the two
        overlays, in a column 20 pixels apart. */
    constructor(renderer: Option<TextRenderer>)
      ensures |elements| == 5 && Distinct(elements)
      ensures forall i :: 0 <= i < 5 ==> fresh(elements[i]) && elements[i].visible
      ensures forall i :: 0 <= i < 5 ==> elements[i].x == 10 && elements[i].y == 10 + 20 * i
      ensures elements[0].name == "FPS Counter" && elements[1].name == "Coordinates" && elements[2].name == "Direction"
      ensures elements[3].name == "CPS Counter" && elements[4].name == "Keystrokes"
      ensures (elements[0].width, elements[0].height) == TextSize(renderer, "FPS: 60")
      ensures (elements[1].width, elements[1].height) == TextSize(renderer, "XYZ: 0, 64, 0")
      ensures (elements[2].width, elements[2].height) == TextSize(renderer, "Facing: North")
      ensures elements[3].width == 100 && elements[3].height == 10
      ensures elements[4].width == 70 && elements[4].height == 70
    {
      var s0 := TextSize(renderer, "FPS: 60");
      var s1 := TextSize(renderer, "XYZ: 0, 64, 0");
      var s2 := TextSize(renderer, "Facing: North");
      var fps := new DraggableUIElement("FPS Counter", 10, 10, s0.0, s0.1);
      var coords := new DraggableUIElement("Coordinates", 10, 30, s1.0, s1.1);
      var dir := new DraggableUIElement("Direction", 10, 50, s2.0, s2.1);
      var cps := new DraggableUIElement("CPS Counter", 10, 70, 100, 10);
      var keys := new DraggableUIElement("Keystrokes", 10, 90, 70, 70);
      elements := [fps, coords, dir, cps, keys];
    }

    /** `getAllElements`: a copy, as every Dafny sequence is. */
    method GetAllElements() returns (r: seq<DraggableUIElement>)
      ensures r == elements
    {
      r := elements;
    }

    /** `addElement`: appended at the end. */
    method AddElement(e: DraggableUIElement)
      modifies this
      ensures elements == old(elements) + [e]
    {
      elements := elements + [e];
    }

    /** `removeElement`: the first occurrence is removed. */
    method RemoveElement(e: DraggableUIElement)
      modifies this
      ensures elements == RemoveFirst(old(elements), e)
    {
      var i := FirstIndex(elements, e);
      if i.Some? {
        elements := elements[..i.value] + elements[i.value + 1..];
      }
    }

    /** `resetAllPositions`: element `i` is moved to (10, 10 + 20 i). An
        element listed twice ends where its last place puts it. Nothing
        but the corners changes, and the list stays as it is. */
    method ResetAllPositions()
      modifies elements
      ensures forall i :: 0 <= i < |elements| ==> elements[i].x == 10 && elements[i].y == ResetRow(LastOf(elements, i))
      ensures forall i :: 0 <= i < |elements| ==>
        elements[i].width == old(elements[i].width) && elements[i].height == old(elements[i].height) && elements[i].visible == old(elements[i].visible)
    {
      ResetColumnOf(elements, ResetRow);
    }
  }

  /** Without repeated elements, the reset puts element `i` at row
      `10 + 20 i`. */
  lemma ResetColumn(es: seq<DraggableUIElement>, i: nat)
    requires Distinct(es) && i < |es| && IsJavaInt(10 + 20 * i)
    ensures ResetRow(LastOf(es, i)) == 10 + 20 * i
  {
    LastOfDistinct(es, i);
  }

  /** The lazily created singleton of `getInstance`. */
  class UIElementManagerHolder {
    var instance: Option<UIElementManager>

    constructor()
      ensures instance.None?
    {
      instance := None;
    }

    /** `getInstance`: the first call creates the manager, later calls
        return the same one. */
    method GetInstance(renderer: Option<TextRenderer>) returns (m: UIElementManager)
      modifies this
      ensures old(instance).Some? ==> m == old(instance).value && instance == old(instance)
      ensures old(instance).None? ==> fresh(m) && |m.elements| == 5 && instance == Some(m)
    {
      if instance.None? {
        var created := new UIElementManager(renderer);
        instance := Some(created);
      }
      m := instance.value;
    }
  }
}
