/**
 * GUI widgets without ImGui: the `##` id normalisation of `Widget` and `WidgetBuilderInterface`,
 * the `WidgetBuilder` that collects widgets into a `WidgetGroup`, and the order in which a group
 * draws. Drawing a leaf widget is recorded as one `Drawn` event.
 */
module Widgets {

  /** `id.substr(0, 2) == "##"`; a shorter id never matches. */
  predicate HasHashPrefix(id: string) {
    |id| >= 2 && id[..2] == "##"
  }

  /** The id a widget or builder keeps: `##` is put in front unless already there. */
  function NormalizeId(id: string): (r: string)
    ensures HasHashPrefix(r)
    ensures HasHashPrefix(id) ==> r == id
    ensures !HasHashPrefix(id) ==> r == "##" + id
  {
    if HasHashPrefix(id) then id else "##" + id
  }

  /** Normalising twice is normalising once. */
  lemma NormalizeIdIdempotent(id: string)
    ensures NormalizeId(NormalizeId(id)) == NormalizeId(id)
  {
  }

  /** Normalisation only ever adds the prefix: the original id is always a suffix. */
  lemma NormalizeIdKeepsSuffix(id: string)
    ensures var r := NormalizeId(id); |r| >= |id| && r[|r| - |id|..] == id
  {
    var r := NormalizeId(id);
    if !HasHashPrefix(id) {
      assert r[2..] == id;
    }
  }

  /**
   * A widget: a leaf whose own drawing is opaque (`kind` tells the concrete class apart), or a
   * `WidgetGroup` that owns its children.
   */
  datatype Widget = Leaf(id: string, kind: nat) | Group(id: string, children: seq<Widget>)

  /** The `Widget(id)` constructor of a leaf widget. */
  function NewWidget(id: string, kind: nat): (w: Widget)
    ensures w.Leaf? && w.id == NormalizeId(id) && w.kind == kind
  {
    Leaf(NormalizeId(id), kind)
  }

  /** The `WidgetGroup(id, widgets)` constructor. */
  function NewGroup(id: string, widgets: seq<Widget>): (w: Widget)
    ensures w.Group? && w.id == NormalizeId(id) && w.children == widgets
  {
    Group(NormalizeId(id), widgets)
  }

  /** One leaf draw call with its `delta_time`. */
  datatype DrawEvent = Drawn(widget: Widget, delta: real)

  /** The draw calls `draw(delta)` makes: a group draws its children in order. */
  function Trace(w: Widget, delta: real): seq<DrawEvent>
    decreases w, 1
  {
    match w
    case Leaf(_, _) => [Drawn(w, delta)]
    case Group(_, children) => TraceAll(children, delta)
  }

  /** The draw calls of a list of widgets drawn one after another. */
  function TraceAll(ws: seq<Widget>, delta: real): seq<DrawEvent>
    decreases ws, 0
  {
    if ws == [] then [] else TraceAll(ws[..|ws| - 1], delta) + Trace(ws[|ws| - 1], delta)
  }

  /** The leaf widgets under a widget, depth first, left to right. */
  function Leaves(w: Widget): seq<Widget>
    decreases w, 1
  {
    match w
    case Leaf(_, _) => [w]
    case Group(_, children) => LeavesAll(children)
  }

  function LeavesAll(ws: seq<Widget>): seq<Widget>
    decreases ws, 0
  {
    if ws == [] then [] else LeavesAll(ws[..|ws| - 1]) + Leaves(ws[|ws| - 1])
  }

  /** A draw event for each given leaf, all with the same delta. */
  function DrawnAll(leaves: seq<Widget>, delta: real): (r: seq<DrawEvent>)
    ensures |r| == |leaves|
    ensures forall i :: 0 <= i < |leaves| ==> r[i] == Drawn(leaves[i], delta)
  {
    seq(|leaves|, i requires 0 <= i < |leaves| => Drawn(leaves[i], delta))
  }

  lemma DrawnAllAppend(a: seq<Widget>, b: seq<Widget>, delta: real)
    ensures DrawnAll(a + b, delta) == DrawnAll(a, delta) + DrawnAll(b, delta)
  {
  }

  /** Drawing a widget draws every leaf below it exactly once, in order, with the same delta. */
  lemma {:induction false} TraceDrawsEachLeaf(w: Widget, delta: real)
    ensures Trace(w, delta) == DrawnAll(Leaves(w), delta)
    decreases w, 1
  {
    match w
    case Leaf(_, _) =>
    case Group(_, children) => TraceAllDrawsEachLeaf(children, delta);
  }

  lemma {:induction false} TraceAllDrawsEachLeaf(ws: seq<Widget>, delta: real)
    ensures TraceAll(ws, delta) == DrawnAll(LeavesAll(ws), delta)
    decreases ws, 0
  {
    if ws != [] {
      TraceAllDrawsEachLeaf(ws[..|ws| - 1], delta);
      TraceDrawsEachLeaf(ws[|ws| - 1], delta);
      DrawnAllAppend(LeavesAll(ws[..|ws| - 1]), Leaves(ws[|ws| - 1]), delta);
    }
  }

  /** `draw`: a leaf draws itself; `WidgetGroup::draw` loops over its children. */
  method Draw(w: Widget, delta: real) returns (trace: seq<DrawEvent>)
    ensures trace == Trace(w, delta)
    ensures trace == DrawnAll(Leaves(w), delta)
    decreases w
  {
    TraceDrawsEachLeaf(w, delta);
    match w {
      case Leaf(_, _) =>
        trace := [Drawn(w, delta)];
      case Group(_, children) =>
        trace := [];
        for i := 0 to |children|
          invariant trace == TraceAll(children[..i], delta)
        {
          assert children[i] in children;
          var drawn := Draw(children[i], delta);
          assert children[..i + 1][..i] == children[..i];
          trace := trace + drawn;
        }
        assert children[..|children|] == children;
    }
  }

  /** An id already carrying the `##` prefix. */
  type NormalizedId = id: string | HasHashPrefix(id) witness "##"

  /** `WidgetBuilder`: its id is normalised as a widget's; `with` collects widgets in call order. */
  class WidgetBuilder {
    const id: NormalizedId
    var widgets: seq<Widget>

    constructor (id: string)
      ensures this.id == NormalizeId(id) && widgets == []
    {
      this.id := NormalizeId(id);
      widgets := [];
    }

    /** `with`: appends the widget and returns the same builder for chaining. */
    method With(widget: Widget) returns (self: WidgetBuilder)
      modifies this
      ensures self == this
      ensures widgets == old(widgets) + [widget]
    {
      widgets := widgets + [widget];
      return this;
    }

    /** `done`: a group with the builder's id that takes the collected widgets, in order. */
    method Done() returns (group: Widget)
      modifies this
      ensures group == NewGroup(id, old(widgets))
      ensures group.id == id && group.children == old(widgets)
      ensures widgets == []
    {
      group := NewGroup(id, widgets);
      widgets := [];
    }
  }
}
