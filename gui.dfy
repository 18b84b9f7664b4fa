/**
 * `GUI` bookkeeping without ImGui: the widget list under `add` and `remove`, and the style that
 * `draw` installs and re-applies only when it changed. `GUI::instance()`, a process-wide
 * singleton, is an explicit object; each `Style::apply` call is recorded in `applied`.
 */
module Guis {
  import opened Wrappers
  import opened Widgets

  datatype StyleKind = EngineDarkTheme | CustomStyle(name: string)

  /** A `Style` object; its identity is what `last_style` remembers. */
  class Style {
    const kind: StyleKind

    constructor (kind: StyleKind)
      ensures this.kind == kind
    {
      this.kind := kind;
    }
  }

  /** The first widget with the given id, if any. */
  function FirstWithId(ws: seq<Widget>, id: string): (r: Option<nat>)
    ensures r.None? <==> forall i :: 0 <= i < |ws| ==> ws[i].id != id
    ensures r.Some? ==> r.value < |ws| && ws[r.value].id == id && forall i :: 0 <= i < r.value ==> ws[i].id != id
  {
    if ws == [] then None
    else if ws[0].id == id then Some(0)
    else match FirstWithId(ws[1..], id)
      case None => None
      case Some(k) => Some(k + 1)
  }

  /** The list minus the widget at `k`. */
  function EraseAt(ws: seq<Widget>, k: nat): seq<Widget>
    requires k < |ws|
  {
    ws[..k] + ws[k + 1..]
  }

  /** `add` on the list: the first widget with the same id is dropped, and the new one goes last. */
  function Added(ws: seq<Widget>, w: Widget): seq<Widget> {
    match FirstWithId(ws, w.id)
    case None => ws + [w]
    case Some(k) => EraseAt(ws, k) + [w]
  }

  /** The widgets whose id is not `id`, in their order. */
  function WithoutId(ws: seq<Widget>, id: string): (r: seq<Widget>)
    ensures forall i :: 0 <= i < |r| ==> r[i].id != id
    ensures (forall i :: 0 <= i < |ws| ==> ws[i].id != id) ==> r == ws
  {
    if ws == [] then []
    else if ws[|ws| - 1].id == id then WithoutId(ws[..|ws| - 1], id)
    else WithoutId(ws[..|ws| - 1], id) + [ws[|ws| - 1]]
  }

  /** `remove(id)` on the list: the key is `"##" + id`, whatever `id` already starts with. */
  function Removed(ws: seq<Widget>, id: string): seq<Widget> {
    WithoutId(ws, "##" + id)
  }

  predicate UniqueIds(ws: seq<Widget>) {
    forall i, j :: 0 <= i < j < |ws| ==> ws[i].id != ws[j].id
  }

  /** Filtering distributes over concatenation, so the widgets that stay keep their relative order. */
  lemma {:induction false} WithoutIdAppend(a: seq<Widget>, b: seq<Widget>, id: string)
    ensures WithoutId(a + b, id) == WithoutId(a, id) + WithoutId(b, id)
    decreases |b|
  {
    if b == [] {
      assert a + b == a;
    } else {
      assert (a + b)[..|a + b| - 1] == a + b[..|b| - 1];
      WithoutIdAppend(a, b[..|b| - 1], id);
    }
  }

  /** Every widget with another id survives the filter. */
  lemma {:induction false} WithoutIdKeeps(ws: seq<Widget>, id: string, i: nat)
    requires i < |ws| && ws[i].id != id
    ensures ws[i] in WithoutId(ws, id)
    decreases |ws|
  {
    if i < |ws| - 1 {
      WithoutIdKeeps(ws[..|ws| - 1], id, i);
    }
  }

  /** With unique ids, `add` is: every widget with another id, in order, then the new widget. */
  lemma AddedUnique(ws: seq<Widget>, w: Widget)
    requires UniqueIds(ws)
    ensures Added(ws, w) == WithoutId(ws, w.id) + [w]
  {
    match FirstWithId(ws, w.id)
    case None =>
    case Some(k) => EraseOnlyMatch(ws, k);
  }

  /** Erasing the only widget with a given id is filtering that id out. */
  lemma {:induction false} EraseOnlyMatch(ws: seq<Widget>, k: nat)
    requires k < |ws| && forall i :: 0 <= i < |ws| && i != k ==> ws[i].id != ws[k].id
    ensures WithoutId(ws, ws[k].id) == EraseAt(ws, k)
    decreases |ws|
  {
    var id, front, last := ws[k].id, ws[..|ws| - 1], ws[|ws| - 1];
    if k == |ws| - 1 {
      assert WithoutId(front, id) == front by {
        forall i | 0 <= i < |front| ensures front[i].id != id {
          assert front[i] == ws[i];
        }
      }
      assert WithoutId(ws, id) == WithoutId(front, id);
      assert EraseAt(ws, k) == front by {
        assert ws[k + 1..] == [];
      }
    } else {
      assert WithoutId(front, id) == EraseAt(front, k) by {
        assert front[k] == ws[k];
        forall i | 0 <= i < |front| && i != k ensures front[i].id != front[k].id {
          assert front[i] == ws[i];
        }
        EraseOnlyMatch(front, k);
      }
      assert WithoutId(ws, id) == WithoutId(front, id) + [last] by {
        assert last.id != id;
      }
      assert EraseAt(ws, k) == EraseAt(front, k) + [last] by {
        assert ws[k + 1..] == front[k + 1..] + [last];
      }
    }
  }

  /** So `add` keeps the ids unique, and the new widget is the last one. */
  lemma AddedKeepsIdsUnique(ws: seq<Widget>, w: Widget)
    requires UniqueIds(ws)
    ensures UniqueIds(Added(ws, w))
    ensures Added(ws, w)[|Added(ws, w)| - 1] == w
  {
    AddedUnique(ws, w);
    var rest := WithoutId(ws, w.id);
    var r := rest + [w];
    forall i, j | 0 <= i < j < |r| ensures r[i].id != r[j].id {
      if j < |rest| {
        WithoutIdIndices(ws, w.id, i, j);
      }
    }
  }

  /** Filtering keeps distinct positions apart. */
  lemma {:induction false} WithoutIdIndices(ws: seq<Widget>, id: string, i: nat, j: nat)
    requires UniqueIds(ws) && i < j < |WithoutId(ws, id)|
    ensures WithoutId(ws, id)[i].id != WithoutId(ws, id)[j].id
    decreases |ws|
  {
    var front := ws[..|ws| - 1];
    assert UniqueIds(front) by {
      forall a, b | 0 <= a < b < |front| ensures front[a].id != front[b].id {
        assert front[a] == ws[a] && front[b] == ws[b];
      }
    }
    var r := WithoutId(ws, id);
    if ws[|ws| - 1].id == id || j < |WithoutId(front, id)| {
      WithoutIdIndices(front, id, i, j);
    } else {
      assert r[j] == ws[|ws| - 1];
      var a := WithoutIdOrigin(front, id, i);
      assert ws[a] == r[i];
    }
  }

  /** Every widget the filter keeps comes from the list. */
  lemma {:induction false} WithoutIdOrigin(ws: seq<Widget>, id: string, i: nat) returns (a: nat)
    requires i < |WithoutId(ws, id)|
    ensures a < |ws| && ws[a] == WithoutId(ws, id)[i]
    decreases |ws|
  {
    var front := ws[..|ws| - 1];
    if i < |WithoutId(front, id)| {
      a := WithoutIdOrigin(front, id, i);
    } else {
      a := |ws| - 1;
    }
  }

  /** One more widget of the prefix is either dropped by the filter or kept at the end. */
  lemma WithoutIdPrefixStep(ws: seq<Widget>, j: nat, id: string)
    requires j < |ws|
    ensures WithoutId(ws[..j + 1], id) == WithoutId(ws[..j], id) + (if ws[j].id == id then [] else [ws[j]])
  {
    assert ws[..j + 1][..j] == ws[..j];
  }

  /** The slices `remove` keeps track of, after an erase at `i` or a step past it. */
  lemma SliceStep(w: seq<Widget>, i: nat, ws: seq<Widget>, j: nat)
    requires i < |w| && j <= |ws| && w[i..] == ws[j..]
    ensures j < |ws| && w[i] == ws[j]
    ensures var e := w[..i] + w[i + 1..]; e[..i] == w[..i] && e[i..] == ws[j + 1..]
    ensures w[..i + 1] == w[..i] + [w[i]] && w[i + 1..] == ws[j + 1..]
  {
    assert w[i..][0] == w[i];
    assert w[i + 1..] == w[i..][1..];
  }

  /** `remove("##x")` looks for `"####x"`, so it never removes the widget created as `"x"` or `"##x"`. */
  lemma RemovePrefixedIdMissesNormalized(ws: seq<Widget>, x: string, i: nat)
    requires i < |ws| && ws[i].id == NormalizeId(x)
    ensures ws[i] in Removed(ws, "##" + x)
  {
    var key := "##" + ("##" + x);
    assert |key| == |x| + 4 && |ws[i].id| <= |x| + 2;
    WithoutIdKeeps(ws, key, i);
  }

  class Gui {
    var widgets: seq<Widget>
    var style: Style?
    var lastStyle: Style?
    /** The styles applied to ImGui, in order. */
    var applied: seq<Style>

    constructor ()
      ensures widgets == [] && style == null && lastStyle == null && applied == []
    {
      widgets, style, lastStyle, applied := [], null, null, [];
    }

    /** `use_style`: replaces the style; `last_style` is left as it was. */
    method UseStyle(s: Style?)
      modifies this
      ensures style == s
      ensures widgets == old(widgets) && lastStyle == old(lastStyle) && applied == old(applied)
    {
      style := s;
    }

    /** `add`: erases the first widget with the same id, then appends the new one. */
    method Add(widget: Widget)
      modifies this
      ensures widgets == Added(old(widgets), widget)
      ensures style == old(style) && lastStyle == old(lastStyle) && applied == old(applied)
    {
      var found: Option<nat> := None;
      var i := 0;
      while i < |widgets|
        invariant 0 <= i <= |widgets|
        invariant forall k :: 0 <= k < i ==> widgets[k].id != widget.id
        invariant found.None?
      {
        if widgets[i].id == widget.id {
          found := Some(i);
          break;
        }
        i := i + 1;
      }
      assert found.None? ==> FirstWithId(widgets, widget.id).None?;
      assert found.Some? ==> FirstWithId(widgets, widget.id) == found;
      if found.Some? {
        widgets := widgets[..i] + widgets[i + 1..];
      }
      widgets := widgets + [widget];
    }

    /** `remove`: erases, in place and in one pass, every widget whose id is `"##" + id`. */
    method Remove(id: string)
      modifies this
      ensures widgets == Removed(old(widgets), id)
      ensures style == old(style) && lastStyle == old(lastStyle) && applied == old(applied)
    {
      var key := "##" + id;
      var i := 0;
      ghost var ws, j := widgets, 0;
      while i < |widgets|
        invariant 0 <= i <= |widgets| && 0 <= j <= |ws|
        invariant widgets[..i] == WithoutId(ws[..j], key)
        invariant widgets[i..] == ws[j..]
        invariant style == old(style) && lastStyle == old(lastStyle) && applied == old(applied)
        decreases |widgets| - i
      {
        WithoutIdPrefixStep(ws, j, key);
        SliceStep(widgets, i, ws, j);
        if widgets[i].id == key {
          widgets := widgets[..i] + widgets[i + 1..];
        } else {
          i := i + 1;
        }
        j := j + 1;
      }
      assert ws[j..] == [] && ws[..j] == ws;
      assert widgets[..i] == widgets;
    }

    /**
     * `draw`: installs an `EngineDarkTheme` when no style is set, applies the style only when it
     * is not the object applied last, then draws every widget in list order.
     */
    method Draw(delta: real) returns (trace: seq<DrawEvent>)
      modifies this
      ensures old(style) == null ==> fresh(style) && style.kind == EngineDarkTheme
      ensures old(style) != null ==> style == old(style)
      ensures style != null && lastStyle == style
      ensures applied == old(applied) + (if style != old(lastStyle) then [style] else [])
      ensures widgets == old(widgets)
      ensures trace == TraceAll(widgets, delta)
      ensures trace == DrawnAll(LeavesAll(widgets), delta)
    {
      if style == null {
        style := new Style(EngineDarkTheme);
      }
      if style != lastStyle {
        applied := applied + [style];
        lastStyle := style;
      }
      ghost var drawnStyle, drawnApplied := style, applied;
      trace := [];
      for i := 0 to |widgets|
        invariant widgets == old(widgets) && style == drawnStyle && lastStyle == drawnStyle && applied == drawnApplied
        invariant trace == TraceAll(widgets[..i], delta)
      {
        var drawn := Widgets.Draw(widgets[i], delta);
        assert widgets[..i + 1][..i] == widgets[..i];
        trace := trace + drawn;
      }
      assert widgets[..|widgets|] == widgets;
      TraceAllDrawsEachLeaf(widgets, delta);
    }
  }
}
