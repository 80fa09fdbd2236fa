/**
 * The default `OValContextRenderer.render(List)`: the per-node renderings of a
 * context path joined with `.`, except that no `.` precedes the first node or a
 * container-element node (iterable element, map key, map value).
 * The per-node `render(OValContext)` is implementation-defined and is a parameter here.
 */
module ContextRenderer {
  import opened Context

  /** What is appended before a node: nothing for the first node or a container element, a `.` otherwise. */
  function Separator(ctx: OValContext, isFirst: bool): string {
    if isFirst || ctx.IsContainerElement() then "" else "."
  }

  /** The rendering of `path`, each node preceded by its separator; `isFirst` says whether a node came before. */
  function RenderFrom(path: seq<OValContext>, render: OValContext -> string, isFirst: bool): string {
    if path == [] then ""
    else Separator(path[0], isFirst) + render(path[0]) + RenderFrom(path[1..], render, false)
  }

  /** The string the default `render(List)` promises for a whole path. */
  function RenderPath(path: seq<OValContext>, render: OValContext -> string): string {
    RenderFrom(path, render, true)
  }

  /** Appending one node appends exactly its separator and its rendering. */
  lemma {:induction false} RenderSnoc(path: seq<OValContext>, ctx: OValContext, render: OValContext -> string, isFirst: bool)
    ensures RenderFrom(path + [ctx], render, isFirst)
         == RenderFrom(path, render, isFirst) + Separator(ctx, isFirst && path == []) + render(ctx)
  {
    if path != [] {
      assert (path + [ctx])[1..] == path[1..] + [ctx];
      RenderSnoc(path[1..], ctx, render, false);
    }
  }

  /**
   * The loop of `render(List)`: an `isFirst` flag and a string builder.
   */
  method Render(path: seq<OValContext>, render: OValContext -> string) returns (s: string)
    ensures s == RenderPath(path, render)
    ensures path == [] ==> s == ""
    ensures |path| == 1 ==> s == render(path[0])
  {
    var sb := "";
    var isFirst := true;
    for i := 0 to |path|
      invariant isFirst <==> i == 0
      invariant sb == RenderPath(path[..i], render)
    {
      var ctx := path[i];
      var isContainerElementContext := ctx.IsContainerElement();
      if isFirst {
        isFirst := false;
      } else if isContainerElementContext {
        // no separator before a container element
      } else {
        sb := sb + ".";
      }
      sb := sb + render(ctx);
      RenderSnoc(path[..i], ctx, render, true);
      assert path[..i + 1] == path[..i] + [ctx];
    }
    assert path[..|path|] == path;
    s := sb;
    if |path| == 1 {
      assert RenderFrom(path[1..], render, false) == "";
    }
  }

  /**
   * Node `i` is rendered exactly once, at its place in the order: the output is the
   * rendering of the nodes before it, then no `.` (first node or container element)
   * or exactly one `.`, then its own rendering, then the rest.
   */
  lemma {:induction false} RenderAt(path: seq<OValContext>, render: OValContext -> string, i: nat, isFirst: bool)
    requires i < |path|
    ensures RenderFrom(path, render, isFirst)
         == RenderFrom(path[..i], render, isFirst)
          + Separator(path[i], isFirst && i == 0) + render(path[i])
          + RenderFrom(path[i + 1..], render, false)
  {
    if i > 0 {
      RenderAt(path[1..], render, i - 1, false);
      assert path[1..][..i - 1] == path[..i][1..];
      assert path[1..][i - 1] == path[i];
      assert path[1..][i..] == path[i + 1..];
    }
  }

  /** Number of `.` characters in a string. */
  function Dots(s: string): nat {
    if s == [] then 0 else (if s[0] == '.' then 1 else 0) + Dots(s[1..])
  }

  lemma {:induction false} DotsAppend(a: string, b: string)
    ensures Dots(a + b) == Dots(a) + Dots(b)
  {
    if a != [] {
      assert (a + b)[0] == a[0] && (a + b)[1..] == a[1..] + b;
      DotsAppend(a[1..], b);
    } else {
      assert a + b == b;
    }
  }

  /** Number of nodes after the first that are not container elements. */
  function SeparatedNodes(path: seq<OValContext>, isFirst: bool): nat {
    if path == [] then 0
    else (if isFirst || path[0].IsContainerElement() then 0 else 1) + SeparatedNodes(path[1..], false)
  }

  /** Total number of `.` characters inside the per-node renderings. */
  function DotsInNodes(path: seq<OValContext>, render: OValContext -> string): nat {
    if path == [] then 0 else Dots(render(path[0])) + DotsInNodes(path[1..], render)
  }

  /** The renderer inserts exactly one `.` per non-first, non-container node, and no other. */
  lemma {:induction false} RenderDotCount(path: seq<OValContext>, render: OValContext -> string, isFirst: bool)
    ensures Dots(RenderFrom(path, render, isFirst)) == SeparatedNodes(path, isFirst) + DotsInNodes(path, render)
  {
    if path != [] {
      var sep := Separator(path[0], isFirst);
      DotsAppend(sep + render(path[0]), RenderFrom(path[1..], render, false));
      DotsAppend(sep, render(path[0]));
      assert Dots(sep) == (if isFirst || path[0].IsContainerElement() then 0 else 1) by {
        if sep == "." {
          assert sep[1..] == [];
        }
      }
      RenderDotCount(path[1..], render, false);
    }
  }
}
