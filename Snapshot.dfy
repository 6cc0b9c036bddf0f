/**
 * The page snapshot's text rendering and handle assignment: the accessibility
 * nodes become one line each, interactive nodes take consecutive integer
 * handles, and the handle table maps each handle to the browser's backend
 * node id. When the accessibility tree is unavailable, a DOM query is
 * numbered instead.
 *
 * The browser is an oracle: the location and title, the accessibility nodes
 * and the DOM query arrive as parameters, each either a value or an error.
 */
module Snapshot {
  import opened Base
  import opened Text

  /** The decoded JSON value of an accessibility property: a string or a boolean. */
  datatype AXValue = Str(s: string) | Flag(b: bool)

  /** An accessibility node; a missing property, or one whose value is null, is `None`. */
  datatype AXNode = AXNode(
    nodeId: string,
    role: Option<AXValue>,
    name: Option<AXValue>,
    value: Option<AXValue>,
    backendId: int,
    ignored: bool)

  /** An element found by the DOM fallback's query. */
  datatype DomNode = DomNode(nodeName: string, backendId: int)

  /** What the browser reports about the page besides its nodes. */
  datatype PageInfo = PageInfo(url: string, title: string)

  /** The snapshot handed to the agent; `elements` maps a handle to a backend node id. */
  datatype PageSnapshot = PageSnapshot(url: string, title: string, tree: string, elements: map<int, int>)

  const TrueText: string := "true"
  const FalseText: string := "false"
  const GenericContainer: string := "genericContainer"
  const NoRole: string := "none"
  const UnknownRole: string := "unknown"

  /** The roles that take a handle. */
  const InteractiveRoles: set<string> :=
    {"button", "link", "checkbox", "radioButton", "searchBox", "textBox", "comboBox", "menuItem", "slider", "switch"}

  const MaxName: nat := 80
  const CutName: nat := 77
  const Ellipsis: string := "..."

  const Dash: string := "- "
  const OpenBracket: string := "["
  const CloseBracketSpace: string := "] "
  const CloseBracket: string := "]"
  const Space: string := " "
  const ValueOpen: string := " (Val: "
  const ValueClose: string := ")"
  const Newline: string := "\n"
  const TagOpen: string := "<"
  const TagClose: string := ">\n"
  const SnapshotFailed: string := "chromedp snapshot failed: "

  /** The text of a property value; an absent one is empty. */
  function ValueString(v: Option<AXValue>): (r: string)
    ensures v.None? ==> r == ""
  {
    match v
    case None => ""
    case Some(Str(s)) => s
    case Some(Flag(b)) => if b then TrueText else FalseText
  }

  /** A node is left out when it is ignored, or when it has a blank or generic role and no name. */
  predicate ShouldSkip(n: AXNode)
  {
    var role := ValueString(n.role);
    ((role == GenericContainer || role == NoRole || role == "") && ValueString(n.name) == "") || n.ignored
  }

  predicate IsInteractiveRole(role: string)
  {
    role in InteractiveRoles
  }

  /** A node that is kept and takes a handle. */
  predicate Interactive(n: AXNode)
  {
    !ShouldSkip(n) && IsInteractiveRole(ValueString(n.role))
  }

  /**
   * The name as printed: newlines become spaces, and a name longer than 80
   * characters keeps its first 77 followed by "...".
   */
  function CleanName(name: string): (r: string)
    ensures |r| <= MaxName
    ensures |name| <= MaxName ==> |r| == |name|
    ensures |name| > MaxName ==> |r| == MaxName && r[CutName..] == Ellipsis
    ensures forall i :: 0 <= i < |r| && (i < CutName || |name| <= MaxName) ==>
      r[i] == if name[i] == '\n' then ' ' else name[i]
    ensures '\n' !in r
  {
    var c := ReplaceChar(name, '\n', ' ');
    if |c| > MaxName then c[..CutName] + Ellipsis else c
  }

  /** The handle marker that opens a line: `[h] ` for a handle, `- ` otherwise. */
  function Marker(handle: Option<int>): (r: string)
    ensures '\n' !in r
  {
    match handle
    case Some(h) => OpenBracket + IntToString(h) + CloseBracketSpace
    case None => Dash
  }

  /** The role as printed: `[role]`, with `unknown` for a blank one. */
  function RoleText(role: string): (r: string)
    ensures '\n' !in role ==> '\n' !in r
  {
    OpenBracket + (if role == "" then UnknownRole else role) + CloseBracket
  }

  /** The name as printed: a space and the quoted clean name, or nothing for a blank name. */
  function NameText(name: string): (r: string)
    ensures '\n' !in r
  {
    if name != "" then Space + Quote(CleanName(name)) else ""
  }

  /** The value as printed: ` (Val: v)`, or nothing for a blank value. */
  function ValueText(value: string): (r: string)
    ensures '\n' !in value ==> '\n' !in r
  {
    if value != "" then ValueOpen + value + ValueClose else ""
  }

  /** Everything a kept node prints after its marker, without the final newline. */
  function Describe(n: AXNode): (r: string)
    ensures '\n' !in ValueString(n.role) && '\n' !in ValueString(n.value) ==> '\n' !in r
  {
    RoleText(ValueString(n.role)) + NameText(ValueString(n.name)) + ValueText(ValueString(n.value))
  }

  /**
   * The line of a kept node: one line ending in a newline, which holds no
   * other newline unless the role or the value text does.
   */
  function NodeLine(n: AXNode, handle: Option<int>): (r: string)
    ensures |r| >= 1 && r[|r| - 1] == '\n'
    ensures '\n' !in ValueString(n.role) && '\n' !in ValueString(n.value) ==> '\n' !in r[..|r| - 1]
  {
    var r := Marker(handle) + Describe(n) + Newline;
    assert r[..|r| - 1] == Marker(handle) + Describe(n);
    r
  }

  /** What node `n` contributes when the next free handle is `h`. */
  function LineAt(n: AXNode, h: int): string
  {
    if ShouldSkip(n) then "" else NodeLine(n, if IsInteractiveRole(ValueString(n.role)) then Some(h) else None)
  }

  /*
   * The numbering is stated for any choice `p` of the nodes that take a
   * handle; the serializer's choice is `Interactive`. The lemmas about the
   * numbering hold for every `p`, and are then used with `Interactive`.
   */

  /** The number of nodes of `nodes` for which `p` holds. */
  function CountWith(nodes: seq<AXNode>, p: AXNode -> bool): (k: nat)
    ensures k <= |nodes|
    decreases |nodes|
  {
    if nodes == [] then 0
    else CountWith(nodes[..|nodes| - 1], p) + (if p(nodes[|nodes| - 1]) then 1 else 0)
  }

  /** The number of nodes of `nodes` that take a handle. */
  function HandleCount(nodes: seq<AXNode>): nat
  {
    CountWith(nodes, Interactive)
  }

  /**
   * The text that `line` prints for `nodes` when the first handle is `start`
   * and the nodes satisfying `p` take one handle each, in order.
   */
  function RenderedWith(nodes: seq<AXNode>, start: int, p: AXNode -> bool, line: (AXNode, int) -> string): string
    decreases |nodes|
  {
    if nodes == [] then ""
    else
      var init := nodes[..|nodes| - 1];
      RenderedWith(init, start, p, line) + line(nodes[|nodes| - 1], start + CountWith(init, p))
  }

  /** The tree text of `nodes` when the first handle is `start`. */
  function Rendered(nodes: seq<AXNode>, start: int): string
  {
    RenderedWith(nodes, start, Interactive, LineAt)
  }

  /**
   * The handle table after `nodes`, starting from `elements` with first
   * handle `start`, when the nodes satisfying `p` take one handle each.
   */
  function AssignedWith(nodes: seq<AXNode>, start: int, elements: map<int, int>, p: AXNode -> bool): map<int, int>
    decreases |nodes|
  {
    if nodes == [] then elements
    else
      var init := nodes[..|nodes| - 1];
      var n := nodes[|nodes| - 1];
      var m := AssignedWith(init, start, elements, p);
      if p(n) && n.backendId != 0 then m[start + CountWith(init, p) := n.backendId] else m
  }

  /** The serializer's handle table after `nodes`. */
  function Assigned(nodes: seq<AXNode>, start: int, elements: map<int, int>): map<int, int>
  {
    AssignedWith(nodes, start, elements, Interactive)
  }

  /** The count, one node further. */
  lemma CountStep(nodes: seq<AXNode>, i: nat, j: nat, p: AXNode -> bool)
    requires j == i + 1 <= |nodes|
    ensures CountWith(nodes[..j], p) == CountWith(nodes[..i], p) + (if p(nodes[i]) then 1 else 0)
  {
    var m := nodes[..j];
    assert m[..i] == nodes[..i] && m[i] == nodes[i];
  }

  /** The text, one node further: node `i` adds its text with handle `counter`. */
  lemma RenderedStep(nodes: seq<AXNode>, i: nat, j: nat, start: int, counter: int, p: AXNode -> bool, line: (AXNode, int) -> string)
    requires j == i + 1 <= |nodes| && counter == start + CountWith(nodes[..i], p)
    ensures RenderedWith(nodes[..i], start, p, line) + line(nodes[i], counter) == RenderedWith(nodes[..j], start, p, line)
  {
    var m := nodes[..j];
    assert m[..i] == nodes[..i] && m[i] == nodes[i];
  }

  /** The handle table, one node further: node `i` takes handle `counter` when it satisfies `p`. */
  lemma AssignedStep(nodes: seq<AXNode>, i: nat, j: nat, start: int, elements: map<int, int>, counter: int, p: AXNode -> bool)
    requires j == i + 1 <= |nodes| && counter == start + CountWith(nodes[..i], p)
    ensures (if p(nodes[i]) && nodes[i].backendId != 0
             then AssignedWith(nodes[..i], start, elements, p)[counter := nodes[i].backendId]
             else AssignedWith(nodes[..i], start, elements, p)) == AssignedWith(nodes[..j], start, elements, p)
  {
    var m := nodes[..j];
    assert m[..i] == nodes[..i] && m[i] == nodes[i];
  }

  /**
   * One node of `serializeAXNodes`: a skipped node prints nothing; a kept one
   * prints its line, and an interactive one takes handle `counter`, which
   * the table maps to its backend id unless that id is 0.
   */
  method SerializeAXNode(node: AXNode, counter: int, table: map<int, int>)
    returns (line: string, counter': int, table': map<int, int>)
    ensures line == LineAt(node, counter)
    ensures counter' == counter + (if Interactive(node) then 1 else 0)
    ensures table' == if Interactive(node) && node.backendId != 0 then table[counter := node.backendId] else table
  {
    line, counter', table' := "", counter, table;
    if ShouldSkip(node) {
      return;
    }
    var marker: Option<int> := None;
    if IsInteractiveRole(ValueString(node.role)) {
      counter' := counter + 1;
      if node.backendId != 0 {
        table' := table[counter := node.backendId];
      }
      marker := Some(counter);
    }
    line := NodeLine(node, marker);
  }

  /**
   * `serializeAXNodes`: renders the kept nodes in order and hands out the
   * handles `idCounter`, `idCounter + 1`, ... to the interactive ones.
   */
  method SerializeAXNodes(nodes: seq<AXNode>, idCounter: int, elements: map<int, int>)
    returns (tree: string, counter: int, table: map<int, int>)
    ensures tree == Rendered(nodes, idCounter)
    ensures counter == idCounter + HandleCount(nodes)
    ensures table == Assigned(nodes, idCounter, elements)
  {
    if |nodes| == 0 {
      return "", idCounter, elements;
    }
    tree, counter, table := "", idCounter, elements;
    var i := 0;
    while i < |nodes|
      invariant 0 <= i <= |nodes|
      invariant tree == Rendered(nodes[..i], idCounter)
      invariant counter == idCounter + HandleCount(nodes[..i])
      invariant table == Assigned(nodes[..i], idCounter, elements)
    {
      CountStep(nodes, i, i + 1, Interactive);
      AssignedStep(nodes, i, i + 1, idCounter, elements, counter, Interactive);
      RenderedStep(nodes, i, i + 1, idCounter, counter, Interactive, LineAt);
      var line;
      line, counter, table := SerializeAXNode(nodes[i], counter, table);
      tree := tree + line;
      i := i + 1;
    }
    assert nodes[..i] == nodes;
  }

  /** A skipped node prints nothing and takes no handle. */
  lemma SkippedInvisible(nodes: seq<AXNode>, i: nat, start: int, elements: map<int, int>)
    requires i < |nodes| && ShouldSkip(nodes[i])
    ensures Rendered(nodes[..i + 1], start) == Rendered(nodes[..i], start)
    ensures HandleCount(nodes[..i + 1]) == HandleCount(nodes[..i])
    ensures Assigned(nodes[..i + 1], start, elements) == Assigned(nodes[..i], start, elements)
  {
    CountStep(nodes, i, i + 1, Interactive);
    AssignedStep(nodes, i, i + 1, start, elements, start + HandleCount(nodes[..i]), Interactive);
    RenderedStep(nodes, i, i + 1, start, start + HandleCount(nodes[..i]), Interactive, LineAt);
  }

  /** The tree is empty or ends with a newline. */
  lemma {:induction false} RenderedEndsLine(nodes: seq<AXNode>, start: int)
    ensures var t := Rendered(nodes, start); t == "" || t[|t| - 1] == '\n'
    decreases |nodes|
  {
    if nodes != [] {
      RenderedEndsLine(nodes[..|nodes| - 1], start);
    }
  }

  /** Counting over a prefix: the count before node `i`, plus node `i`, never exceeds the count before `j > i`. */
  lemma {:induction false} CountPrefix(nodes: seq<AXNode>, p: AXNode -> bool, i: nat, j: nat)
    requires i < j <= |nodes|
    ensures CountWith(nodes[..i], p) + (if p(nodes[i]) then 1 else 0) <= CountWith(nodes[..j], p)
    decreases j
  {
    CountStep(nodes, j - 1, j, p);
    if i < j - 1 {
      CountPrefix(nodes, p, i, j - 1);
    }
  }

  /**
   * Handles follow input order: a node that takes a handle gets a smaller one
   * than every node after it (with `p == Interactive`, the serializer's handles).
   */
  lemma HandlesIncrease(nodes: seq<AXNode>, p: AXNode -> bool, i: nat, j: nat)
    requires i < j < |nodes| && p(nodes[i])
    ensures CountWith(nodes[..i], p) < CountWith(nodes[..j], p)
  {
    CountPrefix(nodes, p, i, j);
  }

  /**
   * The handle table holds only the entries it started with and new handles
   * in `start .. start + CountWith(nodes, p) - 1`, each mapped to a non-zero
   * backend id (with `p == Interactive`, the table of `Assigned`).
   */
  lemma {:induction false} AssignedDomain(nodes: seq<AXNode>, start: int, elements: map<int, int>, p: AXNode -> bool)
    ensures forall k :: k in AssignedWith(nodes, start, elements, p) ==>
      (k in elements && AssignedWith(nodes, start, elements, p)[k] == elements[k])
      || (start <= k < start + CountWith(nodes, p) && AssignedWith(nodes, start, elements, p)[k] != 0)
    decreases |nodes|
  {
    if nodes != [] {
      AssignedDomain(nodes[..|nodes| - 1], start, elements, p);
    }
  }

  /** `AssignedHandle` over the first `j` nodes. */
  lemma {:induction false} AssignedHandlePrefix(nodes: seq<AXNode>, start: int, elements: map<int, int>, p: AXNode -> bool, i: nat, j: nat)
    requires i < j <= |nodes| && p(nodes[i]) && nodes[i].backendId != 0
    ensures start + CountWith(nodes[..i], p) in AssignedWith(nodes[..j], start, elements, p)
    ensures AssignedWith(nodes[..j], start, elements, p)[start + CountWith(nodes[..i], p)] == nodes[i].backendId
    decreases j
  {
    AssignedStep(nodes, j - 1, j, start, elements, start + CountWith(nodes[..j - 1], p), p);
    if i < j - 1 {
      AssignedHandlePrefix(nodes, start, elements, p, i, j - 1);
      CountPrefix(nodes, p, i, j - 1);
    }
  }

  /**
   * Node `i`, when it takes a handle and has a non-zero backend id, is found
   * in the table under its handle: `start` plus the handles taken before it.
   */
  lemma AssignedHandle(nodes: seq<AXNode>, start: int, elements: map<int, int>, p: AXNode -> bool, i: nat)
    requires i < |nodes| && p(nodes[i]) && nodes[i].backendId != 0
    ensures start + CountWith(nodes[..i], p) in AssignedWith(nodes, start, elements, p)
    ensures AssignedWith(nodes, start, elements, p)[start + CountWith(nodes[..i], p)] == nodes[i].backendId
  {
    AssignedHandlePrefix(nodes, start, elements, p, i, |nodes|);
    assert nodes[..|nodes|] == nodes;
  }

  /** `EveryHandleUsed` over the first `j` nodes. */
  lemma {:induction false} EveryHandleUsedPrefix(nodes: seq<AXNode>, p: AXNode -> bool, start: int, h: int, j: nat)
    requires j <= |nodes| && start <= h < start + CountWith(nodes[..j], p)
    ensures exists i :: 0 <= i < j && p(nodes[i]) && start + CountWith(nodes[..i], p) == h
    decreases j
  {
    if j == 0 {
      assert false;
    } else {
      CountStep(nodes, j - 1, j, p);
      if h < start + CountWith(nodes[..j - 1], p) {
        EveryHandleUsedPrefix(nodes, p, start, h, j - 1);
      } else {
        assert p(nodes[j - 1]) && start + CountWith(nodes[..j - 1], p) == h;
      }
    }
  }

  /** Every handle in `start .. start + CountWith(nodes, p) - 1` belongs to some node that takes a handle. */
  lemma EveryHandleUsed(nodes: seq<AXNode>, p: AXNode -> bool, start: int, h: int)
    requires start <= h < start + CountWith(nodes, p)
    ensures exists i :: 0 <= i < |nodes| && p(nodes[i]) && start + CountWith(nodes[..i], p) == h
  {
    assert nodes[..|nodes|] == nodes;
    EveryHandleUsedPrefix(nodes, p, start, h, |nodes|);
  }

  /** The line of a DOM fallback element: `[h] <tag>` with the tag name in lower case. */
  function DomLine(n: DomNode, h: int): (r: string)
    ensures |r| >= 1 && r[|r| - 1] == '\n'
  {
    Marker(Some(h)) + TagOpen + ToLower(n.nodeName) + TagClose
  }

  /** The text `line` prints for `nodes` when element `i` has handle `start + i`. */
  function DomRenderedWith(nodes: seq<DomNode>, start: int, line: (DomNode, int) -> string): string
    decreases |nodes|
  {
    if nodes == [] then ""
    else DomRenderedWith(nodes[..|nodes| - 1], start, line) + line(nodes[|nodes| - 1], start + |nodes| - 1)
  }

  /** The fallback's text for `nodes`: element `i` prints its line with handle `start + i`. */
  function DomRendered(nodes: seq<DomNode>, start: int): string
  {
    DomRenderedWith(nodes, start, DomLine)
  }

  /** The fallback's table for `nodes`: element `i` maps handle `start + i` to its non-zero backend id. */
  function DomAssigned(nodes: seq<DomNode>, start: int, elements: map<int, int>): map<int, int>
    decreases |nodes|
  {
    if nodes == [] then elements
    else
      var n := nodes[|nodes| - 1];
      var m := DomAssigned(nodes[..|nodes| - 1], start, elements);
      if n.backendId != 0 then m[start + |nodes| - 1 := n.backendId] else m
  }

  /** The fallback's text, one element further. */
  lemma DomRenderedStep(nodes: seq<DomNode>, i: nat, j: nat, start: int, counter: int, line: (DomNode, int) -> string)
    requires j == i + 1 <= |nodes| && counter == start + i
    ensures DomRenderedWith(nodes[..i], start, line) + line(nodes[i], counter) == DomRenderedWith(nodes[..j], start, line)
  {
    var m := nodes[..j];
    assert m[..i] == nodes[..i] && m[i] == nodes[i];
  }

  /** The fallback's table, one element further. */
  lemma DomAssignedStep(nodes: seq<DomNode>, i: nat, j: nat, start: int, elements: map<int, int>, counter: int)
    requires j == i + 1 <= |nodes| && counter == start + i
    ensures (if nodes[i].backendId != 0
             then DomAssigned(nodes[..i], start, elements)[counter := nodes[i].backendId]
             else DomAssigned(nodes[..i], start, elements)) == DomAssigned(nodes[..j], start, elements)
  {
    var m := nodes[..j];
    assert m[..i] == nodes[..i] && m[i] == nodes[i];
  }

  /** One element of `buildDOMFallback`: it takes handle `counter` and prints its line. */
  method DomElement(n: DomNode, counter: int, table: map<int, int>)
    returns (line: string, counter': int, table': map<int, int>)
    ensures line == DomLine(n, counter) && counter' == counter + 1
    ensures table' == if n.backendId != 0 then table[counter := n.backendId] else table
  {
    counter' := counter + 1;
    table' := table;
    if n.backendId != 0 {
      table' := table[counter := n.backendId];
    }
    line := DomLine(n, counter);
  }

  /**
   * `buildDOMFallback`: every element of a successful query takes the next
   * handle; a failed query prints nothing and changes neither the counter
   * nor the table.
   */
  method BuildDOMFallback(query: Result<seq<DomNode>>, idCounter: int, elements: map<int, int>)
    returns (tree: string, counter: int, table: map<int, int>)
    ensures query.Err? ==> tree == "" && counter == idCounter && table == elements
    ensures query.Ok? ==>
      && tree == DomRendered(query.value, idCounter)
      && counter == idCounter + |query.value|
      && table == DomAssigned(query.value, idCounter, elements)
  {
    if query.Err? {
      return "", idCounter, elements;
    }
    var nodes := query.value;
    tree, counter, table := "", idCounter, elements;
    var i := 0;
    while i < |nodes|
      invariant 0 <= i <= |nodes|
      invariant counter == idCounter + i
      invariant tree == DomRendered(nodes[..i], idCounter)
      invariant table == DomAssigned(nodes[..i], idCounter, elements)
    {
      DomRenderedStep(nodes, i, i + 1, idCounter, counter, DomLine);
      DomAssignedStep(nodes, i, i + 1, idCounter, elements, counter);
      var line;
      line, counter, table := DomElement(nodes[i], counter, table);
      tree := tree + line;
      i := i + 1;
    }
    assert nodes[..i] == nodes;
  }

  /** The fallback table holds the entries it started with and handles `start .. start + |nodes| - 1`, each non-zero. */
  lemma {:induction false} DomAssignedDomain(nodes: seq<DomNode>, start: int, elements: map<int, int>)
    ensures forall k :: k in DomAssigned(nodes, start, elements) ==>
      (k in elements && DomAssigned(nodes, start, elements)[k] == elements[k])
      || (start <= k < start + |nodes| && DomAssigned(nodes, start, elements)[k] != 0)
    decreases |nodes|
  {
    if nodes != [] {
      DomAssignedDomain(nodes[..|nodes| - 1], start, elements);
    }
  }

  /** Element `i` of the fallback takes handle `start + i`, and the table has it when its backend id is non-zero. */
  lemma {:induction false} DomAssignedHandle(nodes: seq<DomNode>, start: int, elements: map<int, int>, i: nat)
    requires i < |nodes| && nodes[i].backendId != 0
    ensures start + i in DomAssigned(nodes, start, elements)
    ensures DomAssigned(nodes, start, elements)[start + i] == nodes[i].backendId
    decreases |nodes|
  {
    var init := nodes[..|nodes| - 1];
    if i < |nodes| - 1 {
      assert init[i] == nodes[i];
      DomAssignedHandle(init, start, elements, i);
    }
  }

  /**
   * `Snapshot`: with the page's location and title, the accessibility nodes
   * are serialized when there are any; otherwise the DOM fallback numbers the
   * queried elements. Numbering starts at 1 on a fresh table.
   */
  method TakeSnapshot(page: Result<PageInfo>, ax: Result<seq<AXNode>>, dom: Result<seq<DomNode>>)
    returns (r: Result<PageSnapshot>)
    ensures page.Err? ==> r == Err(SnapshotFailed + page.msg)
    ensures page.Ok? ==> r.Ok? && r.value.url == page.value.url && r.value.title == page.value.title
    ensures page.Ok? && ax.Ok? && |ax.value| > 0 ==>
      r.Ok? && r.value.tree == Rendered(ax.value, 1) && r.value.elements == Assigned(ax.value, 1, map[])
    ensures page.Ok? && !(ax.Ok? && |ax.value| > 0) ==>
      r.Ok? && r.value.tree == (if dom.Ok? then DomRendered(dom.value, 1) else "")
      && r.value.elements == (if dom.Ok? then DomAssigned(dom.value, 1, map[]) else map[])
    ensures r.Ok? ==> forall k :: k in r.value.elements ==> k >= 1 && r.value.elements[k] != 0
  {
    if page.Err? {
      return Err(SnapshotFailed + page.msg);
    }
    var elements: map<int, int> := map[];
    var idCounter := 1;
    var tree: string;
    if ax.Ok? && |ax.value| > 0 {
      tree, idCounter, elements := SerializeAXNodes(ax.value, idCounter, elements);
      AssignedDomain(ax.value, 1, map[], Interactive);
    } else {
      tree, idCounter, elements := BuildDOMFallback(dom, idCounter, elements);
      if dom.Ok? {
        DomAssignedDomain(dom.value, 1, map[]);
      }
    }
    return Ok(PageSnapshot(page.value.url, page.value.title, tree, elements));
  }
}
