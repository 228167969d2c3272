/** The nested category tree (`CategoryTree`). Every level is its own
    component instance with its own set of expanded ids; a level is mounted
    under an expanded node and unmounted, losing its state, when that node is
    collapsed. Instances are named by the path of category ids above them
    (`[]` is the root instance). */
module CategoryTree {
  import opened JsCore
  import opened CategoryTypes

  /** `toggleExpand`: a new set in which only `id` changed membership. */
  function ToggleExpand(expandedIds: set<int>, id: int): (r: set<int>)
    ensures id in r <==> id !in expandedIds
    ensures forall x :: x != id ==> (x in r <==> x in expandedIds)
  {
    if id in expandedIds then expandedIds - {id} else expandedIds + {id}
  }

  lemma ToggleTwice(expandedIds: set<int>, id: int)
    ensures ToggleExpand(ToggleExpand(expandedIds, id), id) == expandedIds
  {
  }

  /** The expanded ids of every mounted instance. */
  type Expansion = map<seq<int>, set<int>>

  function ExpandedAt(e: Expansion, path: seq<int>): set<int> {
    if path in e then e[path] else {}
  }

  datatype Control = NoControl | Collapsed | Expanded

  /** One rendered row: the category, its indentation level and its control. */
  datatype Row = Row(id: int, name: string, level: nat, control: Control)

  /** The control shown beside a category: none without children, otherwise
      a chevron saying whether it is expanded. */
  function ControlFor(c: Category, expandedIds: set<int>): (r: Control)
    ensures r.NoControl? <==> |c.children| == 0
    ensures r.Expanded? <==> |c.children| > 0 && c.id in expandedIds
  {
    if |c.children| == 0 then NoControl
    else if c.id in expandedIds then Expanded
    else Collapsed
  }

  /** The rows on screen for the instance at `path` showing `cats` at
      `level`: each category, followed by its children's rows when it shows
      them. */
  function Rows(cats: seq<Category>, e: Expansion, path: seq<int>, level: nat): seq<Row>
    decreases cats
  {
    if cats == [] then []
    else
      var c := cats[0];
      var control := ControlFor(c, ExpandedAt(e, path));
      [Row(c.id, c.name, level, control)]
      + (if control.Expanded? then Rows(c.children, e, path + [c.id], level + 1) else [])
      + Rows(cats[1..], e, path, level)
  }

  /** Nested rows are indented deeper than their level. */
  lemma {:induction false} RowLevels(cats: seq<Category>, e: Expansion, path: seq<int>, level: nat)
    ensures forall r :: r in Rows(cats, e, path, level) ==> r.level >= level
    decreases cats
  {
    if cats != [] {
      var c := cats[0];
      if ControlFor(c, ExpandedAt(e, path)).Expanded? {
        RowLevels(c.children, e, path + [c.id], level + 1);
      }
      RowLevels(cats[1..], e, path, level);
    }
  }

  function AtLevel(level: nat): Row -> bool {
    (r: Row) => r.level == level
  }

  function RowOf(c: Category, expandedIds: set<int>, level: nat): Row {
    Row(c.id, c.name, level, ControlFor(c, expandedIds))
  }

  function TopRows(cats: seq<Category>, expandedIds: set<int>, level: nat): (r: seq<Row>)
    ensures |r| == |cats|
    ensures forall i :: 0 <= i < |cats| ==> r[i] == RowOf(cats[i], expandedIds, level)
  {
    seq(|cats|, i requires 0 <= i < |cats| => RowOf(cats[i], expandedIds, level))
  }

  /** Whatever is expanded, an instance's own level lists every one of its
      categories, in order, each with the control its children call for. */
  lemma {:induction false} OwnLevelListsAll(cats: seq<Category>, e: Expansion, path: seq<int>, level: nat)
    ensures Filter(Rows(cats, e, path, level), AtLevel(level)) == TopRows(cats, ExpandedAt(e, path), level)
    decreases cats
  {
    var ids := ExpandedAt(e, path);
    if cats != [] {
      var head := [RowOf(cats[0], ids, level)];
      var nested := NestedRows(cats[0], e, path, level);
      var rest := Rows(cats[1..], e, path, level);
      RowsUnfold(cats, e, path, level);
      OwnLevelListsAll(cats[1..], e, path, level);
      NestedRowsHidden(cats[0], e, path, level);
      FilterThree(head, nested, rest, AtLevel(level));
      assert Filter(head, AtLevel(level)) == head;
      TopRowsCons(cats, ids, level);
    }
  }

  lemma TopRowsCons(cats: seq<Category>, expandedIds: set<int>, level: nat)
    requires cats != []
    ensures TopRows(cats, expandedIds, level) ==
      [RowOf(cats[0], expandedIds, level)] + TopRows(cats[1..], expandedIds, level)
  {
    var a, b := TopRows(cats, expandedIds, level), [RowOf(cats[0], expandedIds, level)] + TopRows(cats[1..], expandedIds, level);
    forall i | 0 <= i < |a| ensures a[i] == b[i] {
      if i > 0 {
        assert b[i] == TopRows(cats[1..], expandedIds, level)[i - 1];
      }
    }
  }

  /** The rows shown under `c` in the instance at `path`. */
  function NestedRows(c: Category, e: Expansion, path: seq<int>, level: nat): seq<Row> {
    if ControlFor(c, ExpandedAt(e, path)).Expanded? then Rows(c.children, e, path + [c.id], level + 1) else []
  }

  lemma RowsUnfold(cats: seq<Category>, e: Expansion, path: seq<int>, level: nat)
    requires cats != []
    ensures Rows(cats, e, path, level) ==
      [RowOf(cats[0], ExpandedAt(e, path), level)] + NestedRows(cats[0], e, path, level) + Rows(cats[1..], e, path, level)
  {
  }

  lemma FilterThree<T(!new)>(a: seq<T>, b: seq<T>, c: seq<T>, p: T -> bool)
    ensures Filter(a + b + c, p) == Filter(a, p) + Filter(b, p) + Filter(c, p)
  {
    FilterConcat(a + b, c, p);
    FilterConcat(a, b, p);
  }

  /** The rows nested under a category are not at its level. */
  lemma NestedRowsHidden(c: Category, e: Expansion, path: seq<int>, level: nat)
    ensures Filter(NestedRows(c, e, path, level), AtLevel(level)) == []
  {
    if ControlFor(c, ExpandedAt(e, path)).Expanded? {
      RowLevels(c.children, e, path + [c.id], level + 1);
      FilterKeepsNone(Rows(c.children, e, path + [c.id], level + 1), AtLevel(level));
    }
  }

  /** With nothing expanded only the top level is on screen. */
  lemma {:induction false} NothingExpanded(cats: seq<Category>, path: seq<int>, level: nat)
    ensures Rows(cats, map[], path, level) == TopRows(cats, {}, level)
    decreases cats
  {
    if cats != [] {
      NothingExpanded(cats[1..], path, level);
      assert TopRows(cats, {}, level) == [RowOf(cats[0], {}, level)] + TopRows(cats[1..], {}, level);
    }
  }

  /** Dropping the state of every instance at or below `path`, as unmounting
      that level does. */
  function Unmount(e: Expansion, path: seq<int>): (r: Expansion)
    ensures forall p :: p in r <==> p in e && !(path <= p)
    ensures forall p :: p in r ==> r[p] == e[p]
  {
    map p | p in e && !(path <= p) :: e[p]
  }

  /** A click on the chevron of category `id` in the instance at `path`; when
      it collapses the node, the nested instance below it is unmounted. */
  function Toggle(e: Expansion, path: seq<int>, id: int): (r: Expansion)
    ensures ExpandedAt(r, path) == ToggleExpand(ExpandedAt(e, path), id)
    ensures id in ExpandedAt(e, path) ==> forall p :: path + [id] <= p ==> p !in r
    ensures forall p :: p != path && !(path + [id] <= p) ==> ExpandedAt(r, p) == ExpandedAt(e, p)
    ensures id !in ExpandedAt(e, path) ==> forall p :: p != path ==> ExpandedAt(r, p) == ExpandedAt(e, p)
  {
    var ids := ToggleExpand(ExpandedAt(e, path), id);
    var kept := if id in ExpandedAt(e, path) then Unmount(e, path + [id]) else e;
    assert !(path + [id] <= path);
    kept[path := ids]
  }

  /** Collapsing and re-expanding a node shows its children collapsed again. */
  lemma ReexpandStartsCollapsed(e: Expansion, path: seq<int>, id: int)
    requires id in ExpandedAt(e, path)
    ensures ExpandedAt(Toggle(Toggle(e, path, id), path, id), path + [id]) == {}
    ensures ExpandedAt(Toggle(Toggle(e, path, id), path, id), path) == ExpandedAt(e, path)
  {
    var once := Toggle(e, path, id);
    assert path + [id] !in once;
    assert path + [id] != path;
  }

  class TreeView {
    var expansion: Expansion

    constructor ()
      ensures expansion == map[]
    {
      expansion := map[];
    }

    method ToggleExpand(path: seq<int>, id: int)
      modifies this
      ensures expansion == Toggle(old(expansion), path, id)
    {
      var current := if path in expansion then expansion[path] else {};
      var newExpanded := current;
      if id in newExpanded {
        newExpanded := newExpanded - {id};
        expansion := map p | p in expansion && !(path + [id] <= p) :: expansion[p];
      } else {
        newExpanded := newExpanded + {id};
      }
      expansion := expansion[path := newExpanded];
    }
  }
}
