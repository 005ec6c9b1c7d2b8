/** The leadership graph: a fixed set of role nodes placed in a 100 by 100
    percentage frame, edges between them drawn through an id index, and a
    popover for the node last clicked. */
module Leadership {
  import opened Numeric

  datatype Category = Now | National | Imperial | Service | Student | Volunteering

  /** A node reduced to the fields the page computes with. */
  datatype Node = Node(id: string, x: int, y: int, category: Category, isCurrent: bool)

  function Nodes(): (ns: seq<Node>)
    ensures |ns| == 11
  {
    [ Node("impact_smo", 18, 18, Now, true),
      Node("impact_co", 34, 20, Now, true),
      Node("pint", 50, 24, Now, true),
      Node("sih", 68, 38, National, false),
      Node("biomed_bharat", 56, 52, National, false),
      Node("library", 78, 62, Student, false),
      Node("classrep", 62, 68, Student, false),
      Node("bcg", 86, 78, Service, false),
      Node("homecoming", 70, 82, Service, false),
      Node("ncc", 50, 86, Service, false),
      Node("uandi", 26, 78, Volunteering, false) ]
  }

  datatype Edge = Edge(a: string, b: string)

  function Edges(): (es: seq<Edge>)
    ensures |es| == 10
  {
    [ Edge("impact_smo", "impact_co"), Edge("impact_co", "pint"), Edge("pint", "sih"),
      Edge("sih", "biomed_bharat"), Edge("biomed_bharat", "classrep"),
      Edge("classrep", "library"), Edge("library", "bcg"),
      Edge("classrep", "homecoming"), Edge("homecoming", "ncc"), Edge("ncc", "uandi") ]
  }

  predicate DistinctIds(ns: seq<Node>) {
    forall i, j :: 0 <= i < j < |ns| ==> ns[i].id != ns[j].id
  }

  /** No two nodes share an id. */
  lemma NodeIdsDistinct()
    ensures DistinctIds(Nodes())
  {
    var ns := Nodes();
    forall i, j | 0 <= i < j < |ns|
      ensures ns[i].id != ns[j].id
    {
      // Any two ids differ in length or at character 0, 1 or 2.
      assert |ns[i].id| != |ns[j].id| || ns[i].id[0] != ns[j].id[0]
          || ns[i].id[1] != ns[j].id[1] || ns[i].id[2] != ns[j].id[2];
    }
  }

  /** Every node lies inside the percentage frame. */
  lemma CoordinatesInFrame(k: nat)
    requires k < |Nodes()|
    ensures 0 <= Nodes()[k].x <= 100 && 0 <= Nodes()[k].y <= 100
  {
  }

  /** `nodes.find((n) => n.id === activeId) ?? null` */
  function Find(ns: seq<Node>, id: Option<string>): (r: Option<Node>)
    ensures r.None? <==> id.None? || forall k :: 0 <= k < |ns| ==> ns[k].id != id.value
    ensures r.Some? ==> id.Some? && r.value in ns && r.value.id == id.value
  {
    if id.None? || |ns| == 0 then None
    else if ns[0].id == id.value then Some(ns[0])
    else Find(ns[1..], id)
  }

  /** `Object.fromEntries(nodes.map((n) => [n.id, n]))`: entries go in in
      order, so a later node with the same id replaces an earlier one. */
  function ById(ns: seq<Node>): (m: map<string, Node>)
    ensures forall id :: id in m <==> exists k :: 0 <= k < |ns| && ns[k].id == id
  {
    if |ns| == 0 then map[]
    else
      var init := ns[..|ns| - 1];
      var last := ns[|ns| - 1];
      assert forall k :: 0 <= k < |init| ==> init[k] == ns[k];
      ById(init)[last.id := last]
  }

  /** With distinct ids the index maps each id to exactly its node. */
  lemma {:induction false} ByIdExact(ns: seq<Node>, k: nat)
    requires DistinctIds(ns) && k < |ns|
    ensures ById(ns)[ns[k].id] == ns[k]
  {
    var init := ns[..|ns| - 1];
    if k < |ns| - 1 {
      assert init[k] == ns[k];
      ByIdExact(init, k);
    }
  }

  /** The index and `find` agree on every id of a node. */
  lemma FindAgreesWithIndex(ns: seq<Node>, k: nat)
    requires DistinctIds(ns) && k < |ns|
    ensures Find(ns, Some(ns[k].id)) == Some(ById(ns)[ns[k].id])
  {
    ByIdExact(ns, k);
    var r := Find(ns, Some(ns[k].id));
    var j :| 0 <= j < |ns| && ns[j] == r.value;
    assert ns[j].id == ns[k].id;
  }

  /** The two ends of a drawn edge, in percent of the frame. */
  datatype Line = Line(x1: int, y1: int, x2: int, y2: int)

  /** An edge is drawn only when both ends are in the index. */
  function EdgeLine(index: map<string, Node>, e: Edge): (r: Option<Line>)
    ensures r.None? <==> e.a !in index || e.b !in index
    ensures r.Some? ==> r.value == Line(index[e.a].x, index[e.a].y, index[e.b].x, index[e.b].y)
  {
    if e.a !in index || e.b !in index then None
    else Some(Line(index[e.a].x, index[e.a].y, index[e.b].x, index[e.b].y))
  }

  /** Every edge names two existing nodes, so every edge is drawn. */
  lemma EdgesResolve(k: nat)
    requires k < |Edges()|
    ensures EdgeLine(ById(Nodes()), Edges()[k]).Some?
  {
    var ns := Nodes();
    var e := Edges()[k];
    // The positions in the node list of each edge's two ends.
    var ia := [0, 1, 2, 3, 4, 6, 5, 6, 8, 9][k];
    var ib := [1, 2, 3, 4, 6, 5, 7, 8, 9, 10][k];
    assert ns[ia].id == e.a && ns[ib].id == e.b;
  }

  /** The circle's diameter in pixels: larger for current roles. */
  function NodeSize(n: Node): (size: int)
    ensures n.isCurrent ==> size == 18
    ensures !n.isCurrent ==> size == 14
  {
    if n.isCurrent then 18 else 14
  }

  /** The large circles are exactly the "Now" nodes. */
  lemma CurrentAreNow(k: nat)
    requires k < |Nodes()|
    ensures NodeSize(Nodes()[k]) == 18 <==> Nodes()[k].category == Now
  {
  }

  /** The accent colour's initial, which sits at character 7 of both class
      strings. */
  function Accent(c: Category): char {
    match c
    case Now => 'e'
    case Imperial => 'c'
    case National => 'f'
    case Volunteering => 'a'
    case Service => 'v'
    case Student => 's'
  }

  /** `color`: one class string per category; the `default` branch of the
      switch is never taken. */
  function Color(c: Category): (s: string)
    ensures |s| > 7 && s[7] == Accent(c)
  {
    match c
    case Now => "border-emerald-500 bg-emerald-200" + " shadow-[0_0_0_12px_rgba(16,185,129,0.15)]"
    case Imperial => "border-cyan-500 bg-cyan-200" + " shadow-[0_0_0_12px_rgba(34,211,238,0.15)]"
    case National => "border-fuchsia-500 bg-fuchsia-200" + " shadow-[0_0_0_12px_rgba(217,70,239,0.15)]"
    case Volunteering => "border-amber-500 bg-amber-200" + " shadow-[0_0_0_12px_rgba(251,191,36,0.15)]"
    case Service => "border-violet-500 bg-violet-200" + " shadow-[0_0_0_12px_rgba(167,139,250,0.15)]"
    case Student => "border-slate-400 bg-slate-200" + " shadow-[0_0_0_12px_rgba(100,116,139,0.10)]"
  }

  /** `badge`: the popover's category label classes. */
  function Badge(c: Category): (s: string)
    ensures |s| > 7 && s[7] == Accent(c)
  {
    match c
    case Now => "border-emerald-400 bg-emerald-100" + " text-emerald-700"
    case Imperial => "border-cyan-400 bg-cyan-100" + " text-cyan-700"
    case National => "border-fuchsia-400 bg-fuchsia-100" + " text-fuchsia-700"
    case Volunteering => "border-amber-400 bg-amber-100" + " text-amber-700"
    case Service => "border-violet-400 bg-violet-100" + " text-violet-700"
    case Student => "border-slate-300 bg-slate-100" + " text-slate-700"
  }

  /** Different categories get different node colours and different
      badges. */
  lemma CategoriesDistinguished(c1: Category, c2: Category)
    requires c1 != c2
    ensures Color(c1) != Color(c2)
    ensures Badge(c1) != Badge(c2)
  {
    assert Color(c1)[7] != Color(c2)[7];
    assert Badge(c1)[7] != Badge(c2)[7];
  }

  /** The page's only state: the id of the node whose popover is open. */
  class Selection {
    var activeId: Option<string>

    constructor ()
      ensures activeId == None
    {
      activeId := None;
    }

    /** The node shown in the popover. */
    function Active(): (r: Option<Node>)
      reads this
      ensures r.Some? ==> r.value in Nodes() && activeId == Some(r.value.id)
    {
      Find(Nodes(), activeId)
    }

    /** A node's circle is clicked: its popover opens. */
    method Click(k: nat)
      requires k < |Nodes()|
      modifies this
      ensures activeId == Some(Nodes()[k].id)
      ensures Active() == Some(Nodes()[k])
    {
      activeId := Some(Nodes()[k].id);
      NodeIdsDistinct();
      FindAgreesWithIndex(Nodes(), k);
      ByIdExact(Nodes(), k);
    }

    /** The ✕ button closes the popover. */
    method Close()
      modifies this
      ensures activeId == None && Active() == None
    {
      activeId := None;
    }

    /** Whether node `k` is drawn as the active one; at most one is. */
    function IsActive(k: nat): (b: bool)
      reads this
      requires k < |Nodes()|
      ensures b <==> Active() == Some(Nodes()[k])
    {
      NodeIdsDistinct();
      if activeId == Some(Nodes()[k].id) then
        FindAgreesWithIndex(Nodes(), k);
        ByIdExact(Nodes(), k);
        true
      else false
    }
  }
}
