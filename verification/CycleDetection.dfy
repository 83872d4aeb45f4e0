/** Dependency cycle detection: a three-colour depth-first search that reports a path when it meets a
    node it is still visiting, and after a report leaves its stack and marks as they are. */
module CycleDetection {
  type Node = string
  type Graph = map<Node, seq<Node>>

  datatype Color = Gray | Black      // white nodes are not in the map

  datatype Search = Search(color: map<Node, Color>, stack: seq<Node>, reports: seq<seq<Node>>)

  datatype Visited = Visited(search: Search, hit: bool)

  function Neighbours(g: Graph, u: Node): seq<Node> { if u in g then g[u] else [] }

  function Nodes(g: Graph): set<Node> { g.Keys + set u, i | u in g && 0 <= i < |g[u]| :: g[u][i] }

  lemma NeighboursAreNodes(g: Graph, u: Node, i: nat)
    requires i < |Neighbours(g, u)|
    ensures Neighbours(g, u)[i] in Nodes(g)
  {
  }

  lemma NotLarger(nodes: set<Node>, a: set<Node>, b: set<Node>)
    requires a <= b
    ensures |nodes - b| <= |nodes - a|
  {
    Subset(nodes - b, nodes - a);
  }

  lemma SmallerBy(nodes: set<Node>, a: set<Node>, b: set<Node>, u: Node)
    requires a <= b && u in b && u !in a && u in nodes
    ensures |nodes - b| < |nodes - a|
  {
    Subset(nodes - b, nodes - a - {u});
  }

  lemma {:induction false} Subset(s: set<Node>, t: set<Node>)
    requires s <= t
    ensures |s| <= |t|
  {
    if s != {} {
      var x :| x in s;
      Subset(s - {x}, t - {x});
    }
  }

  /** Index of the first occurrence. */
  function FirstIndex(stack: seq<Node>, v: Node): (i: nat)
    ensures v in stack ==> i < |stack| && stack[i] == v
    ensures i <= |stack|
  {
    if stack == [] || stack[0] == v then 0 else 1 + FirstIndex(stack[1..], v)
  }

  function Path(stack: seq<Node>, v: Node): seq<Node> {
    (if v in stack then stack[FirstIndex(stack, v)..] else stack) + [v]
  }

  /** `t` has kept every mark of `s`. */
  predicate Extends(s: Search, t: Search) { forall x :: x in s.color ==> x in t.color && t.color[x] == s.color[x] }

  function Visit(g: Graph, s: Search, u: Node): (r: Visited)
    requires u in Nodes(g) && u !in s.color
    ensures Extends(s, r.search) && u in r.search.color
    ensures !r.hit ==> r.search.stack == s.stack && r.search.reports == s.reports
    ensures r.hit ==> |r.search.reports| == |s.reports| + 1 && s.reports <= r.search.reports
    decreases |Nodes(g) - s.color.Keys|, 0, 0
  {
    var t := Search(s.color[u := Gray], s.stack + [u], s.reports);
    SmallerBy(Nodes(g), s.color.Keys, t.color.Keys, u);
    var r := Scan(g, t, u, 0);
    if r.hit then r
    else Visited(Search(r.search.color[u := Black], r.search.stack[..|r.search.stack| - 1], r.search.reports), false)
  }

  /** The neighbours of `u` from `i` on. */
  function Scan(g: Graph, s: Search, u: Node, i: nat): (r: Visited)
    requires i <= |Neighbours(g, u)|
    ensures Extends(s, r.search)
    ensures !r.hit ==> r.search.stack == s.stack && r.search.reports == s.reports
    ensures r.hit ==> |r.search.reports| == |s.reports| + 1 && s.reports <= r.search.reports
    decreases |Nodes(g) - s.color.Keys|, 1, |Neighbours(g, u)| - i
  {
    if i == |Neighbours(g, u)| then Visited(s, false)
    else
      var v := Neighbours(g, u)[i];
      if v in s.color && s.color[v].Gray? then Visited(s.(reports := s.reports + [Path(s.stack, v)]), true)
      else if v in s.color then Scan(g, s, u, i + 1)
      else
        NeighboursAreNodes(g, u, i);
        var r := Visit(g, s, v);
        NotLarger(Nodes(g), s.color.Keys, r.search.color.Keys);
        if r.hit then r else Scan(g, r.search, u, i + 1)
  }

  /** The outer loop, over the keys in whatever order the map yields them. */
  function Roots(g: Graph, s: Search, order: seq<Node>): (t: Search)
    requires forall u :: u in order ==> u in g
    ensures Extends(s, t) && forall u :: u in order ==> u in t.color
    decreases |order|
  {
    if order == [] then s
    else
      var u := order[0];
      assert u in order && order == [u] + order[1..];
      Roots(g, if u in s.color then s else Visit(g, s, u).search, order[1..])
  }

  const START := Search(map[], [], [])

  function Detect(g: Graph, order: seq<Node>): seq<seq<Node>>
    requires forall u :: u in order ==> u in g
  {
    Roots(g, START, order).reports
  }

  /** Cycles */

  predicate Edge(g: Graph, u: Node, v: Node) { v in Neighbours(g, u) }

  ghost predicate IsCycle(g: Graph, p: seq<Node>) {
    |p| >= 2 && p[0] == p[|p| - 1] && forall i :: 0 <= i < |p| - 1 ==> Edge(g, p[i], p[i + 1])
  }

  ghost predicate HasCycle(g: Graph) { exists p :: IsCycle(g, p) }

  /** Finishing numbers: every edge out of a finished node leads to an earlier finished one. */
  type Finish = map<Node, nat>

  ghost predicate Finished(g: Graph, s: Search, f: Finish, u: Node) {
    u in f && forall v :: Edge(g, u, v) ==> v in s.color && s.color[v].Black? && v in f && f[v] < f[u]
  }

  ghost predicate GreyIsStack(s: Search) {
    forall x :: x in s.stack <==> x in s.color && s.color[x].Gray?
  }

  ghost predicate IsPath(g: Graph, stack: seq<Node>) { forall i :: 0 <= i < |stack| - 1 ==> Edge(g, stack[i], stack[i + 1]) }

  ghost predicate BlackIsFinished(g: Graph, s: Search, f: Finish, clock: nat) {
    && (forall x :: x in s.color && s.color[x].Black? ==> Finished(g, s, f, x))
    && (forall x :: x in f ==> x in s.color && f[x] < clock)
  }

  /** As long as nothing was reported: the grey nodes are the stack, which is a path, and no black node
      can reach anything but earlier black nodes. */
  ghost predicate Clean(g: Graph, s: Search, f: Finish, clock: nat) {
    GreyIsStack(s) && IsPath(g, s.stack) && BlackIsFinished(g, s, f, clock)
  }

  /** The neighbours of `u` before `i` are finished. */
  ghost predicate DoneBefore(g: Graph, s: Search, u: Node, i: nat)
    requires i <= |Neighbours(g, u)|
  {
    forall j :: 0 <= j < i ==> Neighbours(g, u)[j] in s.color && s.color[Neighbours(g, u)[j]].Black?
  }

  lemma PathIsCycle(g: Graph, s: Search, v: Node)
    requires GreyIsStack(s) && IsPath(g, s.stack) && v in s.color && s.color[v].Gray?
    requires s.stack != [] && Edge(g, s.stack[|s.stack| - 1], v)
    ensures IsCycle(g, Path(s.stack, v))
  {
    assert v in s.stack;
    hide GreyIsStack, IsPath, IsCycle, Path, FirstIndex;
    PathEnds(s.stack, v);
    SuffixIsPath(g, s.stack, FirstIndex(s.stack, v));
    PathExtends(g, s.stack[FirstIndex(s.stack, v)..], v);
    IsCycleIffPath(g, Path(s.stack, v));
  }

  lemma DoneExtends(g: Graph, s: Search, r: Search, u: Node, i: nat)
    requires i < |Neighbours(g, u)| && DoneBefore(g, s, u, i) && Extends(s, r)
    requires var v := Neighbours(g, u)[i]; v in r.color && r.color[v].Black?
    ensures DoneBefore(g, r, u, i + 1)
  {
  }

  lemma {:induction false} ScanIsSound(g: Graph, s: Search, u: Node, i: nat, f: Finish, clock: nat)
    returns (f': Finish, clock': nat)
    requires i <= |Neighbours(g, u)| && Clean(g, s, f, clock) && DoneBefore(g, s, u, i)
    requires s.stack != [] && s.stack[|s.stack| - 1] == u
    ensures var r := Scan(g, s, u, i);
            if r.hit then s.reports == [] ==> IsCycle(g, r.search.reports[0])
            else Clean(g, r.search, f', clock') && DoneBefore(g, r.search, u, |Neighbours(g, u)|)
    decreases |Nodes(g) - s.color.Keys|, 1, |Neighbours(g, u)| - i
  {
    hide GreyIsStack, IsPath, BlackIsFinished, DoneBefore, Visit, Path, IsCycle, Nodes;
    f', clock' := f, clock;
    if i < |Neighbours(g, u)| {
      var v := Neighbours(g, u)[i];
      assert Edge(g, u, v);
      if v in s.color && s.color[v].Gray? {
        PathIsCycle(g, s, v);
      } else if v in s.color {
        DoneExtends(g, s, s, u, i);
        f', clock' := ScanIsSound(g, s, u, i + 1, f, clock);
      } else {
        NeighboursAreNodes(g, u, i);
        var r := Visit(g, s, v);
        NotLarger(Nodes(g), s.color.Keys, r.search.color.Keys);
        f', clock' := VisitIsSound(g, s, v, f, clock);
        if !r.hit {
          DoneExtends(g, s, r.search, u, i);
          f', clock' := ScanIsSound(g, r.search, u, i + 1, f', clock');
        }
      }
    }
  }

  lemma {:induction false} VisitIsSound(g: Graph, s: Search, u: Node, f: Finish, clock: nat)
    returns (f': Finish, clock': nat)
    requires u in Nodes(g) && u !in s.color && Clean(g, s, f, clock)
    requires s.stack != [] ==> Edge(g, s.stack[|s.stack| - 1], u)
    ensures var r := Visit(g, s, u);
            if r.hit then s.reports == [] ==> IsCycle(g, r.search.reports[0])
            else Clean(g, r.search, f', clock') && r.search.color[u].Black?
    decreases |Nodes(g) - s.color.Keys|, 0, 0
  {
    var t := Search(s.color[u := Gray], s.stack + [u], s.reports);
    SmallerBy(Nodes(g), s.color.Keys, t.color.Keys, u);
    PushKeepsClean(g, s, u, f, clock);
    var r := Scan(g, t, u, 0);
    f', clock' := ScanIsSound(g, t, u, 0, f, clock);
    if !r.hit {
      PopKeepsClean(g, s, r.search, u, f', clock');
      f', clock' := f'[u := clock'], clock' + 1;
    }
  }

  lemma PushKeepsClean(g: Graph, s: Search, u: Node, f: Finish, clock: nat)
    requires u !in s.color && Clean(g, s, f, clock) && (s.stack != [] ==> Edge(g, s.stack[|s.stack| - 1], u))
    ensures Clean(g, Search(s.color[u := Gray], s.stack + [u], s.reports), f, clock)
  {
    var t := Search(s.color[u := Gray], s.stack + [u], s.reports);
    forall x | x in t.color && t.color[x].Black? ensures Finished(g, t, f, x) { assert Finished(g, s, f, x); }
  }

  lemma PopKeepsGrey(s: Search, r: Search, u: Node)
    requires u !in s.color && GreyIsStack(s) && r.stack == s.stack + [u] && GreyIsStack(r)
    ensures GreyIsStack(Search(r.color[u := Black], s.stack, r.reports))
  {
    assert u !in s.stack;
    assert forall x :: x in r.stack <==> x in s.stack || x == u;
  }

  lemma PopFinishes(g: Graph, r: Search, u: Node, f: Finish, clock: nat)
    requires u in r.color && r.color[u].Gray? && BlackIsFinished(g, r, f, clock) && DoneBefore(g, r, u, |Neighbours(g, u)|)
    ensures BlackIsFinished(g, Search(r.color[u := Black], r.stack, r.reports), f[u := clock], clock + 1)
  {
    var t, f' := Search(r.color[u := Black], r.stack, r.reports), f[u := clock];
    forall v | Edge(g, u, v) ensures v in t.color && t.color[v].Black? && v in f' && f'[v] < f'[u] {
      var j :| 0 <= j < |Neighbours(g, u)| && Neighbours(g, u)[j] == v;
      assert Finished(g, r, f, v);
    }
    forall x | x in t.color && t.color[x].Black? && x != u ensures Finished(g, t, f', x) { assert Finished(g, r, f, x); }
  }

  lemma PopKeepsClean(g: Graph, s: Search, r: Search, u: Node, f: Finish, clock: nat)
    requires u !in s.color && GreyIsStack(s) && IsPath(g, s.stack)
    requires r.stack == s.stack + [u] && Clean(g, r, f, clock) && DoneBefore(g, r, u, |Neighbours(g, u)|)
    ensures Clean(g, Search(r.color[u := Black], r.stack[..|r.stack| - 1], r.reports), f[u := clock], clock + 1)
  {
    PopKeepsGrey(s, r, u);
    assert r.stack[|s.stack|] == u;
    PopFinishes(g, r, u, f, clock);
    assert r.stack[..|r.stack| - 1] == s.stack;
    hide GreyIsStack, IsPath, DoneBefore, Finished;
  }

  lemma {:induction false} RootsAreSound(g: Graph, s: Search, order: seq<Node>, f: Finish, clock: nat)
    returns (f': Finish, clock': nat)
    requires (forall u :: u in order ==> u in g) && s.reports == [] && s.stack == [] && Clean(g, s, f, clock)
    ensures var t := Roots(g, s, order);
            if t.reports == [] then t.stack == [] && Clean(g, t, f', clock') else IsCycle(g, t.reports[0])
    decreases |order|
  {
    f', clock' := f, clock;
    if order != [] {
      var u := order[0];
      assert u in order;
      if u in s.color {
        f', clock' := RootsAreSound(g, s, order[1..], f, clock);
      } else {
        var r := Visit(g, s, u);
        f', clock' := VisitIsSound(g, s, u, f, clock);
        if r.hit { ReportsStay(g, r.search, order[1..]); }
        else { f', clock' := RootsAreSound(g, r.search, order[1..], f', clock'); }
      }
    }
  }

  lemma {:induction false} ReportsStay(g: Graph, s: Search, order: seq<Node>)
    requires forall u :: u in order ==> u in g
    ensures s.reports <= Roots(g, s, order).reports
    decreases |order|
  {
    if order != [] {
      assert order[0] in order;
      ReportsStay(g, if order[0] in s.color then s else Visit(g, s, order[0]).search, order[1..]);
    }
  }

  lemma {:induction false} RanksFall(g: Graph, s: Search, f: Finish, clock: nat, p: seq<Node>, i: nat)
    requires Clean(g, s, f, clock) && |p| >= 1 && i < |p| && p[0] in s.color && s.color[p[0]].Black?
    requires forall j :: 0 <= j < |p| - 1 ==> Edge(g, p[j], p[j + 1])
    ensures p[i] in s.color && s.color[p[i]].Black? && p[0] in f && p[i] in f && f[p[i]] + i <= f[p[0]]
  {
    assert Finished(g, s, f, p[0]);
    if i > 0 {
      RanksFall(g, s, f, clock, p, i - 1);
      assert Finished(g, s, f, p[i - 1]) && Edge(g, p[i - 1], p[i]);
      assert p[i] in f && f[p[i]] < f[p[i - 1]];
    }
  }

  /** Everything finished, nothing grey: there is no cycle. */
  lemma CleanMeansAcyclic(g: Graph, s: Search, f: Finish, clock: nat)
    requires Clean(g, s, f, clock) && s.stack == [] && forall u :: u in g ==> u in s.color
    ensures !HasCycle(g)
  {
    forall p ensures !IsCycle(g, p) {
      if |p| >= 2 && (forall i :: 0 <= i < |p| - 1 ==> Edge(g, p[i], p[i + 1])) {
        assert Edge(g, p[0], p[1]) && p[0] in g;
        RanksFall(g, s, f, clock, p, |p| - 1);
      }
    }
  }

  /** Sound and complete, whatever order the map is iterated in: nothing is reported if and only if the
      graph has no directed cycle, and the first report is a closed path of edges. */
  lemma DetectionIsExact(g: Graph, order: seq<Node>)
    requires forall u :: u in order <==> u in g
    ensures Detect(g, order) == [] <==> !HasCycle(g)
    ensures Detect(g, order) != [] ==> IsCycle(g, Detect(g, order)[0])
  {
    var f, clock := RootsAreSound(g, START, order, map[], 0);
    var t := Roots(g, START, order);
    if t.reports == [] { CleanMeansAcyclic(g, t, f, clock); }
  }

  /** Later reports */

  lemma PushKeepsGrey(s: Search, u: Node)
    requires GreyIsStack(s)
    ensures GreyIsStack(Search(s.color[u := Gray], s.stack + [u], s.reports))
  {
    var t := Search(s.color[u := Gray], s.stack + [u], s.reports);
    forall x | x in t.color && t.color[x].Gray? ensures x in t.stack { assert t.stack[|s.stack|] == u; }
  }

  /** Also after a report the grey nodes are exactly the stack. */
  lemma {:induction false} ScanKeepsGrey(g: Graph, s: Search, u: Node, i: nat)
    requires i <= |Neighbours(g, u)| && GreyIsStack(s)
    ensures GreyIsStack(Scan(g, s, u, i).search)
    decreases |Nodes(g) - s.color.Keys|, 1, |Neighbours(g, u)| - i
  {
    hide GreyIsStack, Nodes, Path;
    if i < |Neighbours(g, u)| {
      var v := Neighbours(g, u)[i];
      if v in s.color {
        if s.color[v].Gray? { ReportKeepsGrey(s, Path(s.stack, v)); } else { ScanKeepsGrey(g, s, u, i + 1); }
      } else {
        NeighboursAreNodes(g, u, i);
        VisitKeepsGrey(g, s, v);
        var r := Visit(g, s, v);
        NotLarger(Nodes(g), s.color.Keys, r.search.color.Keys);
        if !r.hit { ScanKeepsGrey(g, r.search, u, i + 1); }
      }
    }
  }

  lemma ReportKeepsGrey(s: Search, p: seq<Node>)
    requires GreyIsStack(s)
    ensures GreyIsStack(s.(reports := s.reports + [p]))
  {
  }

  lemma {:induction false} VisitKeepsGrey(g: Graph, s: Search, u: Node)
    requires u in Nodes(g) && u !in s.color && GreyIsStack(s)
    ensures GreyIsStack(Visit(g, s, u).search)
    decreases |Nodes(g) - s.color.Keys|, 0, 0
  {
    hide GreyIsStack, Nodes;
    var t := Search(s.color[u := Gray], s.stack + [u], s.reports);
    SmallerBy(Nodes(g), s.color.Keys, t.color.Keys, u);
    PushKeepsGrey(s, u);
    ScanKeepsGrey(g, t, u, 0);
    var r := Scan(g, t, u, 0);
    if !r.hit {
      PopKeepsGrey(s, r.search, u);
      assert r.search.stack[..|r.search.stack| - 1] == s.stack;
    }
  }

  lemma {:induction false} RootsKeepGrey(g: Graph, s: Search, order: seq<Node>)
    requires (forall u :: u in order ==> u in g) && GreyIsStack(s)
    ensures GreyIsStack(Roots(g, s, order))
    decreases |order|
  {
    hide GreyIsStack, Visit;
    if order != [] {
      assert order[0] in order;
      if order[0] !in s.color { VisitKeepsGrey(g, s, order[0]); }
      RootsKeepGrey(g, if order[0] in s.color then s else Visit(g, s, order[0]).search, order[1..]);
    }
  }

  /** A report is the stack, old part and new, from the first occurrence of `v` on; the new part is a path
      that starts at the root and ends at a node with an edge to `v`. */
  ghost predicate ReportOf(g: Graph, p: seq<Node>, left: seq<Node>, root: Node, own: seq<Node>, v: Node) {
    && p == Path(left + own, v) && v in left + own
    && own != [] && own[0] == root && IsPath(g, own) && Edge(g, own[|own| - 1], v)
  }

  lemma {:induction false} ScanReports(g: Graph, s: Search, u: Node, i: nat, left: seq<Node>, root: Node, own: seq<Node>)
    returns (whole: seq<Node>, v: Node)
    requires i <= |Neighbours(g, u)| && GreyIsStack(s) && s.stack == left + own
    requires own != [] && own[0] == root && own[|own| - 1] == u && IsPath(g, own)
    requires Scan(g, s, u, i).hit
    ensures ReportOf(g, Scan(g, s, u, i).search.reports[|s.reports|], left, root, whole, v)
    decreases |Nodes(g) - s.color.Keys|, 1, |Neighbours(g, u)| - i
  {
    hide Nodes, Path, IsPath;
    assert i < |Neighbours(g, u)|;
    v := Neighbours(g, u)[i];
    assert Edge(g, u, v);
    if v in s.color {
      if s.color[v].Gray? {
        whole := own;
      } else {
        whole, v := ScanReports(g, s, u, i + 1, left, root, own);
      }
    } else {
      NeighboursAreNodes(g, u, i);
      var r := Visit(g, s, v);
      NotLarger(Nodes(g), s.color.Keys, r.search.color.Keys);
      if r.hit {
        whole, v := VisitReports(g, s, v, left, root, own);
      } else {
        VisitKeepsGrey(g, s, v);
        whole, v := ScanReports(g, r.search, u, i + 1, left, root, own);
      }
    }
  }

  lemma PathExtends(g: Graph, own: seq<Node>, u: Node)
    requires IsPath(g, own) && (own != [] ==> Edge(g, own[|own| - 1], u))
    ensures IsPath(g, own + [u])
  {
  }

  lemma {:induction false} VisitReports(g: Graph, s: Search, u: Node, left: seq<Node>, root: Node, own: seq<Node>)
    returns (whole: seq<Node>, v: Node)
    requires u in Nodes(g) && u !in s.color && GreyIsStack(s) && s.stack == left + own && IsPath(g, own)
    requires if own == [] then u == root else own[0] == root && Edge(g, own[|own| - 1], u)
    requires Visit(g, s, u).hit
    ensures ReportOf(g, Visit(g, s, u).search.reports[|s.reports|], left, root, whole, v)
    decreases |Nodes(g) - s.color.Keys|, 0, 0
  {
    hide Nodes, Path, ReportOf;
    var t := Search(s.color[u := Gray], s.stack + [u], s.reports);
    SmallerBy(Nodes(g), s.color.Keys, t.color.Keys, u);
    PushKeepsGrey(s, u);
    PathExtends(g, own, u);
    assert t.stack == left + (own + [u]);
    whole, v := ScanReports(g, t, u, 0, left, root, own + [u]);
  }

  lemma {:induction false} FirstIndexIn(a: seq<Node>, b: seq<Node>, v: Node)
    ensures FirstIndex(a + b, v) == if v in a then FirstIndex(a, v) else |a| + FirstIndex(b, v)
  {
    if a == [] {
      assert a + b == b;
    } else {
      assert (a + b)[0] == a[0] && (a + b)[1..] == a[1..] + b;
      FirstIndexIn(a[1..], b, v);
    }
  }

  /** A path followed by a path is a path exactly if the joint is an edge. */
  lemma PathJoins(g: Graph, a: seq<Node>, b: seq<Node>, v: Node)
    requires b != [] && IsPath(g, b) && Edge(g, b[|b| - 1], v)
    ensures IsPath(g, (a + b) + [v]) <==> IsPath(g, a + [b[0]])
  {
    var p, q := (a + b) + [v], a + [b[0]];
    if IsPath(g, p) {
      forall i | 0 <= i < |q| - 1 ensures Edge(g, q[i], q[i + 1]) { assert Edge(g, p[i], p[i + 1]); }
    }
    if IsPath(g, q) {
      forall i | 0 <= i < |p| - 1 ensures Edge(g, p[i], p[i + 1]) {
        if i < |a| { assert Edge(g, q[i], q[i + 1]); }
        else if i < |a| + |b| - 1 { assert p[i] == b[i - |a|] && p[i + 1] == b[i - |a| + 1]; }
      }
    }
  }

  lemma IsCycleIffPath(g: Graph, p: seq<Node>)
    requires |p| >= 2 && p[0] == p[|p| - 1]
    ensures IsCycle(g, p) <==> IsPath(g, p)
  {
  }

  lemma SuffixIsPath(g: Graph, b: seq<Node>, k: nat)
    requires IsPath(g, b) && k < |b|
    ensures IsPath(g, b[k..]) && b[k..][|b[k..]| - 1] == b[|b| - 1]
  {
  }

  lemma PathEnds(stack: seq<Node>, v: Node)
    requires v in stack
    ensures var k, p := FirstIndex(stack, v), Path(stack, v);
            k < |stack| && p == stack[k..] + [v] && |p| >= 2 && p[0] == v == p[|p| - 1]
  {
  }

  lemma ReportFromLeft(g: Graph, p: seq<Node>, left: seq<Node>, root: Node, own: seq<Node>, v: Node)
    requires ReportOf(g, p, left, root, own, v) && v in left
    ensures IsCycle(g, p) <==> IsPath(g, left[FirstIndex(left, v)..] + [root])
  {
    var k := FirstIndex(left, v);
    hide Path, FirstIndex, IsPath, IsCycle;
    PathEnds(left + own, v);
    FirstIndexIn(left, own, v);
    IsCycleIffPath(g, p);
    assert (left + own)[k..] == left[k..] + own;
    PathJoins(g, left[k..], own, v);
  }

  lemma ReportFromOwn(g: Graph, p: seq<Node>, left: seq<Node>, root: Node, own: seq<Node>, v: Node)
    requires ReportOf(g, p, left, root, own, v) && v !in left
    ensures IsCycle(g, p)
  {
    var j := FirstIndex(own, v);
    hide Path, FirstIndex, IsPath, IsCycle;
    PathEnds(left + own, v);
    FirstIndexIn(left, own, v);
    IsCycleIffPath(g, p);
    DropLeft(left, own, j);
    SuffixIsPath(g, own, j);
    PathExtends(g, own[j..], v);
  }

  lemma DropLeft(left: seq<Node>, own: seq<Node>, j: nat)
    requires j <= |own|
    ensures (left + own)[|left| + j..] == own[j..]
  {
  }

  /** Which reports are cycles: whatever earlier searches left on the stack, the report of a search from
      `u` is a genuine cycle if and only if it starts within this search, or what the stack holds from its
      start on leads along edges to `u`. */
  lemma ReportIsCycleIff(g: Graph, s: Search, u: Node)
    requires u in Nodes(g) && u !in s.color && GreyIsStack(s) && Visit(g, s, u).hit
    ensures var p := Visit(g, s, u).search.reports[|s.reports|];
            && p != []
            && var v := p[|p| - 1];
               IsCycle(g, p) <==> v !in s.stack || IsPath(g, s.stack[FirstIndex(s.stack, v)..] + [u])
  {
    assert IsPath(g, []) && s.stack == s.stack + [];
    hide Visit, Nodes, IsPath, IsCycle, GreyIsStack;
    var own, v := VisitReports(g, s, u, s.stack, u, []);
    var p := Visit(g, s, u).search.reports[|s.reports|];
    PathEnds(s.stack + own, v);
    hide Path, FirstIndex;
    if v in s.stack { ReportFromLeft(g, p, s.stack, u, own, v); } else { ReportFromOwn(g, p, s.stack, u, own, v); }
  }

  lemma VisitFindsAtOnce(g: Graph, s: Search, u: Node)
    requires u in Nodes(g) && u !in s.color && Neighbours(g, u) != []
    requires var v := Neighbours(g, u)[0]; v == u || (v in s.color && s.color[v].Gray?)
    ensures var stack := s.stack + [u];
            Visit(g, s, u) == Visited(Search(s.color[u := Gray], stack, s.reports + [Path(stack, Neighbours(g, u)[0])]), true)
  {
  }

  /** Later reports need not be cycles: with a -> a and b -> a, scanned in that order, the second report
      is a -> b -> a, although no edge leads from a to b. */
  lemma SecondReportCanBeFalse()
    ensures var g: Graph := map["a" := ["a"], "b" := ["a"]];
            && Detect(g, ["a", "b"]) == [["a", "a"], ["a", "b", "a"]]
            && !IsCycle(g, ["a", "b", "a"])
  {
    var g: Graph := map["a" := ["a"], "b" := ["a"]];
    VisitFindsAtOnce(g, START, "a");
    var s := Visit(g, START, "a").search;
    assert Path(["a"], "a") == ["a", "a"] && START.stack + ["a"] == ["a"];
    VisitFindsAtOnce(g, s, "b");
    assert Path(["a", "b"], "a") == ["a", "b", "a"] && ["a"] + ["b"] == ["a", "b"];
    hide Visit, Path, Nodes;
    assert ["a", "b"][1..] == ["b"] && ["b"][1..] == [];
    assert Roots(g, START, ["a", "b"]) == Roots(g, s, ["b"]);
    assert !Edge(g, "a", "b");
    var p := ["a", "b", "a"];
    assert !Edge(g, p[0], p[1]);
  }

  /** The scan that began in `start` stands at neighbour `i` in `now`. */
  ghost predicate Scanning(g: Graph, start: Search, now: Search, u: Node, i: nat) {
    && i <= |Neighbours(g, u)| && Scan(g, now, u, i) == Scan(g, start, u, 0)
    && |Nodes(g) - now.color.Keys| <= |Nodes(g) - start.color.Keys|
  }

  lemma ScanUnfolds(g: Graph, s: Search, u: Node, i: nat)
    requires i < |Neighbours(g, u)|
    ensures var v, r := Neighbours(g, u)[i], Scan(g, s, u, i);
            if v in s.color then
              r == if s.color[v].Gray? then Visited(s.(reports := s.reports + [Path(s.stack, v)]), true) else Scan(g, s, u, i + 1)
            else
              && v in Nodes(g)
              && var w := Visit(g, s, v);
                 && (r == if w.hit then w else Scan(g, w.search, u, i + 1))
                 && s.color.Keys <= w.search.color.Keys
  {
    hide Nodes, Path;
    NeighboursAreNodes(g, u, i);
  }

  /** One turn of the loop. */
  lemma ScanTurn(g: Graph, start: Search, now: Search, u: Node, i: nat)
    requires i < |Neighbours(g, u)| && Scanning(g, start, now, u, i)
    ensures var v := Neighbours(g, u)[i];
            if v in now.color then
              if now.color[v].Gray? then Scan(g, start, u, 0) == Visited(now.(reports := now.reports + [Path(now.stack, v)]), true)
              else Scanning(g, start, now, u, i + 1)
            else
              && v in Nodes(g) && |Nodes(g) - now.color.Keys| <= |Nodes(g) - start.color.Keys|
              && var w := Visit(g, now, v);
                 if w.hit then Scan(g, start, u, 0) == w else Scanning(g, start, w.search, u, i + 1)
  {
    hide Nodes, Path, Visit, Scan, Neighbours;
    ScanUnfolds(g, now, u, i);
    var v := Neighbours(g, u)[i];
    if v !in now.color { NotLarger(Nodes(g), now.color.Keys, Visit(g, now, v).search.color.Keys); }
  }

  lemma ScanEnds(g: Graph, start: Search, now: Search, u: Node)
    requires Scanning(g, start, now, u, |Neighbours(g, u)|)
    ensures Scan(g, start, u, 0) == Visited(now, false)
  {
    assert Scan(g, now, u, |Neighbours(g, u)|) == Visited(now, false);
    hide Scan;
  }

  lemma ScanningBound(g: Graph, start: Search, now: Search, u: Node, i: nat)
    requires Scanning(g, start, now, u, i)
    ensures |Nodes(g) - now.color.Keys| <= |Nodes(g) - start.color.Keys|
  {
  }

  lemma ScanBegins(g: Graph, start: Search, u: Node)
    ensures Scanning(g, start, start, u, 0)
  {
  }

  lemma VisitUnfolds(g: Graph, s: Search, u: Node)
    requires u in Nodes(g) && u !in s.color
    ensures var r := Scan(g, Search(s.color[u := Gray], s.stack + [u], s.reports), u, 0);
            && (r.hit ==> Visit(g, s, u) == r)
            && (!r.hit ==> r.search.stack == s.stack + [u]
                           && Visit(g, s, u) == Visited(Search(r.search.color[u := Black], s.stack, r.search.reports), false))
  {
    hide Nodes;
    var t := Search(s.color[u := Gray], s.stack + [u], s.reports);
    assert t.stack[..|t.stack| - 1] == s.stack;
  }

  /** The search as the code runs it: one colour map, one stack and one list of reports, shared by all
      recursive calls. */
  class Detector {
    const g: Graph
    var color: map<Node, Color>
    var stack: seq<Node>
    var cycleErrs: seq<seq<Node>>

    constructor (g: Graph)
      ensures this.g == g && State() == START
    {
      this.g, color, stack, cycleErrs := g, map[], [], [];
    }

    function State(): Search
      reads this
    {
      Search(color, stack, cycleErrs)
    }

    /** Where on the stack the cycle starts. */
    method FindStart(v: Node) returns (start: nat)
      ensures start <= |stack| && (if v in stack then start == FirstIndex(stack, v) else start == 0)
    {
      var i := 0;
      while i < |stack|
        invariant 0 <= i <= |stack| && v !in stack[..i]
        invariant FirstIndex(stack, v) == i + FirstIndex(stack[i..], v)
      {
        if stack[i] == v { return i; }
        assert stack[i..][1..] == stack[i + 1..] && stack[..i + 1] == stack[..i] + [stack[i]];
        i := i + 1;
      }
      assert stack[..i] == stack;
      return 0;
    }

    method Dfs(u: Node) returns (hit: bool)
      requires u in Nodes(g) && u !in color
      modifies this
      ensures Visited(State(), hit) == Visit(g, old(State()), u)
      decreases |Nodes(g) - color.Keys|, 0
    {
      hide Nodes, Path, Visit, Scan, Extends, Neighbours;
      VisitUnfolds(g, State(), u);
      color := color[u := Gray];
      stack := stack + [u];
      SmallerBy(Nodes(g), old(color).Keys, color.Keys, u);
      hit := ScanNeighbours(u);
      if hit { return; }
      color := color[u := Black];
      stack := stack[..|stack| - 1];
    }

    /** The loop over the neighbours of `u`. */
    method ScanNeighbours(u: Node) returns (hit: bool)
      modifies this
      ensures Visited(State(), hit) == Scan(g, old(State()), u, 0)
      decreases |Nodes(g) - color.Keys|, 2
    {
      hide Nodes, Visit, Scan, Neighbours, Scanning;
      ghost var start := State();
      ScanBegins(g, start, u);
      var i := 0;
      while i < |Neighbours(g, u)|
        invariant i <= |Neighbours(g, u)| && Scanning(g, start, State(), u, i)
        decreases |Neighbours(g, u)| - i
      {
        ScanningBound(g, start, State(), u, i);
        hit := VisitNeighbour(u, i, start);
        if hit { return; }
        i := i + 1;
      }
      ScanEnds(g, start, State(), u);
      return false;
    }

    /** One turn of it. */
    method VisitNeighbour(u: Node, i: nat, ghost start: Search) returns (hit: bool)
      requires i < |Neighbours(g, u)| && Scanning(g, start, State(), u, i)
      modifies this
      ensures if hit then Visited(State(), true) == Scan(g, start, u, 0) else Scanning(g, start, State(), u, i + 1)
      decreases |Nodes(g) - color.Keys|, 1
    {
      hide Nodes, Path, Visit, Scan, Neighbours, Scanning;
      ScanTurn(g, start, State(), u, i);
      var v := Neighbours(g, u)[i];
      if v !in color {
        hit := Dfs(v);
      } else if color[v].Gray? {
        Report(v);
        hit := true;
      } else {
        hit := false;
      }
    }

    method Report(v: Node)
      modifies this`cycleErrs
      ensures cycleErrs == old(cycleErrs) + [Path(stack, v)]
    {
      var start := FindStart(v);
      var path := stack[start..] + [v];
      cycleErrs := cycleErrs + [path];
    }
  }

  /** DetectDependencyCycles, with the keys in the order the map yields them. */
  method DetectDependencyCycles(g: Graph, order: seq<Node>) returns (reports: seq<seq<Node>>)
    requires forall u :: u in order <==> u in g
    ensures reports == Detect(g, order)
    ensures reports == [] <==> !HasCycle(g)
    ensures reports != [] ==> IsCycle(g, reports[0])
  {
    var d := new Detector(g);
    for i := 0 to |order|
      invariant Roots(g, d.State(), order[i..]) == Roots(g, START, order)
    {
      assert order[i..][0] == order[i] && order[i..][1..] == order[i + 1..];
      if order[i] !in d.color {
        var _ := d.Dfs(order[i]);
      }
    }
    DetectionIsExact(g, order);
    return d.cycleErrs;
  }
}
