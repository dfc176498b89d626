/** The top-down splay tree of the Splay benchmark. */
module Splay {
  import opened Common

  class Node {
    const key: real
    const value: string
    var left: Node?
    var right: Node?

    constructor (key: real, value: string)
      ensures this.key == key && this.value == value && left == null && right == null
    {
      this.key, this.value := key, value;
      left, right := null, null;
    }
  }

  /** The shape of a tree of node objects. */
  datatype Shape = Empty | Tree(l: Shape, n: Node, r: Shape)

  ghost function Nodes(s: Shape): set<Node> {
    match s
    case Empty => {}
    case Tree(l, n, r) => Nodes(l) + {n} + Nodes(r)
  }

  /** The nodes in order. */
  ghost function Walk(s: Shape): seq<Node> {
    match s
    case Empty => []
    case Tree(l, n, r) => Walk(l) + [n] + Walk(r)
  }

  ghost function Size(s: Shape): nat {
    match s
    case Empty => 0
    case Tree(l, _, r) => Size(l) + 1 + Size(r)
  }

  /** The tree of node `h` has the shape `s`. */
  ghost predicate Rep(h: Node?, s: Shape)
    reads Nodes(s)
    decreases s
  {
    match s
    case Empty => h == null
    case Tree(l, n, r) => h == n && Rep(n.left, l) && Rep(n.right, r)
  }

  /** Strictly increasing keys. */
  ghost predicate Sorted(ns: seq<Node>) {
    forall i, j :: 0 <= i < j < |ns| ==> ns[i].key < ns[j].key
  }

  ghost predicate Below(ns: seq<Node>, key: real) {
    forall i :: 0 <= i < |ns| ==> ns[i].key < key
  }

  ghost predicate Above(ns: seq<Node>, key: real) {
    forall i :: 0 <= i < |ns| ==> key < ns[i].key
  }

  lemma {:induction false} InWalk(s: Shape, x: Node)
    ensures x in Nodes(s) <==> x in Walk(s)
  {
    if s.Tree? {
      InWalk(s.l, x);
      InWalk(s.r, x);
    }
  }

  lemma SortedParts(a: seq<Node>, b: seq<Node>)
    requires Sorted(a + b)
    ensures Sorted(a) && Sorted(b) && forall x, y :: x in a && y in b ==> x.key < y.key
  {
    forall i, j | 0 <= i < j < |a| ensures a[i].key < a[j].key { assert (a + b)[i] == a[i] && (a + b)[j] == a[j]; }
    forall i, j | 0 <= i < j < |b| ensures b[i].key < b[j].key { assert (a + b)[|a| + i] == b[i] && (a + b)[|a| + j] == b[j]; }
    forall x, y | x in a && y in b ensures x.key < y.key {
      var i :| 0 <= i < |a| && a[i] == x;
      var j :| 0 <= j < |b| && b[j] == y;
      assert (a + b)[i] == x && (a + b)[|a| + j] == y;
    }
  }

  /** The parts of a sorted tree are sorted, apart and on their sides of the root. */
  lemma Root(s: Shape)
    requires s.Tree? && Sorted(Walk(s))
    ensures Sorted(Walk(s.l)) && Sorted(Walk(s.r)) && Below(Walk(s.l), s.n.key) && Above(Walk(s.r), s.n.key)
    ensures s.n !in Nodes(s.l) && s.n !in Nodes(s.r) && Nodes(s.l) !! Nodes(s.r)
  {
    hide Sorted, Below, Above;
    Around(Walk(s.l), s.n, Walk(s.r));
    InWalk(s.l, s.n);
    InWalk(s.r, s.n);
    forall x | x in Nodes(s.l) ensures x !in Nodes(s.r) {
      InWalk(s.l, x);
      InWalk(s.r, x);
    }
  }

  lemma Around(a: seq<Node>, n: Node, b: seq<Node>)
    requires Sorted(a + [n] + b)
    ensures Sorted(a) && Sorted(b) && Below(a, n.key) && Above(b, n.key)
    ensures n !in a && n !in b && forall x :: x in a ==> x !in b
  {
    SortedParts(a + [n], b);
    SortedParts(a, [n]);
    assert n in a + [n] && n in [n];
    forall i | 0 <= i < |a| ensures a[i].key < n.key { assert a[i] in a; }
    forall i | 0 <= i < |b| ensures n.key < b[i].key { assert b[i] in b; }
    forall x | x in a ensures x !in b { assert x in a + [n]; }
  }

  // ----- rotations

  /** The left child comes to the top. */
  ghost function RotatedRight(s: Shape): Shape
    requires s.Tree? && s.l.Tree?
  {
    Tree(s.l.l, s.l.n, Tree(s.l.r, s.n, s.r))
  }

  ghost function RotatedLeft(s: Shape): Shape
    requires s.Tree? && s.r.Tree?
  {
    Tree(Tree(s.l, s.n, s.r.l), s.r.n, s.r.r)
  }

  lemma RotatedSame(s: Shape)
    requires s.Tree?
    ensures s.l.Tree? ==> Walk(RotatedRight(s)) == Walk(s) && Nodes(RotatedRight(s)) == Nodes(s) && Size(RotatedRight(s)) == Size(s)
    ensures s.r.Tree? ==> Walk(RotatedLeft(s)) == Walk(s) && Nodes(RotatedLeft(s)) == Nodes(s) && Size(RotatedLeft(s)) == Size(s)
  {
    if s.l.Tree? { Regroup(Walk(s.l.l), s.l.n, Walk(s.l.r), s.n, Walk(s.r)); }
    if s.r.Tree? { Regroup(Walk(s.l), s.n, Walk(s.r.l), s.r.n, Walk(s.r.r)); }
  }

  lemma Regroup(a: seq<Node>, m: Node, b: seq<Node>, n: Node, c: seq<Node>)
    ensures a + [m] + b + [n] + c == a + [m] + (b + [n] + c)
  {
  }

  method RotateRight(current: Node, ghost s: Shape) returns (tmp: Node)
    requires s.Tree? && s.l.Tree? && Rep(current, s) && Sorted(Walk(s))
    modifies s.n`left, s.l.n`right
    ensures Rep(tmp, RotatedRight(s))
  {
    Root(s);
    Root(s.l);
    tmp := current.left;
    current.left := tmp.right;
    tmp.right := current;
  }

  method RotateLeft(current: Node, ghost s: Shape) returns (tmp: Node)
    requires s.Tree? && s.r.Tree? && Rep(current, s) && Sorted(Walk(s))
    modifies s.n`right, s.r.n`left
    ensures Rep(tmp, RotatedLeft(s))
  {
    Root(s);
    Root(s.r);
    tmp := current.right;
    current.right := tmp.left;
    tmp.left := current;
  }

  // ----- the two trees that are built on the way down

  /** A chain of nodes from the dummy node down, each with the subtree on its other side. */
  datatype Spine = Top | Link(up: Spine, n: Node, sub: Shape)

  ghost function SpineNodes(p: Spine): set<Node> {
    match p
    case Top => {}
    case Link(up, n, sub) => SpineNodes(up) + {n} + Nodes(sub)
  }

  /** The last node, where the chain goes on. */
  ghost function Last(p: Spine, dummy: Node): (n: Node)
    ensures n in {dummy} + SpineNodes(p)
  {
    match p
    case Top => dummy
    case Link(_, n, _) => n
  }

  ghost function LeftWalk(p: Spine): seq<Node> {
    match p
    case Top => []
    case Link(up, n, sub) => LeftWalk(up) + (Walk(sub) + [n])
  }

  ghost function RightWalk(p: Spine): seq<Node> {
    match p
    case Top => []
    case Link(up, n, sub) => ([n] + Walk(sub)) + RightWalk(up)
  }

  /** The smaller nodes hang on the right side of the dummy, each one linked to the next on its right. */
  ghost predicate LeftSpine(p: Spine, dummy: Node)
    reads dummy`right, SpineNodes(p)
    decreases p
  {
    match p
    case Top => true
    case Link(up, n, sub) => Last(up, dummy).right == n && Rep(n.left, sub) && LeftSpine(up, dummy)
  }

  ghost predicate RightSpine(p: Spine, dummy: Node)
    reads dummy`left, SpineNodes(p)
    decreases p
  {
    match p
    case Top => true
    case Link(up, n, sub) => Last(up, dummy).left == n && Rep(n.right, sub) && RightSpine(up, dummy)
  }

  /** The nodes of a chain are different from each other and from the dummy. */
  ghost predicate Apart(p: Spine, dummy: Node) {
    match p
    case Top => true
    case Link(up, n, sub) =>
      n != dummy && dummy !in Nodes(sub) && n !in SpineNodes(up) && n !in Nodes(sub) && SpineNodes(up) !! Nodes(sub) && Apart(up, dummy)
  }

  ghost function LeftFilled(p: Spine, x: Shape): Shape {
    match p
    case Top => x
    case Link(up, n, sub) => LeftFilled(up, Tree(sub, n, x))
  }

  ghost function RightFilled(p: Spine, x: Shape): Shape {
    match p
    case Top => x
    case Link(up, n, sub) => RightFilled(up, Tree(x, n, sub))
  }

  lemma {:induction false} LeftFilledWalk(p: Spine, x: Shape)
    ensures Walk(LeftFilled(p, x)) == LeftWalk(p) + Walk(x) && Nodes(LeftFilled(p, x)) == SpineNodes(p) + Nodes(x)
    decreases p
  {
    if p.Link? { LeftFilledWalk(p.up, Tree(p.sub, p.n, x)); }
  }

  lemma {:induction false} RightFilledWalk(p: Spine, x: Shape)
    ensures Walk(RightFilled(p, x)) == Walk(x) + RightWalk(p) && Nodes(RightFilled(p, x)) == SpineNodes(p) + Nodes(x)
    decreases p
  {
    if p.Link? { RightFilledWalk(p.up, Tree(x, p.n, p.sub)); }
  }

  lemma {:induction false} LeftFilledRep(p: Spine, dummy: Node, x: Shape)
    requires LeftSpine(p, dummy) && Rep(Last(p, dummy).right, x)
    ensures Rep(dummy.right, LeftFilled(p, x))
    decreases p
  {
    if p.Link? { LeftFilledRep(p.up, dummy, Tree(p.sub, p.n, x)); }
  }

  lemma {:induction false} RightFilledRep(p: Spine, dummy: Node, x: Shape)
    requires RightSpine(p, dummy) && Rep(Last(p, dummy).left, x)
    ensures Rep(dummy.left, RightFilled(p, x))
    decreases p
  {
    if p.Link? { RightFilledRep(p.up, dummy, Tree(x, p.n, p.sub)); }
  }

  // ----- the way down

  /** The nodes of the tree taken apart, all different. */
  ghost predicate Split(l: Spine, s: Shape, r: Spine, dummy: Node) {
    Apart(l, dummy) && Apart(r, dummy) && dummy !in Nodes(s) && dummy !in SpineNodes(l) && dummy !in SpineNodes(r) &&
    SpineNodes(l) !! Nodes(s) && SpineNodes(l) !! SpineNodes(r) && Nodes(s) !! SpineNodes(r)
  }

  ghost function Total(l: Spine, s: Shape, r: Spine): seq<Node> {
    LeftWalk(l) + Walk(s) + RightWalk(r)
  }

  ghost function AllNodes(l: Spine, s: Shape, r: Spine): set<Node> {
    SpineNodes(l) + Nodes(s) + SpineNodes(r)
  }

  /** The smaller nodes are on the left chain, the greater ones on the right chain. */
  ghost predicate Ordered(l: Spine, s: Shape, r: Spine, key: real) {
    Sorted(Total(l, s, r)) && Below(LeftWalk(l), key) && Above(RightWalk(r), key)
  }

  ghost predicate Chains(l: Spine, s: Shape, r: Spine, dummy: Node, current: Node?)
    reads dummy, AllNodes(l, s, r)
  {
    LeftSpine(l, dummy) && RightSpine(r, dummy) && Rep(current, s)
  }

  lemma MiddleSorted(l: Spine, s: Shape, r: Spine)
    requires Sorted(Total(l, s, r))
    ensures Sorted(Walk(s))
  {
    hide Sorted;
    SortedParts(LeftWalk(l) + Walk(s), RightWalk(r));
    SortedParts(LeftWalk(l), Walk(s));
  }

  lemma OrderedMiddle(l: Spine, s: Shape, r: Spine, key: real)
    requires Ordered(l, s, r, key)
    ensures Sorted(Walk(s))
  {
    MiddleSorted(l, s, r);
  }

  /** The current node becomes the last one of the right chain. */
  method LinkRight(current: Node, right: Node, dummy: Node, ghost l: Spine, ghost s: Shape, ghost r: Spine)
    requires s.Tree? && Split(l, s, r, dummy) && Chains(l, s, r, dummy, current) && right == Last(r, dummy) && Sorted(Walk(s))
    modifies right`left
    ensures Chains(l, s.l, Link(r, s.n, s.r), dummy, current.left) && Split(l, s.l, Link(r, s.n, s.r), dummy)
    ensures current.left == old(current.left)
  {
    hide Sorted, Below, Above, Walk;
    Root(s);
    right.left := current;
    assert RightSpine(r, dummy);
    assert LeftSpine(l, dummy);
    assert Rep(s.n.left, s.l) && Rep(s.n.right, s.r);
  }

  method LinkLeft(current: Node, left: Node, dummy: Node, ghost l: Spine, ghost s: Shape, ghost r: Spine)
    requires s.Tree? && Split(l, s, r, dummy) && Chains(l, s, r, dummy, current) && left == Last(l, dummy) && Sorted(Walk(s))
    modifies left`right
    ensures Chains(Link(l, s.n, s.l), s.r, r, dummy, current.right) && Split(Link(l, s.n, s.l), s.r, r, dummy)
    ensures current.right == old(current.right)
  {
    hide Sorted, Below, Above, Walk;
    Root(s);
    left.right := current;
    assert LeftSpine(l, dummy);
    assert RightSpine(r, dummy);
    assert Rep(s.n.left, s.l) && Rep(s.n.right, s.r);
  }

  lemma LinkRightOrdered(l: Spine, s: Shape, r: Spine, key: real)
    requires s.Tree? && Ordered(l, s, r, key) && key < s.n.key
    ensures Ordered(l, s.l, Link(r, s.n, s.r), key)
    ensures Total(l, s.l, Link(r, s.n, s.r)) == Total(l, s, r) && AllNodes(l, s.l, Link(r, s.n, s.r)) == AllNodes(l, s, r)
  {
    hide Sorted, Below, Above;
    MiddleSorted(l, s, r);
    Root(s);
    RegroupRight(LeftWalk(l), Walk(s.l), s.n, Walk(s.r), RightWalk(r));
    AboveMore(s.n, Walk(s.r), RightWalk(r), key);
  }

  lemma AboveMore(n: Node, a: seq<Node>, b: seq<Node>, key: real)
    requires key < n.key && Above(a, n.key) && Above(b, key)
    ensures Above(([n] + a) + b, key)
  {
  }

  lemma BelowMore(n: Node, a: seq<Node>, b: seq<Node>, key: real)
    requires n.key < key && Below(a, n.key) && Below(b, key)
    ensures Below(b + (a + [n]), key)
  {
  }

  lemma RegroupRight(a: seq<Node>, b: seq<Node>, n: Node, c: seq<Node>, d: seq<Node>)
    ensures a + (b + [n] + c) + d == a + b + (([n] + c) + d)
  {
  }

  lemma LinkLeftOrdered(l: Spine, s: Shape, r: Spine, key: real)
    requires s.Tree? && Ordered(l, s, r, key) && s.n.key < key
    ensures Ordered(Link(l, s.n, s.l), s.r, r, key)
    ensures Total(Link(l, s.n, s.l), s.r, r) == Total(l, s, r) && AllNodes(Link(l, s.n, s.l), s.r, r) == AllNodes(l, s, r)
  {
    hide Sorted, Below, Above;
    MiddleSorted(l, s, r);
    Root(s);
    BelowMore(s.n, Walk(s.l), LeftWalk(l), key);
    RegroupLeft(LeftWalk(l), Walk(s.l), s.n, Walk(s.r), RightWalk(r));
  }

  lemma RegroupLeft(a: seq<Node>, b: seq<Node>, n: Node, c: seq<Node>, d: seq<Node>)
    ensures a + (b + [n] + c) + d == a + (b + [n]) + c + d
  {
  }

  /** Where the way down has led to: the left chain, the tree of the current node and the right chain. */
  datatype Place = Place(l: Spine, s: Shape, r: Spine)

  ghost predicate At(p: Place, all: set<Node>, dummy: Node, current: Node?, left: Node, right: Node, key: real)
    reads dummy, AllNodes(p.l, p.s, p.r)
  {
    p.s.Tree? && AllNodes(p.l, p.s, p.r) == all && Split(p.l, p.s, p.r, dummy) && Chains(p.l, p.s, p.r, dummy, current) &&
    left == Last(p.l, dummy) && right == Last(p.r, dummy) && Ordered(p.l, p.s, p.r, key)
  }

  ghost predicate SamePlace(p: Place, q: Place) {
    Total(q.l, q.s, q.r) == Total(p.l, p.s, p.r)
  }

  /** The node to stop at: the one with the key, or the last one on the way to it. */
  ghost predicate Arrived(s: Shape, key: real) {
    s.Tree? && (key < s.n.key ==> s.l.Empty?) && (s.n.key < key ==> s.r.Empty?)
  }

  lemma LastIn(p: Place, dummy: Node)
    ensures Last(p.l, dummy) == dummy || Last(p.l, dummy) in AllNodes(p.l, p.s, p.r)
    ensures Last(p.r, dummy) == dummy || Last(p.r, dummy) in AllNodes(p.l, p.s, p.r)
  {
  }

  lemma Children(h: Node, s: Shape)
    requires s.Tree? && Rep(h, s)
    ensures h == s.n && Rep(h.left, s.l) && Rep(h.right, s.r)
    ensures (h.left == null <==> s.l.Empty?) && (s.l.Tree? ==> h.left == s.l.n)
    ensures (h.right == null <==> s.r.Empty?) && (s.r.Tree? ==> h.right == s.r.n)
  {
  }

  /** One step towards a smaller key. */
  method StepLeft(current: Node, left: Node, right: Node, dummy: Node, key: real, ghost p: Place, ghost all: set<Node>)
    returns (done: bool, current': Node, right': Node, ghost q: Place)
    requires At(p, all, dummy, current, left, right, key) && key < current.key
    modifies dummy, all
    ensures At(q, all, dummy, current', left, right', key) && SamePlace(p, q)
    ensures if done then Arrived(q.s, key) else Size(q.s) < Size(p.s)
  {
    hide Split, Rep, LeftSpine, RightSpine, Ordered, Total, AllNodes;
    Children(current, p.s);
    q, right', current' := p, right, current;
    if current.left == null {
      return true, current', right', q;
    }
    if key < current.left.key {
      current', q := TurnRight(current, left, right, dummy, key, p, all);
      Children(current', q.s);
      if current'.left == null {
        return true, current', right', q;
      }
    }
    OrderedMiddle(q.l, q.s, q.r, key);
    LastIn(q, dummy);
    LinkRightOrdered(q.l, q.s, q.r, key);
    LinkRight(current', right', dummy, q.l, q.s, q.r);
    q, right', current' := Place(q.l, q.s.l, Link(q.r, q.s.n, q.s.r)), current', current'.left;
    return false, current', right', q;
  }

  method TurnRight(current: Node, left: Node, right: Node, dummy: Node, key: real, ghost p: Place, ghost all: set<Node>)
    returns (tmp: Node, ghost q: Place)
    requires At(p, all, dummy, current, left, right, key) && p.s.l.Tree? && key < p.s.l.n.key
    modifies all
    ensures At(q, all, dummy, tmp, left, right, key) && SamePlace(p, q) && Size(q.s) == Size(p.s) && key < tmp.key && q.s.n == tmp
  {
    hide Sorted, Below, Above, LeftSpine, RightSpine, Apart, Walk;
    OrderedMiddle(p.l, p.s, p.r, key);
    RotatedSame(p.s);
    assert p.s.n in Nodes(p.s) && p.s.l.n in Nodes(p.s);
    assert SpineNodes(p.l) <= all && SpineNodes(p.r) <= all;
    q := Place(p.l, RotatedRight(p.s), p.r);
    tmp := RotateRight(current, p.s);
  }

  /** One step towards a greater key. */
  method StepRight(current: Node, left: Node, right: Node, dummy: Node, key: real, ghost p: Place, ghost all: set<Node>)
    returns (done: bool, current': Node, left': Node, ghost q: Place)
    requires At(p, all, dummy, current, left, right, key) && current.key < key
    modifies dummy, all
    ensures At(q, all, dummy, current', left', right, key) && SamePlace(p, q)
    ensures if done then Arrived(q.s, key) else Size(q.s) < Size(p.s)
  {
    hide Split, Rep, LeftSpine, RightSpine, Ordered, Total, AllNodes;
    Children(current, p.s);
    q, left', current' := p, left, current;
    if current.right == null {
      return true, current', left', q;
    }
    if current.right.key < key {
      current', q := TurnLeft(current, left, right, dummy, key, p, all);
      Children(current', q.s);
      if current'.right == null {
        return true, current', left', q;
      }
    }
    OrderedMiddle(q.l, q.s, q.r, key);
    LastIn(q, dummy);
    LinkLeftOrdered(q.l, q.s, q.r, key);
    LinkLeft(current', left', dummy, q.l, q.s, q.r);
    q, left', current' := Place(Link(q.l, q.s.n, q.s.l), q.s.r, q.r), current', current'.right;
    return false, current', left', q;
  }

  method TurnLeft(current: Node, left: Node, right: Node, dummy: Node, key: real, ghost p: Place, ghost all: set<Node>)
    returns (tmp: Node, ghost q: Place)
    requires At(p, all, dummy, current, left, right, key) && p.s.r.Tree? && p.s.r.n.key < key
    modifies all
    ensures At(q, all, dummy, tmp, left, right, key) && SamePlace(p, q) && Size(q.s) == Size(p.s) && tmp.key < key && q.s.n == tmp
  {
    hide Sorted, Below, Above, LeftSpine, RightSpine, Apart, Walk;
    OrderedMiddle(p.l, p.s, p.r, key);
    RotatedSame(p.s);
    assert p.s.n in Nodes(p.s) && p.s.r.n in Nodes(p.s);
    assert SpineNodes(p.l) <= all && SpineNodes(p.r) <= all;
    q := Place(p.l, RotatedLeft(p.s), p.r);
    tmp := RotateLeft(current, p.s);
  }

  // ----- putting the parts together

  ghost function Assembled(p: Place): Shape
    requires p.s.Tree?
  {
    Tree(LeftFilled(p.l, p.s.l), p.s.n, RightFilled(p.r, p.s.r))
  }

  lemma AssembledSame(p: Place)
    requires p.s.Tree?
    ensures Walk(Assembled(p)) == Total(p.l, p.s, p.r) && Nodes(Assembled(p)) == AllNodes(p.l, p.s, p.r)
  {
    LeftFilledWalk(p.l, p.s.l);
    RightFilledWalk(p.r, p.s.r);
    RegroupAll(LeftWalk(p.l), Walk(p.s.l), p.s.n, Walk(p.s.r), RightWalk(p.r));
  }

  lemma RegroupAll(a: seq<Node>, b: seq<Node>, n: Node, c: seq<Node>, d: seq<Node>)
    ensures (a + b) + [n] + (c + d) == a + (b + [n] + c) + d
  {
  }

  method CloseLeft(current: Node, left: Node, dummy: Node, ghost l: Spine, ghost s: Shape, ghost r: Spine)
    requires s.Tree? && Split(l, s, r, dummy) && Chains(l, s, r, dummy, current) && left == Last(l, dummy) && Sorted(Walk(s))
    modifies left`right
    ensures LeftSpine(l, dummy) && RightSpine(r, dummy) && Rep(left.right, s.l) && Rep(current.right, s.r)
  {
    hide Sorted, Below, Above, Walk;
    Root(s);
    left.right := current.left;
    assert LeftSpine(l, dummy);
    assert RightSpine(r, dummy);
    assert Rep(s.n.left, s.l) && Rep(s.n.right, s.r);
  }

  method CloseRight(current: Node, left: Node, right: Node, dummy: Node, ghost l: Spine, ghost s: Shape, ghost r: Spine)
    requires s.Tree? && Split(l, s, r, dummy) && left == Last(l, dummy) && right == Last(r, dummy) && Sorted(Walk(s))
    requires LeftSpine(l, dummy) && RightSpine(r, dummy) && Rep(left.right, s.l) && Rep(current.right, s.r) && current == s.n
    modifies right`left
    ensures LeftSpine(l, dummy) && RightSpine(r, dummy) && Rep(left.right, s.l) && Rep(right.left, s.r)
  {
    hide Sorted, Below, Above, Walk;
    Root(s);
    right.left := current.right;
    assert RightSpine(r, dummy);
    assert LeftSpine(l, dummy);
    assert Rep(left.right, s.l) && Rep(current.right, s.r);
  }

  /** The left chain goes on with the left subtree of the current node, and the right chain with the right one. */
  method CloseChains(current: Node, left: Node, right: Node, dummy: Node, ghost p: Place, ghost all: set<Node>, ghost key: real)
    requires At(p, all, dummy, current, left, right, key)
    modifies left`right, right`left
    ensures Rep(dummy.right, LeftFilled(p.l, p.s.l)) && Rep(dummy.left, RightFilled(p.r, p.s.r))
  {
    hide Sorted, Below, Above, Walk, Ordered;
    OrderedMiddle(p.l, p.s, p.r, key);
    CloseLeft(current, left, dummy, p.l, p.s, p.r);
    CloseRight(current, left, right, dummy, p.l, p.s, p.r);
    LeftFilledRep(p.l, dummy, p.s.l);
    RightFilledRep(p.r, dummy, p.s.r);
  }

  /** The current node becomes the root of the two chains. */
  method Assemble(current: Node, left: Node, right: Node, dummy: Node, ghost p: Place, ghost all: set<Node>, ghost key: real)
    requires At(p, all, dummy, current, left, right, key)
    modifies dummy, all
    ensures Rep(current, Assembled(p)) && Nodes(Assembled(p)) == all
    ensures Walk(Assembled(p)) == Total(p.l, p.s, p.r) && Sorted(Walk(Assembled(p)))
  {
    hide Sorted, Below, Above, Walk, LeftSpine, RightSpine, Apart, LeftFilled, RightFilled;
    AssembledSame(p);
    LastIn(p, dummy);
    Root(Assembled(p));
    CloseChains(current, left, right, dummy, p, all, key);
    current.left := dummy.right;
    current.right := dummy.left;
    assert Rep(current.left, LeftFilled(p.l, p.s.l)) && Rep(current.right, RightFilled(p.r, p.s.r));
  }

  lemma AtStart(s: Shape, all: set<Node>, dummy: Node, current: Node?, key: real)
    requires Rep(current, s) && current != null && Sorted(Walk(s)) && all == Nodes(s) && dummy !in all
    ensures At(Place(Top, s, Top), all, dummy, current, dummy, dummy, key) && Total(Top, s, Top) == Walk(s)
  {
    assert [] + Walk(s) + [] == Walk(s);
  }

  lemma AtNode(p: Place, all: set<Node>, dummy: Node, current: Node?, left: Node, right: Node, key: real)
    requires At(p, all, dummy, current, left, right, key)
    ensures p.s.Tree? && current == p.s.n && (current.key == key ==> Arrived(p.s, key)) && Ordered(p.l, p.s, p.r, key)
  {
  }

  // ----- the tree

  /** The root has the key, or is the next smaller or the next greater one. */
  ghost predicate Nearest(s: Shape, key: real) {
    s.Tree? && (key <= s.n.key ==> Below(Walk(s.l), key)) && (s.n.key <= key ==> Above(Walk(s.r), key))
  }

  lemma ArrivedNearest(p: Place, key: real)
    requires Arrived(p.s, key) && Ordered(p.l, p.s, p.r, key)
    ensures Nearest(Assembled(p), key)
  {
    AssembledSame(p);
    LeftFilledWalk(p.l, p.s.l);
    RightFilledWalk(p.r, p.s.r);
    Root(Assembled(p));
  }

  // ----- the map that a sorted list of nodes stands for

  ghost function MapOf(ns: seq<Node>): map<real, string> {
    if ns == [] then map[] else MapOf(ns[..|ns| - 1])[ns[|ns| - 1].key := ns[|ns| - 1].value]
  }

  lemma {:induction false} MapHas(ns: seq<Node>, k: real)
    ensures k in MapOf(ns) <==> exists i :: 0 <= i < |ns| && ns[i].key == k
  {
    if ns != [] { MapHas(ns[..|ns| - 1], k); }
  }

  lemma {:induction false} MapConcat(a: seq<Node>, b: seq<Node>)
    ensures MapOf(a + b) == MapOf(a) + MapOf(b)
    decreases |b|
  {
    if b == [] {
      assert a + b == a;
    } else {
      var b' := b[..|b| - 1];
      assert (a + b)[..|a + b| - 1] == a + b';
      MapConcat(a, b');
    }
  }

  /** A node between the smaller and the greater ones is one entry of the map. */
  lemma MapAround(a: seq<Node>, n: Node, b: seq<Node>)
    requires Below(a, n.key) && Above(b, n.key)
    ensures n.key !in MapOf(a + b) && MapOf(a + [n] + b) == MapOf(a + b)[n.key := n.value]
  {
    MapConcat(a + [n], b);
    MapConcat(a, b);
    assert (a + [n])[..|a|] == a;
    MapHas(a, n.key);
    MapHas(b, n.key);
  }

  lemma {:induction false} MapSize(ns: seq<Node>)
    requires Sorted(ns)
    ensures |MapOf(ns)| == |ns|
  {
    if ns != [] {
      var ns' := ns[..|ns| - 1];
      MapSize(ns');
      MapHas(ns', ns[|ns| - 1].key);
      assert MapOf(ns).Keys == MapOf(ns').Keys + {ns[|ns| - 1].key};
    }
  }

  /** What the root says about the key when it is nearest to it. */
  lemma NearestMeans(s: Shape, key: real)
    requires Nearest(s, key) && Sorted(Walk(s))
    ensures key in MapOf(Walk(s)) <==> s.n.key == key
    ensures s.n.key == key ==> MapOf(Walk(s))[key] == s.n.value
    ensures s.n.key < key ==> Below(Walk(s.l) + [s.n], key) && Above(Walk(s.r), key)
    ensures key < s.n.key ==> Below(Walk(s.l), key) && Above([s.n] + Walk(s.r), key)
  {
    hide Sorted, Below, Above, MapOf;
    Root(s);
    MapAround(Walk(s.l), s.n, Walk(s.r));
    MapHas(Walk(s.l) + [s.n] + Walk(s.r), key);
    NearestKey(Walk(s.l), s.n, Walk(s.r), key);
    if s.n.key < key { BelowRoot(Walk(s.l), s.n, key); }
    if key < s.n.key { AboveRoot(s.n, Walk(s.r), key); }
  }

  lemma BelowRoot(a: seq<Node>, n: Node, key: real)
    requires Below(a, n.key) && n.key < key
    ensures Below(a + [n], key)
  {
  }

  lemma AboveRoot(n: Node, b: seq<Node>, key: real)
    requires Above(b, n.key) && key < n.key
    ensures Above([n] + b, key)
  {
  }

  lemma NearestKey(a: seq<Node>, n: Node, b: seq<Node>, key: real)
    requires (key <= n.key ==> Below(a, key)) && (n.key <= key ==> Above(b, key)) && Below(a, n.key) && Above(b, n.key)
    ensures (exists i :: 0 <= i < |a + [n] + b| && (a + [n] + b)[i].key == key) <==> n.key == key
  {
    var ns := a + [n] + b;
    assert ns[|a|] == n;
    forall i | 0 <= i < |ns| && i != |a| ensures n.key == key || ns[i].key != key {
      if i < |a| { assert ns[i] == a[i]; } else { assert ns[i] == b[i - |a| - 1]; }
    }
  }

  lemma NotNode(t: SplayTree, all: set<Node>)
    ensures t as object !in all
  {
  }

  class SplayTree {
    var root: Node?
    ghost var shape: Shape
    ghost var nodes: set<Node>

    ghost predicate Valid()
      reads this, nodes
    {
      nodes == Nodes(shape) && Rep(root, shape) && Sorted(Walk(shape))
    }

    constructor ()
      ensures Valid() && shape == Empty && nodes == {}
    {
      root := null;
      shape := Empty;
      nodes := {};
    }

    /** Bring the node with the key, or a neighbour of it, to the root. */
    method Splay(key: real)
      requires Valid()
      modifies this, nodes
      ensures Valid() && Walk(shape) == old(Walk(shape)) && nodes == old(nodes)
      ensures if old(root) == null then root == null else root != null && Nearest(shape, key)
    {
      hide At, Total, AllNodes, Arrived, Assembled, Nearest;
      if root == null {
        return;
      }
      ghost var all, s0 := nodes, shape;
      NotNode(this, all);
      var dummy := new Node(0.0, "");
      var left, right, current := dummy, dummy, root;
      ghost var p := Place(Top, shape, Top);
      AtStart(s0, all, dummy, current, key);
      var done := false;
      while !done
        invariant At(p, all, dummy, current, left, right, key) && Total(p.l, p.s, p.r) == Walk(s0) && fresh(dummy)
        invariant done ==> Arrived(p.s, key)
        modifies dummy, all
        decreases !done, Size(p.s)
      {
        AtNode(p, all, dummy, current, left, right, key);
        if key < current.key {
          done, current, right, p := StepLeft(current, left, right, dummy, key, p, all);
        } else if current.key < key {
          done, current, left, p := StepRight(current, left, right, dummy, key, p, all);
        } else {
          done := true;
        }
      }
      AtNode(p, all, dummy, current, left, right, key);
      ArrivedNearest(p, key);
      Assemble(current, left, right, dummy, p, all, key);
      root := current;
      shape := Assembled(p);
    }

    /** The map from keys to values. */
    ghost function Contents(): map<real, string>
      reads this
    {
      MapOf(Walk(shape))
    }

    method Insert(key: real, value: string)
      requires Valid()
      modifies this, nodes
      ensures Valid() && fresh(nodes - old(nodes))
      ensures Contents() == if key in old(Contents()) then old(Contents()) else old(Contents())[key := value]
    {
      if root == null {
        var node := new Node(key, value);
        root, shape, nodes := node, Tree(Empty, node, Empty), {node};
        MapAround([], node, []);
        return;
      }
      Splay(key);
      NearestMeans(shape, key);
      if root.key == key {
        return;
      }
      var node := new Node(key, value);
      InsertRoot(node);
    }

    /** The new node becomes the root; the old root goes to the side where it belongs. */
    method InsertRoot(node: Node)
      requires Valid() && root != null && Nearest(shape, node.key) && root.key != node.key && node !in nodes
      modifies this, root, node
      ensures Valid() && nodes == old(nodes) + {node}
      ensures Contents() == old(Contents())[node.key := node.value]
    {
      hide Sorted, Below, Above, MapOf, Rep;
      ghost var s := shape;
      NearestMeans(s, node.key);
      RootKey(root, s);
      NotNode(this, nodes + {node});
      if node.key > root.key {
        InsertedLeft(s, node);
        PutLeft(node, root, s);
        shape := WithLeft(s, node);
      } else {
        InsertedRight(s, node);
        PutRight(node, root, s);
        shape := WithRight(s, node);
      }
      root := node;
      nodes := nodes + {node};
    }

    /** The node with the key goes; without it, an error and a tree that is only splayed. */
    method Remove(key: real) returns (removed: Node?)
      requires Valid()
      modifies this, nodes
      ensures Valid()
      ensures removed == null <==> key !in old(Contents())
      ensures removed == null ==> Walk(shape) == old(Walk(shape)) && nodes == old(nodes)
      ensures removed != null ==> removed.key == key && removed.value == old(Contents())[key] && removed in old(nodes)
      ensures removed != null ==> Contents() == old(Contents()) - {key} && nodes == old(nodes) - {removed}
    {
      if root == null {
        return null;
      }
      Splay(key);
      NearestMeans(shape, key);
      RootKey(root, shape);
      if root.key != key {
        return null;
      }
      removed := root;
      RemoveRoot(key);
    }

    /** The left subtree, splayed on the key of the root, takes the right subtree as its right side. */
    method RemoveRoot(key: real)
      requires Valid() && root != null && root.key == key
      modifies this, nodes
      ensures Valid() && nodes == old(nodes) - {old(root)} && Contents() == old(Contents()) - {key}
    {
      hide Sorted, Below, Above, MapOf, Rep, Walk, Nodes, Nearest;
      ghost var s := shape;
      NotNode(this, nodes);
      RootKey(root, s);
      Root(s);
      Children(root, s);
      RemovedRoot(s);
      if root.left == null {
        root := root.right;
        shape := s.r;
        nodes := nodes - {s.n};
      } else {
        var right := root.right;
        ghost var others := nodes * Nodes(s.r);
        root := root.left;
        shape := s.l;
        nodes := nodes * Nodes(s.l);
        Splay(key);
        ghost var t := shape;
        RootKey(root, t);
        WalkNodes(t, s.l);
        NoGreater(t, key);
        Children(root, t);
        Root(t);
        HungWalk(t, s.l, s.r);
        HangRight(root, right, t, s.r);
        shape := Tree(t.l, t.n, s.r);
        nodes := nodes + others;
      }
    }

    method Find(key: real) returns (node: Node?)
      requires Valid()
      modifies this, nodes
      ensures Valid() && Walk(shape) == old(Walk(shape)) && nodes == old(nodes)
      ensures node == null <==> key !in Contents()
      ensures node != null ==> node in nodes && node.key == key && node.value == Contents()[key]
    {
      if root == null {
        return null;
      }
      Splay(key);
      NearestMeans(shape, key);
      return if root.key == key then root else null;
    }

    /** The last node of the tree of the given node, or of the whole tree. */
    method FindMax(start: Node?, ghost sub: Shape) returns (node: Node?)
      requires Valid() && (start != null ==> Rep(start, sub) && Nodes(sub) <= nodes)
      ensures node == null <==> root == null
      ensures root != null ==> var ns := Walk(if start == null then shape else sub); ns != [] && node == ns[|ns| - 1]
    {
      if root == null {
        return null;
      }
      var current := if start == null then root else start;
      ghost var s := if start == null then shape else sub;
      ghost var ns := Walk(s);
      assert Rep(current, s);
      while current.right != null
        invariant Rep(current, s) && Walk(s) != [] && ns != [] && Walk(s)[|Walk(s)| - 1] == ns[|ns| - 1]
        decreases s
      {
        s := s.r;
        current := current.right;
      }
      return current;
    }

    method FindGreatestLessThan(key: real) returns (node: Node?)
      requires Valid()
      modifies this, nodes
      ensures Valid() && Walk(shape) == old(Walk(shape)) && nodes == old(nodes)
      ensures node == null <==> forall k :: k in Contents() ==> key <= k
      ensures node != null ==> node in nodes && IsGreatestLess(Contents(), node.key, key) && node.value == Contents()[node.key]
    {
      if root == null {
        return null;
      }
      Splay(key);
      GreatestLess(shape, key);
      if root.key < key {
        assert IsGreatestLess(Contents(), root.key, key);
        return root;
      } else if root.left != null {
        Children(root, shape);
        node := FindMax(root.left, shape.l);
        assert IsGreatestLess(Contents(), node.key, key);
      } else {
        Children(root, shape);
        return null;
      }
    }

    method ExportKeys() returns (keys: seq<real>)
      requires Valid()
      ensures |keys| == |Contents()| && Increasing(keys) && forall k :: k in keys <==> k in Contents()
    {
      keys := [];
      if root != null {
        keys := Traverse(root, shape, nodes, keys);
      }
      ExportedKeys(Walk(shape));
    }
  }

  lemma RootKey(h: Node, s: Shape)
    requires Rep(h, s)
    ensures s.Tree? && h == s.n && h in Nodes(s)
  {
  }

  method PutLeft(node: Node, root: Node, ghost s: Shape)
    requires s.Tree? && Rep(root, s) && Sorted(Walk(s)) && node !in Nodes(s)
    modifies node, root
    ensures Rep(node, WithLeft(s, node))
  {
    Root(s);
    node.left := root;
    node.right := root.right;
    root.right := null;
    assert Rep(node.left, Tree(s.l, s.n, Empty)) && Rep(node.right, s.r);
  }

  method PutRight(node: Node, root: Node, ghost s: Shape)
    requires s.Tree? && Rep(root, s) && Sorted(Walk(s)) && node !in Nodes(s)
    modifies node, root
    ensures Rep(node, WithRight(s, node))
  {
    Root(s);
    node.right := root;
    node.left := root.left;
    root.left := null;
    assert Rep(node.right, Tree(Empty, s.n, s.r)) && Rep(node.left, s.l);
  }

  ghost function WithLeft(s: Shape, node: Node): Shape
    requires s.Tree?
  {
    Tree(Tree(s.l, s.n, Empty), node, s.r)
  }

  ghost function WithRight(s: Shape, node: Node): Shape
    requires s.Tree?
  {
    Tree(s.l, node, Tree(Empty, s.n, s.r))
  }

  lemma InsertedLeft(s: Shape, node: Node)
    requires s.Tree? && Sorted(Walk(s)) && Below(Walk(s.l) + [s.n], node.key) && Above(Walk(s.r), node.key)
    ensures Sorted(Walk(WithLeft(s, node))) && MapOf(Walk(WithLeft(s, node))) == MapOf(Walk(s))[node.key := node.value]
    ensures Nodes(WithLeft(s, node)) == Nodes(s) + {node}
  {
    hide Sorted, Below, Above, MapOf;
    var a, b := Walk(s.l) + [s.n], Walk(s.r);
    assert Walk(Tree(s.l, s.n, Empty)) == a;
    assert Walk(WithLeft(s, node)) == a + [node] + b;
    SortedInsert(a, node, b);
    MapAround(a, node, b);
    assert Nodes(Tree(s.l, s.n, Empty)) == Nodes(s.l) + {s.n};
  }

  lemma InsertedRight(s: Shape, node: Node)
    requires s.Tree? && Sorted(Walk(s)) && Below(Walk(s.l), node.key) && Above([s.n] + Walk(s.r), node.key)
    ensures Sorted(Walk(WithRight(s, node))) && MapOf(Walk(WithRight(s, node))) == MapOf(Walk(s))[node.key := node.value]
    ensures Nodes(WithRight(s, node)) == Nodes(s) + {node}
  {
    hide Sorted, Below, Above, MapOf;
    var a, b := Walk(s.l), [s.n] + Walk(s.r);
    assert Walk(Tree(Empty, s.n, s.r)) == b by { assert [] + [s.n] == [s.n]; }
    Assoc(Walk(s.l), s.n, Walk(s.r));
    assert Walk(WithRight(s, node)) == a + [node] + b;
    SortedInsert(a, node, b);
    MapAround(a, node, b);
    assert Nodes(Tree(Empty, s.n, s.r)) == {s.n} + Nodes(s.r);
  }

  lemma RemovedRoot(s: Shape)
    requires s.Tree? && Sorted(Walk(s))
    ensures Sorted(Walk(s.l) + Walk(s.r)) && MapOf(Walk(s.l) + Walk(s.r)) == MapOf(Walk(s)) - {s.n.key}
    ensures Nodes(s.l) + Nodes(s.r) == Nodes(s) - {s.n}
    ensures s.l.Empty? ==> Walk(s.l) + Walk(s.r) == Walk(s.r) && Nodes(s.l) + Nodes(s.r) == Nodes(s.r)
  {
    hide Sorted, Below, Above, MapOf;
    Root(s);
    MapAround(Walk(s.l), s.n, Walk(s.r));
    MapMinus(MapOf(Walk(s.l) + Walk(s.r)), s.n.key, s.n.value);
    SortedRemove(Walk(s.l), s.n, Walk(s.r));
  }

  lemma MapMinus(m: map<real, string>, key: real, value: string)
    requires key !in m
    ensures m[key := value] - {key} == m
  {
  }

  lemma SortedRemove(a: seq<Node>, n: Node, b: seq<Node>)
    requires Sorted(a + [n] + b)
    ensures Sorted(a + b)
  {
    var ns := a + b;
    forall i, j | 0 <= i < j < |ns| ensures ns[i].key < ns[j].key {
      var i', j' := if i < |a| then i else i + 1, if j < |a| then j else j + 1;
      assert ns[i] == (a + [n] + b)[i'] && ns[j] == (a + [n] + b)[j'];
    }
  }

  lemma WalkNodes(s: Shape, t: Shape)
    requires Walk(s) == Walk(t)
    ensures Nodes(s) == Nodes(t)
  {
    WalkOnto(s, t);
    WalkOnto(t, s);
  }

  lemma WalkOnto(s: Shape, t: Shape)
    requires Walk(s) == Walk(t)
    ensures Nodes(s) <= Nodes(t)
  {
    hide Walk, Nodes;
    forall x | x in Nodes(s) ensures x in Nodes(t) {
      InWalk(s, x);
      InWalk(t, x);
    }
  }

  /** With only smaller keys in the tree, the root has no right side. */
  lemma NoGreater(s: Shape, key: real)
    requires Nearest(s, key) && Below(Walk(s), key)
    ensures s.r.Empty?
  {
    hide Below, Above;
    BelowParts(Walk(s.l), s.n, Walk(s.r), key);
    Between(Walk(s.r), key, key);
  }

  lemma BelowParts(a: seq<Node>, n: Node, b: seq<Node>, key: real)
    requires Below(a + [n] + b, key)
    ensures Below(a, key) && n.key < key && Below(b, key)
  {
    var ns := a + [n] + b;
    assert ns[|a|] == n;
    forall i | 0 <= i < |a| ensures a[i].key < key { assert ns[i] == a[i]; }
    forall i | 0 <= i < |b| ensures b[i].key < key { assert ns[|a| + 1 + i] == b[i]; }
  }

  lemma Between(ns: seq<Node>, low: real, high: real)
    requires Below(ns, high) && Above(ns, low)
    ensures ns == [] || low < high
  {
    assert ns == [] || ns[0].key < high;
  }

  /** The right side of the root exchanged when there was none. */
  lemma HungWalk(s: Shape, l: Shape, r: Shape)
    requires s.Tree? && s.r.Empty? && Walk(s) == Walk(l)
    ensures Walk(Tree(s.l, s.n, r)) == Walk(l) + Walk(r) && Nodes(Tree(s.l, s.n, r)) == Nodes(l) + Nodes(r)
  {
    WalkNodes(s, l);
    assert Walk(s) == Walk(s.l) + [s.n];
  }

  method HangRight(root: Node, right: Node?, ghost s: Shape, ghost r: Shape)
    requires s.Tree? && Rep(root, s) && Rep(right, r) && Sorted(Walk(s)) && Nodes(s) !! Nodes(r)
    modifies root
    ensures Rep(root, Tree(s.l, s.n, r))
  {
    Root(s);
    root.right := right;
    assert Rep(root.left, s.l) && Rep(right, r);
  }

  ghost function Keys(ns: seq<Node>): seq<real> {
    seq(|ns|, i requires 0 <= i < |ns| => ns[i].key)
  }

  predicate Increasing(keys: seq<real>) {
    forall i, j :: 0 <= i < j < |keys| ==> keys[i] < keys[j]
  }

  lemma ExportedKeys(ns: seq<Node>)
    requires Sorted(ns)
    ensures |Keys(ns)| == |MapOf(ns)| && Increasing(Keys(ns)) && forall k :: k in Keys(ns) <==> k in MapOf(ns)
  {
    MapSize(ns);
    forall k ensures k in Keys(ns) <==> k in MapOf(ns) {
      MapHas(ns, k);
      if i :| 0 <= i < |ns| && ns[i].key == k { assert Keys(ns)[i] == k; }
    }
  }

  /** The keys of the tree of `h` in order, after the ones already there. */
  method Traverse(h: Node, ghost s: Shape, ghost nodes: set<Node>, keys: seq<real>) returns (all: seq<real>)
    requires Rep(h, s) && Nodes(s) <= nodes
    ensures all == keys + Keys(Walk(s))
    decreases s
  {
    var current: Node? := h;
    ghost var rest := s;
    all := keys;
    while current != null
      invariant Rep(current, rest) && (rest == s || rest < s) && Nodes(rest) <= nodes && all + Keys(Walk(rest)) == keys + Keys(Walk(s))
      decreases rest
    {
      KeysAround(all, Walk(rest.l), rest.n, Walk(rest.r));
      var left := current.left;
      if left != null { all := Traverse(left, rest.l, nodes, all); }
      all := all + [current.key];
      current := current.right;
      rest := rest.r;
    }
  }

  lemma KeysAround(keys: seq<real>, a: seq<Node>, n: Node, b: seq<Node>)
    ensures keys + Keys(a + [n] + b) == keys + Keys(a) + [n.key] + Keys(b)
    ensures a == [] ==> keys + Keys(a) == keys
  {
  }

  ghost predicate IsGreatestLess(m: map<real, string>, k: real, key: real) {
    k in m && k < key && forall k' :: k' in m && k' < key ==> k' <= k
  }

  lemma {:induction false} MapAt(ns: seq<Node>, i: nat)
    requires Sorted(ns) && i < |ns|
    ensures ns[i].key in MapOf(ns) && MapOf(ns)[ns[i].key] == ns[i].value
  {
    if i < |ns| - 1 { MapAt(ns[..|ns| - 1], i); }
  }

  lemma GreatestAt(ns: seq<Node>, i: nat, key: real)
    requires Sorted(ns) && i < |ns| && ns[i].key < key && forall j :: i < j < |ns| ==> key <= ns[j].key
    ensures IsGreatestLess(MapOf(ns), ns[i].key, key) && MapOf(ns)[ns[i].key] == ns[i].value
  {
    MapAt(ns, i);
    forall k | k in MapOf(ns) && k < key ensures k <= ns[i].key { MapHas(ns, k); }
  }

  lemma NoneLess(ns: seq<Node>, key: real)
    requires AtLeast(ns, key)
    ensures forall k :: k in MapOf(ns) ==> key <= k
  {
    forall k | k in MapOf(ns) ensures key <= k { MapHas(ns, k); }
  }

  /** Where the greatest smaller key is when the root is nearest. */
  lemma GreatestLess(s: Shape, key: real)
    requires Nearest(s, key) && Sorted(Walk(s))
    ensures s.n.key < key ==> IsGreatestLess(MapOf(Walk(s)), s.n.key, key) && MapOf(Walk(s))[s.n.key] == s.n.value
    ensures key <= s.n.key && s.l.Tree? ==>
      var n := Walk(s.l)[|Walk(s.l)| - 1];
      n in Nodes(s) && IsGreatestLess(MapOf(Walk(s)), n.key, key) && MapOf(Walk(s))[n.key] == n.value
    ensures key <= s.n.key && s.l.Empty? ==> forall k :: k in MapOf(Walk(s)) ==> key <= k
  {
    hide Sorted, Below, Above, MapOf, IsGreatestLess;
    Root(s);
    if s.n.key < key {
      AboveAtLeast(Walk(s.r), key);
      GreatestAround(Walk(s.l), s.n, Walk(s.r), key);
    } else if s.l.Tree? {
      GreatestLeft(Walk(s.l), s.n, Walk(s.r), key);
      InWalk(s.l, Walk(s.l)[|Walk(s.l)| - 1]);
    } else {
      assert Walk(s) == [s.n] + Walk(s.r) by { assert [] + [s.n] == [s.n]; }
      NotLess(s.n, Walk(s.r), key);
      NoneLess(Walk(s), key);
    }
  }

  lemma GreatestLeft(a: seq<Node>, n: Node, b: seq<Node>, key: real)
    requires a != [] && Sorted(a + [n] + b) && Below(a, key) && key <= n.key && Above(b, n.key)
    ensures var m, g := MapOf(a + [n] + b), a[|a| - 1]; IsGreatestLess(m, g.key, key) && m[g.key] == g.value
  {
    hide Sorted, Above, MapOf, IsGreatestLess;
    var a', g := a[..|a| - 1], a[|a| - 1];
    assert a == a' + [g];
    Assoc(a, n, b);
    NotLess(n, b, key);
    GreatestAround(a', g, [n] + b, key);
  }

  ghost predicate AtLeast(ns: seq<Node>, key: real) {
    forall i :: 0 <= i < |ns| ==> key <= ns[i].key
  }

  lemma NotLess(n: Node, b: seq<Node>, key: real)
    requires key <= n.key && Above(b, n.key)
    ensures AtLeast([n] + b, key)
  {
  }

  lemma AboveAtLeast(b: seq<Node>, key: real)
    requires Above(b, key)
    ensures AtLeast(b, key)
  {
  }

  lemma GreatestAround(a: seq<Node>, n: Node, b: seq<Node>, key: real)
    requires Sorted(a + [n] + b) && n.key < key && AtLeast(b, key)
    ensures var m := MapOf(a + [n] + b); IsGreatestLess(m, n.key, key) && m[n.key] == n.value
  {
    hide Sorted, MapOf, IsGreatestLess;
    var ns := a + [n] + b;
    assert ns[|a|] == n;
    forall j | |a| < j < |ns| ensures key <= ns[j].key { assert ns[j] == b[j - |a| - 1]; }
    GreatestAt(ns, |a|, key);
  }

  lemma Assoc(a: seq<Node>, n: Node, b: seq<Node>)
    ensures a + [n] + b == a + ([n] + b)
  {
  }

  lemma SortedInsert(a: seq<Node>, n: Node, b: seq<Node>)
    requires Sorted(a + b) && Below(a, n.key) && Above(b, n.key)
    ensures Sorted(a + [n] + b)
  {
    var ns := a + [n] + b;
    forall i, j | 0 <= i < j < |ns| ensures ns[i].key < ns[j].key {
      var i', j' := if i <= |a| then i else i - 1, if j <= |a| then j else j - 1;
      if i != |a| && j != |a| { assert ns[i] == (a + b)[i'] && ns[j] == (a + b)[j']; }
    }
  }

  // ----- the benchmark

  /** The map after one round of the benchmark: a fresh key comes, and the greatest smaller one, or else the key itself, goes. */
  ghost predicate Replaced(m: map<real, string>, key: real, value: string, m': map<real, string>) {
    key !in m &&
    if forall k :: k in m ==> key <= k then m' == m
    else exists k :: IsGreatestLess(m, k, key) && m' == m[key := value] - {k}
  }

  /** `k` is the first of the draws that the map does not have, and `rest` the draws after it. */
  ghost predicate FirstFresh(m: map<real, string>, draws: seq<real>, k: real, rest: seq<real>) {
    var used := |draws| - |rest|;
    used > 0 && rest == draws[used..] && draws[used - 1] == k && k !in m && forall d :: d in draws[..used - 1] ==> d in m
  }

  /** Draw keys until one is not in the tree and insert it; `None` when the draws do not last. */
  method InsertNewNode(tree: SplayTree, draws: seq<real>, payload: real -> string)
    returns (key: Option<real>, rest: seq<real>)
    requires tree.Valid()
    modifies tree, tree.nodes
    ensures tree.Valid() && fresh(tree.nodes - old(tree.nodes))
    ensures match key
      case None => tree.Contents() == old(tree.Contents()) && forall k :: k in draws ==> k in tree.Contents()
      case Some(k) => FirstFresh(old(tree.Contents()), draws, k, rest) && tree.Contents() == old(tree.Contents())[k := payload(k)]
  {
    rest := draws;
    while rest != []
      invariant |rest| <= |draws| && rest == draws[|draws| - |rest|..]
      invariant tree.Valid() && tree.nodes == old(tree.nodes) && tree.Contents() == old(tree.Contents())
      invariant forall d :: d in draws[..|draws| - |rest|] ==> d in tree.Contents()
      decreases |rest|
    {
      var d := rest[0];
      assert draws[..|draws| - |rest| + 1] == draws[..|draws| - |rest|] + [d];
      var node := tree.Find(d);
      rest := rest[1..];
      if node == null {
        tree.Insert(d, payload(d));
        return Some(d), rest;
      }
    }
    return None, rest;
  }

  ghost function Values(draws: seq<real>): set<real> {
    set d | d in draws
  }

  /** Drawing a key uses up one value at most of those that never were in the tree. */
  lemma ValuesLeft(m: map<real, string>, gone: set<real>, draws: seq<real>, k: real, rest: seq<real>)
    requires FirstFresh(m, draws, k, rest) && m.Keys <= gone
    ensures |Values(draws) - gone| <= |Values(rest) - (gone + {k})| + 1
  {
    var used := |draws| - |rest|;
    assert draws == draws[..used - 1] + [k] + rest;
    forall d | d in Values(draws) - gone ensures d in Values(rest) - (gone + {k}) + {k} {
      assert d !in m.Keys;
    }
    Smaller(Values(draws) - gone, Values(rest) - (gone + {k}) + {k});
  }

  lemma NoValuesLeft(m: map<real, string>, gone: set<real>, draws: seq<real>)
    requires m.Keys <= gone && forall k :: k in draws ==> k in m
    ensures |Values(draws) - gone| == 0
  {
    forall d | d in Values(draws) ensures d in gone { assert d in m.Keys; }
  }

  lemma Smaller(a: set<real>, b: set<real>)
    requires a <= b
    ensures |a| <= |b|
  {
    assert b == a + (b - a) && |a + (b - a)| == |a| + |b - a|;
  }

  method SplaySetup(draws: seq<real>, payload: real -> string, size: nat)
    returns (tree: SplayTree, ok: bool, rest: seq<real>, ghost gone: set<real>)
    ensures fresh(tree) && fresh(tree.nodes) && tree.Valid() && (ok ==> |tree.Contents()| == size)
    ensures forall k :: k in tree.Contents() ==> tree.Contents()[k] == payload(k)
    ensures !ok ==> |Values(draws)| < size
    ensures ok ==> tree.Contents().Keys <= gone && |Values(draws)| <= |Values(rest) - gone| + size
  {
    hide Walk, MapOf, Rep, Sorted, Nodes, FirstFresh, Values;
    tree := new SplayTree();
    EmptyContents(tree);
    rest, gone := draws, {};
    assert Values(draws) - gone == Values(draws);
    for i := 0 to size
      invariant fresh(tree) && fresh(tree.nodes) && tree.Valid() && |tree.Contents()| == i
      invariant forall k :: k in tree.Contents() ==> tree.Contents()[k] == payload(k)
      invariant tree.Contents().Keys <= gone && |Values(draws)| <= |Values(rest) - gone| + i
    {
      ghost var m, left := tree.Contents(), rest;
      var key;
      key, rest := InsertNewNode(tree, rest, payload);
      if key == None {
        NoValuesLeft(m, gone, left);
        return tree, false, rest, gone;
      }
      FreshKey(m, left, key.value, rest);
      ValuesLeft(m, gone, left, key.value, rest);
      gone := gone + {key.value};
    }
    return tree, true, rest, gone;
  }

  lemma EmptyContents(tree: SplayTree)
    requires tree.shape.Empty?
    ensures tree.Contents() == map[]
  {
  }

  lemma FreshKey(m: map<real, string>, draws: seq<real>, k: real, rest: seq<real>)
    requires FirstFresh(m, draws, k, rest)
    ensures k !in m
  {
  }

  /** One round: the tree keeps its size, its other entries and its order. */
  method ReplaceNode(tree: SplayTree, draws: seq<real>, payload: real -> string) returns (key: Option<real>, rest: seq<real>)
    requires tree.Valid()
    modifies tree, tree.nodes
    ensures tree.Valid() && fresh(tree.nodes - old(tree.nodes))
    ensures match key
      case None => tree.Contents() == old(tree.Contents()) && forall k :: k in draws ==> k in tree.Contents()
      case Some(k) => FirstFresh(old(tree.Contents()), draws, k, rest) && Replaced(old(tree.Contents()), k, payload(k), tree.Contents())
  {
    hide Walk, MapOf, Rep, Sorted, Nodes, IsGreatestLess, Replaced, FirstFresh;
    key, rest := InsertNewNode(tree, draws, payload);
    if key == None { return; }
    FreshKey(old(tree.Contents()), draws, key.value, rest);
    ghost var m, value := old(tree.Contents()), payload(key.value);
    var greatest := tree.FindGreatestLessThan(key.value);
    if greatest == null {
      ReplacedSelf(m, key.value, value, tree.Contents());
      var removed := tree.Remove(key.value);
    } else {
      ReplacedOther(m, key.value, value, greatest.key);
      var removed := tree.Remove(greatest.key);
    }
  }

  lemma ReplacedSelf(m: map<real, string>, key: real, value: string, m': map<real, string>)
    requires key !in m && m' == m[key := value] && forall k :: k in m' ==> key <= k
    ensures Replaced(m, key, value, m' - {key})
  {
    assert forall k :: k in m ==> k in m';
    assert m' - {key} == m;
  }

  lemma ReplacedOther(m: map<real, string>, key: real, value: string, k: real)
    requires key !in m && IsGreatestLess(m[key := value], k, key)
    ensures Replaced(m, key, value, m[key := value] - {k}) && k in m[key := value]
  {
    assert forall k :: k in m ==> k in m[key := value];
    assert IsGreatestLess(m, k, key);
  }

  lemma ReplacedSize(m: map<real, string>, key: real, value: string, m': map<real, string>)
    requires Replaced(m, key, value, m')
    ensures |m'| == |m|
  {
    if k :| IsGreatestLess(m, k, key) && m' == m[key := value] - {k} {
      assert m'.Keys == m.Keys + {key} - {k};
    }
  }

  ghost predicate Round(m: map<real, string>, payload: real -> string, m': map<real, string>) {
    exists key :: Replaced(m, key, payload(key), m')
  }

  /** The maps before and after each round of a run. */
  ghost predicate Rounds(ms: seq<map<real, string>>, payload: real -> string) {
    ms != [] && forall i :: 0 < i < |ms| ==> Round(ms[i - 1], payload, ms[i])
  }

  lemma ReplacedKeys(m: map<real, string>, key: real, value: string, m': map<real, string>)
    requires Replaced(m, key, value, m')
    ensures m'.Keys <= m.Keys + {key}
  {
  }

  lemma {:induction false} RoundsSize(ms: seq<map<real, string>>, payload: real -> string)
    requires Rounds(ms, payload)
    ensures |ms[|ms| - 1]| == |ms[0]|
  {
    if |ms| > 1 {
      var n := |ms| - 1;
      RoundsSize(ms[..n], payload);
      var key :| Replaced(ms[n - 1], key, payload(key), ms[n]);
      ReplacedSize(ms[n - 1], key, payload(key), ms[n]);
    }
  }

  /** The modifications, each one round; `gone` holds the keys that ever were in the tree. */
  method SplayRun(tree: SplayTree, draws: seq<real>, payload: real -> string, modifications: nat, ghost gone: set<real>)
    returns (ok: bool, ghost ms: seq<map<real, string>>)
    requires tree.Valid() && tree.Contents().Keys <= gone
    modifies tree, tree.nodes
    ensures tree.Valid() && fresh(tree.nodes - old(tree.nodes))
    ensures Rounds(ms, payload) && ms[0] == old(tree.Contents()) && ms[|ms| - 1] == tree.Contents()
    ensures |tree.Contents()| == |old(tree.Contents())|
    ensures if ok then |ms| == modifications + 1 else |Values(draws) - gone| < modifications
  {
    hide Walk, MapOf, Rep, Sorted, Nodes, Replaced, FirstFresh, Values;
    var rest := draws;
    ghost var gone' := gone;
    ms := [tree.Contents()];
    for i := 0 to modifications
      invariant tree.Valid() && fresh(tree.nodes - old(tree.nodes))
      invariant |ms| == i + 1 && Rounds(ms, payload) && ms[0] == old(tree.Contents()) && ms[i] == tree.Contents()
      invariant tree.Contents().Keys <= gone' && |Values(draws) - gone| <= |Values(rest) - gone'| + i
    {
      ghost var m, left := tree.Contents(), rest;
      var key;
      key, rest := ReplaceNode(tree, rest, payload);
      if key == None {
        NoValuesLeft(m, gone', left);
        RoundsSize(ms, payload);
        return false, ms;
      }
      ReplacedKeys(m, key.value, payload(key.value), tree.Contents());
      ValuesLeft(m, gone', left, key.value, rest);
      gone' := gone' + {key.value};
      assert Round(ms[i], payload, tree.Contents());
      ms := ms + [tree.Contents()];
    }
    RoundsSize(ms, payload);
    return true, ms;
  }

  /** The final test: the right number of keys, in strictly increasing order. */
  method SplayTearDown(tree: SplayTree, size: nat) returns (passed: bool)
    requires tree.Valid()
    ensures passed <==> |tree.Contents()| == size
  {
    var keys := tree.ExportKeys();
    if |keys| != size { return false; }
    var i := 0;
    while i < |keys| - 1
      invariant 0 <= i && Increasing(keys)
    {
      if keys[i] >= keys[i + 1] { return false; }
      i := i + 1;
    }
    return true;
  }

  /** Setup, run and final test: the draws last when they have enough different values, and then the test passes. */
  method RunSplay(draws: seq<real>, payload: real -> string, size: nat, modifications: nat) returns (passed: Option<bool>)
    ensures passed != Some(false)
    ensures size + modifications <= |Values(draws)| ==> passed == Some(true)
  {
    var tree, ok, rest, gone := SplaySetup(draws, payload, size);
    if !ok { return None; }
    ghost var ms;
    ok, ms := SplayRun(tree, rest, payload, modifications, gone);
    if !ok { return None; }
    var good := SplayTearDown(tree, size);
    return Some(good);
  }
}
