/** The heap of gps/utils/LocHeap.cpp. The trees it can hold are a datatype with one function for each
    recursive method of LocHeapNode; the classes at the end rewrite links in place and are proved to
    compute those functions. */
module LocHeap {
  import opened Wrappers

  /** LocRankable::outRanks, for elements that are told apart by identity. */
  type Ranking<!T> = (T, T) -> bool

  datatype Tree<T> = Empty | Node(size: int, left: Tree<T>, right: Tree<T>, data: T)

  /** The field mSize of the node at the root; a missing subtree counts for nothing. */
  function Size<T>(t: Tree<T>): int {
    if t.Empty? then 0 else t.size
  }

  function Pushed<T>(out: Ranking<T>, t: Tree<T>, x: T): Tree<T> {
    match t
    case Empty => Node(1, Empty, Empty, x)
    case Node(n, l, r, d) =>
      var top, low := if out(x, d) then x else d, if out(x, d) then d else x;
      if l.Empty? then Node(n + 1, Pushed(out, l, low), r, top)
      else if r.Empty? then Node(n + 1, l, Pushed(out, r, low), top)
      else if l.size <= r.size then Node(n + 1, Pushed(out, l, low), r, top)
      else Node(n + 1, l, Pushed(out, r, low), top)
  }

  /** Does the left subtree give its top to replace a popped root? */
  predicate TakesLeft<T>(out: Ranking<T>, t: Tree<T>)
    requires t.Node? && (t.left.Node? || t.right.Node?)
  {
    t.left.Node? && (t.right.Empty? || out(t.left.data, t.right.data))
  }

  /** What is left of a tree whose root has been popped. */
  function Popped<T>(out: Ranking<T>, t: Tree<T>): Tree<T>
    requires t.Node?
  {
    if t.left.Empty? && t.right.Empty? then Empty
    else if TakesLeft(out, t) then Node(t.size - 1, Popped(out, t.left), t.right, t.left.data)
    else Node(t.size - 1, t.left, Popped(out, t.right), t.right.data)
  }

  /** The tree after LocHeapNode::remove, and whether a node was removed. */
  function Removed<T(==)>(out: Ranking<T>, t: Tree<T>, x: T): (Tree<T>, bool) {
    match t
    case Empty => (t, false)
    case Node(n, l, r, d) =>
      if d == x then (Popped(out, t), true)
      else if out(x, d) then (t, false)
      else if Removed(out, l, x).1 then (Node(n - 1, Removed(out, l, x).0, r, d), true)
      else if Removed(out, r, x).1 then (Node(n - 1, l, Removed(out, r, x).0, d), true)
      else (t, false)
  }

  // ---------- What a heap is ----------

  ghost function Contents<T>(t: Tree<T>): multiset<T> {
    match t
    case Empty => multiset{}
    case Node(_, l, r, d) => multiset{d} + Contents(l) + Contents(r)
  }

  /** No child outranks its parent. */
  predicate Ordered<T>(out: Ranking<T>, t: Tree<T>) {
    t.Node? ==>
      && Ordered(out, t.left) && Ordered(out, t.right)
      && (t.left.Node? ==> !out(t.left.data, t.data))
      && (t.right.Node? ==> !out(t.right.data, t.data))
  }

  /** Every mSize counts the nodes below it and itself. */
  predicate SizesExact<T>(t: Tree<T>) {
    t.Node? ==> SizesExact(t.left) && SizesExact(t.right) && t.size == 1 + Size(t.left) + Size(t.right)
  }

  /** Ranks come from a total preorder: "not outranked by" is transitive and total. */
  ghost predicate Preorder<T(!new)>(out: Ranking<T>) {
    && (forall a, b :: out(a, b) ==> !out(b, a))
    && (forall a, b, c :: !out(a, b) && !out(b, c) ==> !out(a, c))
  }

  lemma {:induction false} SizeIsCount<T>(t: Tree<T>)
    requires SizesExact(t)
    ensures Size(t) == |Contents(t)|
  {
    if t.Node? {
      SizeIsCount(t.left);
      SizeIsCount(t.right);
    }
  }

  lemma Transitive<T(!new)>(out: Ranking<T>, a: T, b: T, c: T)
    requires Preorder(out) && !out(a, b) && !out(b, c)
    ensures !out(a, c)
  {
  }

  lemma Asymmetric<T(!new)>(out: Ranking<T>, a: T, b: T)
    requires Preorder(out) && out(a, b)
    ensures !out(b, a)
  {
  }

  /** Nothing in a heap outranks its root. */
  lemma {:induction false} NothingOutranksTop<T(!new)>(out: Ranking<T>, t: Tree<T>, y: T)
    requires Preorder(out) && Ordered(out, t) && y in Contents(t)
    ensures t.Node? && !out(y, t.data)
  {
    if y in Contents(t.left) {
      NothingOutranksTop(out, t.left, y);
      Transitive(out, y, t.left.data, t.data);
    } else if y in Contents(t.right) {
      NothingOutranksTop(out, t.right, y);
      Transitive(out, y, t.right.data, t.data);
    }
  }

  // ---------- Push ----------

  /** Which of the two subtrees the pushed or displaced element goes to. */
  predicate GoesLeft<T>(t: Tree<T>)
    requires t.Node?
  {
    t.left.Empty? || (t.right.Node? && t.left.size <= t.right.size)
  }

  lemma PushStep<T>(out: Ranking<T>, t: Tree<T>, x: T)
    requires t.Node?
    ensures var top, low := if out(x, t.data) then x else t.data, if out(x, t.data) then t.data else x;
      Pushed(out, t, x) == if GoesLeft(t) then Node(t.size + 1, Pushed(out, t.left, low), t.right, top)
                         else Node(t.size + 1, t.left, Pushed(out, t.right, low), top)
  {
  }

  /** A push makes the smaller subtree grow, and of two as large the left one. */
  lemma PushEvensOut<T>(out: Ranking<T>, t: Tree<T>, x: T)
    requires SizesExact(t) && t.Node?
    ensures var t' := Pushed(out, t, x);
      && t'.Node?
      && Size(t'.left) == Size(t.left) + (if Size(t.left) <= Size(t.right) then 1 else 0)
      && Size(t'.right) == Size(t.right) + (if Size(t.left) <= Size(t.right) then 0 else 1)
  {
    PushStep(out, t, x);
    SizeIsCount(t.left);
    SizeIsCount(t.right);
    PushSizes(out, t.left, if out(x, t.data) then t.data else x);
    PushSizes(out, t.right, if out(x, t.data) then t.data else x);
    hide Pushed;
  }

  lemma PushTop<T>(out: Ranking<T>, t: Tree<T>, x: T)
    ensures Pushed(out, t, x).Node?
    ensures Pushed(out, t, x).data == if t.Node? && !out(x, t.data) then t.data else x
  {
  }

  lemma Regroup<T>(top: multiset<T>, low: multiset<T>, d: multiset<T>, x: multiset<T>,
                   sub: multiset<T>, other: multiset<T>)
    requires top + low == d + x
    ensures top + (sub + low) + other == (d + sub + other) + x
    ensures top + other + (sub + low) == (d + other + sub) + x
  {
    assert top + (sub + low) + other == (top + low) + (sub + other);
    assert (d + x) + (sub + other) == (d + sub + other) + x;
    assert top + other + (sub + low) == (top + low) + (sub + other);
    assert (d + x) + (sub + other) == (d + other + sub) + x;
  }

  lemma {:induction false} PushContents<T>(out: Ranking<T>, t: Tree<T>, x: T)
    ensures Contents(Pushed(out, t, x)) == Contents(t) + multiset{x}
  {
    if t.Node? {
      var top, low := if out(x, t.data) then x else t.data, if out(x, t.data) then t.data else x;
      PushStep(out, t, x);
      hide Pushed, GoesLeft;
      Regroup(multiset{top}, multiset{low}, multiset{t.data}, multiset{x},
              Contents(if GoesLeft(t) then t.left else t.right), Contents(if GoesLeft(t) then t.right else t.left));
      PushContents(out, if GoesLeft(t) then t.left else t.right, low);
    }
  }

  lemma {:induction false} PushSizes<T>(out: Ranking<T>, t: Tree<T>, x: T)
    requires SizesExact(t)
    ensures SizesExact(Pushed(out, t, x)) && Size(Pushed(out, t, x)) == Size(t) + 1
  {
    if t.Node? {
      var low := if out(x, t.data) then t.data else x;
      PushStep(out, t, x);
      PushSizes(out, if GoesLeft(t) then t.left else t.right, low);
    }
  }

  lemma {:induction false} PushKeepsOrder<T(!new)>(out: Ranking<T>, t: Tree<T>, x: T)
    requires Preorder(out) && Ordered(out, t)
    ensures Ordered(out, Pushed(out, t, x))
  {
    hide Preorder;
    if t.Node? {
      var top, low := if out(x, t.data) then x else t.data, if out(x, t.data) then t.data else x;
      var sub, other := if GoesLeft(t) then t.left else t.right, if GoesLeft(t) then t.right else t.left;
      PushStep(out, t, x);
      PushKeepsOrder(out, sub, low);
      PushTop(out, sub, low);
      if out(x, t.data) {
        Asymmetric(out, x, t.data);
        RaisedTop(out, sub, t.data, x);
        RaisedTop(out, other, t.data, x);
      }
    }
  }

  /** A subtree that fits below `d` fits below anything that outranks `d`. */
  lemma RaisedTop<T(!new)>(out: Ranking<T>, sub: Tree<T>, d: T, top: T)
    requires Preorder(out) && out(top, d)
    requires sub.Node? ==> !out(sub.data, d)
    ensures sub.Node? ==> !out(sub.data, top)
  {
    if sub.Node? {
      Asymmetric(out, top, d);
      Transitive(out, sub.data, d, top);
    }
  }

  // ---------- Pop ----------

  lemma PopStep<T>(out: Ranking<T>, t: Tree<T>)
    requires t.Node? && (t.left.Node? || t.right.Node?)
    ensures Popped(out, t) ==
      if TakesLeft(out, t) then Node(t.size - 1, Popped(out, t.left), t.right, t.left.data)
      else Node(t.size - 1, t.left, Popped(out, t.right), t.right.data)
  {
  }

  /** The next top is the higher-ranked child, and of two that rank alike the right one. */
  lemma NextTop<T>(out: Ranking<T>, t: Tree<T>)
    requires t.Node?
    ensures Popped(out, t).Empty? <==> t.left.Empty? && t.right.Empty?
    ensures t.left.Node? && t.right.Node? ==>
      Popped(out, t).data == if out(t.left.data, t.right.data) then t.left.data else t.right.data
  {
    if t.left.Node? || t.right.Node? {
      PopStep(out, t);
    }
  }

  /** The popped data of a subtree comes back as the new top. */
  lemma Lifted<T>(rest: multiset<T>, up: multiset<T>, sub: multiset<T>, other: multiset<T>, top: multiset<T>)
    requires rest + up == sub
    ensures (up + rest + other) + top == top + sub + other
    ensures (up + other + rest) + top == top + other + sub
  {
  }

  lemma {:induction false} PopContents<T>(out: Ranking<T>, t: Tree<T>)
    requires t.Node?
    ensures Contents(Popped(out, t)) + multiset{t.data} == Contents(t)
  {
    if t.left.Node? || t.right.Node? {
      PopStep(out, t);
      var left := TakesLeft(out, t);
      var sub, other := if left then t.left else t.right, if left then t.right else t.left;
      hide Popped, TakesLeft;
      PopContents(out, sub);
      Lifted(Contents(Popped(out, sub)), multiset{sub.data}, Contents(sub), Contents(other), multiset{t.data});
    }
  }

  lemma {:induction false} PopSizes<T>(out: Ranking<T>, t: Tree<T>)
    requires t.Node? && SizesExact(t)
    ensures SizesExact(Popped(out, t)) && Size(Popped(out, t)) == Size(t) - 1
  {
    SizeIsCount(t.left);
    SizeIsCount(t.right);
    if t.left.Node? || t.right.Node? {
      PopSizes(out, if TakesLeft(out, t) then t.left else t.right);
    }
  }

  lemma {:induction false} PopKeepsOrder<T(!new)>(out: Ranking<T>, t: Tree<T>)
    requires Preorder(out) && t.Node? && Ordered(out, t)
    ensures Ordered(out, Popped(out, t))
    ensures Popped(out, t).Node? ==> !out(Popped(out, t).data, t.data)
  {
    hide Preorder;
    if t.left.Node? || t.right.Node? {
      var sub, other := if TakesLeft(out, t) then t.left else t.right, if TakesLeft(out, t) then t.right else t.left;
      PopKeepsOrder(out, sub);
      if TakesLeft(out, t) && other.Node? {
        Asymmetric(out, sub.data, other.data);
      }
    }
  }

  // ---------- Remove ----------

  /** Whatever the order, remove takes out the element it was given or leaves the tree alone. */
  lemma {:induction false} RemoveContents<T>(out: Ranking<T>, t: Tree<T>, x: T)
    ensures Removed(out, t, x).1 ==> Contents(Removed(out, t, x).0) + multiset{x} == Contents(t)
    ensures !Removed(out, t, x).1 ==> Removed(out, t, x).0 == t
  {
    if t.Node? {
      if t.data == x {
        PopContents(out, t);
      } else if !out(x, t.data) {
        RemoveContents(out, t.left, x);
        RemoveContents(out, t.right, x);
        if Removed(out, t, x).1 {
          RemoveBelow(out, t, x);
        }
      }
    }
  }

  lemma RemoveBelow<T>(out: Ranking<T>, t: Tree<T>, x: T)
    requires t.Node? && t.data != x && !out(x, t.data) && Removed(out, t, x).1
    requires Removed(out, t.left, x).1 ==> Contents(Removed(out, t.left, x).0) + multiset{x} == Contents(t.left)
    requires Removed(out, t.right, x).1 ==> Contents(Removed(out, t.right, x).0) + multiset{x} == Contents(t.right)
    ensures Contents(Removed(out, t, x).0) + multiset{x} == Contents(t)
  {
    var c, l, r := multiset{t.data}, Contents(t.left), Contents(t.right);
    if Removed(out, t.left, x).1 {
      var l' := Removed(out, t.left, x).0;
      assert Contents(Removed(out, t, x).0) == c + Contents(l') + r;
      assert c + (Contents(l') + multiset{x}) + r == (c + Contents(l') + r) + multiset{x};
    } else {
      var r' := Removed(out, t.right, x).0;
      assert Contents(Removed(out, t, x).0) == c + l + Contents(r');
      assert c + l + (Contents(r') + multiset{x}) == (c + l + Contents(r')) + multiset{x};
    }
  }

  lemma {:induction false} RemoveSizes<T>(out: Ranking<T>, t: Tree<T>, x: T)
    requires SizesExact(t)
    ensures SizesExact(Removed(out, t, x).0)
    ensures Size(Removed(out, t, x).0) == Size(t) - if Removed(out, t, x).1 then 1 else 0
  {
    if t.Node? {
      PopSizes(out, t);
      RemoveSizes(out, t.left, x);
      RemoveSizes(out, t.right, x);
    }
  }

  /** In a heap the search prunes no subtree that holds the element: it is removed whenever present. */
  lemma {:induction false} RemoveFindsIt<T(!new)>(out: Ranking<T>, t: Tree<T>, x: T)
    requires Preorder(out) && Ordered(out, t)
    ensures Removed(out, t, x).1 <==> x in Contents(t)
  {
    hide Preorder;
    RemoveContents(out, t, x);
    if t.Node? && x in Contents(t) {
      NothingOutranksTop(out, t, x);
      RemoveFindsIt(out, t.left, x);
      RemoveFindsIt(out, t.right, x);
    }
  }

  lemma {:induction false} RemoveKeepsOrder<T(!new)>(out: Ranking<T>, t: Tree<T>, x: T)
    requires Preorder(out) && Ordered(out, t)
    ensures Ordered(out, Removed(out, t, x).0)
    ensures t.Node? && Removed(out, t, x).0.Node? ==> !out(Removed(out, t, x).0.data, t.data)
    decreases t, 0
  {
    hide Preorder;
    if t.Node? {
      Irreflexive(out, t.data);
      PopKeepsOrder(out, t);
      RemoveKeepsOrderBelow(out, t.left, x, t.data);
      RemoveKeepsOrderBelow(out, t.right, x, t.data);
    }
  }

  lemma Irreflexive<T(!new)>(out: Ranking<T>, a: T)
    requires Preorder(out)
    ensures !out(a, a)
  {
  }

  /** The subtree still fits below `d` after a removal from it. */
  lemma {:induction false} RemoveKeepsOrderBelow<T(!new)>(out: Ranking<T>, t: Tree<T>, x: T, d: T)
    requires Preorder(out) && Ordered(out, t) && (t.Node? ==> !out(t.data, d))
    ensures Ordered(out, Removed(out, t, x).0)
    ensures Removed(out, t, x).0.Node? ==> !out(Removed(out, t, x).0.data, d)
    decreases t, 1
  {
    hide Preorder;
    if t.Node? {
      RemoveKeepsOrder(out, t, x);
      if Removed(out, t, x).0.Node? {
        Transitive(out, Removed(out, t, x).0.data, t.data, d);
      }
    }
  }

  /** The top changes only when it is itself the removed element. */
  lemma RemoveKeepsTop<T(!new)>(out: Ranking<T>, t: Tree<T>, x: T)
    requires t.Node? && t.data != x
    ensures Removed(out, t, x).0.Node? && Removed(out, t, x).0.data == t.data
  {
  }

  // ---------- Whole runs: a heap is a bag with a highest rank ----------

  datatype Op<T> = PushOp(x: T) | PopOp | RemoveOp(x: T)

  /** LocHeap's public methods: the new tree and the returned element, if any. */
  function Apply<T(==)>(out: Ranking<T>, t: Tree<T>, op: Op<T>): (Tree<T>, Option<T>) {
    match op
    case PushOp(x) => (Pushed(out, t, x), None)
    case PopOp => if t.Empty? then (t, None) else (Popped(out, t), Some(t.data))
    case RemoveOp(x) => var (t', found) := Removed(out, t, x); (t', if found then Some(x) else None)
  }

  function Run<T(==)>(out: Ranking<T>, t: Tree<T>, ops: seq<Op<T>>): (r: (Tree<T>, seq<Option<T>>))
    ensures |r.1| == |ops|
    decreases |ops|
  {
    if ops == [] then (t, [])
    else
      var (t', result) := Apply(out, t, ops[0]);
      var (t'', results) := Run(out, t', ops[1..]);
      (t'', [result] + results)
  }

  // What a user may rely on, said without trees: a bag that gives out an element of highest rank.

  ghost predicate Allowed<T>(out: Ranking<T>, bag: multiset<T>, op: Op<T>, result: Option<T>) {
    match op
    case PushOp(x) => result == None
    case RemoveOp(x) => result == if x in bag then Some(x) else None
    case PopOp =>
      if bag == multiset{} then result == None
      else result.Some? && result.value in bag && forall y :: y in bag ==> !out(y, result.value)
  }

  ghost function BagAfter<T>(bag: multiset<T>, op: Op<T>, result: Option<T>): multiset<T> {
    match op
    case PushOp(x) => bag + multiset{x}
    case _ => if result.Some? then bag - multiset{result.value} else bag
  }

  /** `results` are what such a bag may return for `ops`, and `after` is the bag then. */
  ghost predicate Legal<T>(out: Ranking<T>, bag: multiset<T>, ops: seq<Op<T>>, results: seq<Option<T>>,
                           after: multiset<T>)
    requires |ops| == |results|
    decreases |ops|
  {
    if ops == [] then after == bag
    else
      && Allowed(out, bag, ops[0], results[0])
      && Legal(out, BagAfter(bag, ops[0], results[0]), ops[1..], results[1..], after)
  }

  lemma ApplyKeepsHeap<T(!new)>(out: Ranking<T>, t: Tree<T>, op: Op<T>)
    requires Preorder(out) && Ordered(out, t) && SizesExact(t)
    ensures Ordered(out, Apply(out, t, op).0) && SizesExact(Apply(out, t, op).0)
  {
    hide Preorder, Ordered, SizesExact, Pushed, Removed, Popped;
    match op
    case PushOp(x) => PushKeepsOrder(out, t, x); PushSizes(out, t, x);
    case PopOp => if t.Node? { PopKeepsOrder(out, t); PopSizes(out, t); }
    case RemoveOp(x) => RemoveKeepsOrder(out, t, x); RemoveSizes(out, t, x);
  }

  lemma TakenOut<T>(rest: multiset<T>, all: multiset<T>, x: T)
    requires rest + multiset{x} == all
    ensures x in all && rest == all - multiset{x}
  {
  }

  /** One operation on a heap does to its contents, and returns, what it would on the bag. */
  lemma ApplyIsLegal<T(!new)>(out: Ranking<T>, t: Tree<T>, op: Op<T>)
    requires Preorder(out) && Ordered(out, t)
    ensures Allowed(out, Contents(t), op, Apply(out, t, op).1)
    ensures Contents(Apply(out, t, op).0) == BagAfter(Contents(t), op, Apply(out, t, op).1)
  {
    hide Preorder, Ordered, Pushed, Popped, Removed;
    match op
    case PushOp(x) =>
      PushContents(out, t, x);
    case RemoveOp(x) =>
      RemoveContents(out, t, x);
      RemoveFindsIt(out, t, x);
      if x in Contents(t) {
        TakenOut(Contents(Removed(out, t, x).0), Contents(t), x);
      }
    case PopOp =>
      PopIsLegal(out, t);
  }

  lemma PopIsLegal<T(!new)>(out: Ranking<T>, t: Tree<T>)
    requires Preorder(out) && Ordered(out, t)
    ensures Allowed(out, Contents(t), PopOp, Apply(out, t, PopOp).1)
    ensures Contents(Apply(out, t, PopOp).0) == BagAfter(Contents(t), PopOp, Apply(out, t, PopOp).1)
  {
    hide Preorder, Ordered, Popped;
    if t.Node? {
      PopContents(out, t);
      TopIsAllowed(out, t);
      hide Contents;
      TakenOut(Contents(Popped(out, t)), Contents(t), t.data);
    }
  }

  lemma TopIsAllowed<T(!new)>(out: Ranking<T>, t: Tree<T>)
    requires Preorder(out) && Ordered(out, t) && t.Node?
    ensures forall y :: y in Contents(t) ==> !out(y, t.data)
  {
    forall y | y in Contents(t) ensures !out(y, t.data) {
      NothingOutranksTop(out, t, y);
    }
  }

  /** Every run of pushes, pops and removals on a heap behaves as on the bag, and ends in a heap. */
  lemma {:induction false} RunIsLegal<T(!new)>(out: Ranking<T>, t: Tree<T>, ops: seq<Op<T>>)
    requires Preorder(out) && Ordered(out, t) && SizesExact(t)
    ensures Ordered(out, Run(out, t, ops).0) && SizesExact(Run(out, t, ops).0)
    ensures Legal(out, Contents(t), ops, Run(out, t, ops).1, Contents(Run(out, t, ops).0))
    decreases |ops|
  {
    if ops != [] {
      hide Preorder, Ordered, SizesExact, Allowed, BagAfter, Apply, Contents;
      var t1 := Apply(out, t, ops[0]).0;
      ApplyKeepsHeap(out, t, ops[0]);
      ApplyIsLegal(out, t, ops[0]);
      RunIsLegal(out, t1, ops[1..]);
      assert Run(out, t, ops).1[1..] == Run(out, t1, ops[1..]).1;
    }
  }

  // ---------- Balance ----------

  /** Sibling subtrees differ in size by at most one, and the left one is never the smaller. */
  predicate Balanced<T>(t: Tree<T>) {
    t.Node? ==> Balanced(t.left) && Balanced(t.right) && 0 <= Size(t.left) - Size(t.right) <= 1
  }

  function Height<T>(t: Tree<T>): nat {
    if t.Empty? then 0
    else 1 + if Height(t.left) > Height(t.right) then Height(t.left) else Height(t.right)
  }

  function Pow2(n: nat): nat {
    if n == 0 then 1 else 2 * Pow2(n - 1)
  }

  lemma {:induction false} PushKeepsBalance<T(!new)>(out: Ranking<T>, t: Tree<T>, x: T)
    requires SizesExact(t) && Balanced(t)
    ensures Balanced(Pushed(out, t, x))
  {
    if t.Node? {
      SizeIsCount(t.left);
      SizeIsCount(t.right);
      var low := if out(x, t.data) then t.data else x;
      PushStep(out, t, x);
      PushKeepsBalance(out, if GoesLeft(t) then t.left else t.right, low);
      PushSizes(out, if GoesLeft(t) then t.left else t.right, low);
    }
  }

  lemma {:induction false} BalancedIsShallow<T>(t: Tree<T>)
    requires SizesExact(t) && Balanced(t) && t.Node?
    ensures Pow2(Height(t) - 1) <= Size(t)
  {
    SizeIsNatural(t.left);
    SizeIsNatural(t.right);
    hide Pow2;
    var taller := if Height(t.left) > Height(t.right) then t.left else t.right;
    if taller.Node? {
      BalancedIsShallow(taller);
      assert 2 * Size(taller) <= Size(t) && Height(t) == 1 + Height(taller);
      hide Height, Balanced, SizesExact;
      Doubled(Height(taller), Size(taller), Size(t));
    } else {
      assert Height(t) == 1;
      Doubled(0, 0, 0);
    }
  }

  lemma SizeIsNatural<T>(t: Tree<T>)
    requires SizesExact(t)
    ensures Size(t) >= 0
  {
    SizeIsCount(t);
  }

  lemma Doubled(h: nat, m: int, n: int)
    ensures Pow2(0) == 1
    ensures 1 <= h && Pow2(h - 1) <= m && 2 * m <= n ==> Pow2(h) <= n
  {
  }

  function PushAll<T>(out: Ranking<T>, xs: seq<T>): Tree<T> {
    if xs == [] then Empty else Pushed(out, PushAll(out, xs[..|xs| - 1]), xs[|xs| - 1])
  }

  /** A heap of n > 0 elements built by pushes alone has a height h with 2^(h-1) <= n. */
  lemma {:induction false} PushesStayShallow<T(!new)>(out: Ranking<T>, xs: seq<T>)
    ensures SizesExact(PushAll(out, xs)) && Balanced(PushAll(out, xs)) && Size(PushAll(out, xs)) == |xs|
    ensures xs != [] ==> Pow2(Height(PushAll(out, xs)) - 1) <= |xs|
  {
    if xs != [] {
      PushesStayShallow(out, xs[..|xs| - 1]);
      PushSizes(out, PushAll(out, xs[..|xs| - 1]), xs[|xs| - 1]);
      PushKeepsBalance(out, PushAll(out, xs[..|xs| - 1]), xs[|xs| - 1]);
      BalancedIsShallow(PushAll(out, xs));
    }
  }

  // ---------- The linked structure ----------

  /** A node rewrites its own links; Model is the tree it heads and Repr the nodes of that tree. */
  class LocHeapNode<T(==)> {
    var mSize: int
    var mLeft: LocHeapNode?<T>
    var mRight: LocHeapNode?<T>
    var mData: T
    ghost var Model: Tree<T>
    ghost var Repr: set<object>

    ghost predicate Valid()
      reads this, Repr
      ensures Valid() ==> this in Repr
      decreases Repr
    {
      && this in Repr
      && (mLeft != null ==> mLeft in Repr && mLeft.Repr <= Repr && this !in mLeft.Repr && mLeft.Valid())
      && (mRight != null ==> mRight in Repr && mRight.Repr <= Repr && this !in mRight.Repr && mRight.Valid())
      && (mLeft != null && mRight != null ==> mLeft.Repr !! mRight.Repr)
      && Model == Node(mSize, ModelOf(mLeft), ModelOf(mRight), mData)
    }

    constructor (data: T)
      ensures Valid() && fresh(Repr) && Repr == {this}
      ensures Model == Node(1, Empty, Empty, data)
    {
      mSize, mLeft, mRight, mData := 1, null, null, data;
      Model, Repr := Node(1, Empty, Empty, data), {this};
    }

    /** A node that may be deleted without taking others with it. */
    predicate IsLeaf()
      reads this
    {
      mLeft == null && mRight == null
    }

    /** Exchanges data only; neither node's links change. */
    method Swap(node: LocHeapNode<T>)
      modifies this`mData, node`mData
      ensures mData == old(node.mData) && node.mData == old(mData)
    {
      var tmpData := node.mData;
      node.mData := mData;
      mData := tmpData;
    }

    /** Swap with a node of another tree, or with the top of a subtree, whose model follows its data. */
    method SwapModel(node: LocHeapNode<T>)
      requires this !in node.Repr && node.Valid()
      modifies this`mData, node`mData, node`Model
      ensures mData == old(node.mData) && node.mData == old(mData)
      ensures node.Valid() && node.Model == old(node.Model).(data := old(mData))
    {
      Swap(node);
      node.Model := node.Model.(data := node.mData);
    }

    method Push(out: Ranking<T>, node: LocHeapNode<T>)
      requires Valid() && node.Valid() && Repr !! node.Repr
      requires node.Model == Node(1, Empty, Empty, node.mData)
      modifies Repr, node.Repr
      ensures Valid() && Repr == old(Repr + node.Repr)
      ensures Model == Pushed(out, old(Model), old(node.mData))
      decreases Repr, 1
    {
      PushStep(out, Model, node.mData);
      if out(node.mData, mData) {
        SwapModel(node);
        Model := Model.(data := mData);
      }
      Drop(out, node);
    }

    /** Drops a node that ranks no higher than this one into the smaller subtree. */
    method Drop(out: Ranking<T>, node: LocHeapNode<T>)
      requires Valid() && node.Valid() && Repr !! node.Repr
      requires node.Model == Node(1, Empty, Empty, node.mData)
      modifies Repr, node.Repr
      ensures Valid() && Repr == old(Repr + node.Repr)
      ensures Model == if GoesLeft(old(Model))
        then old(Model).(size := old(mSize) + 1, left := Pushed(out, old(Model.left), old(node.mData)))
        else old(Model).(size := old(mSize) + 1, right := Pushed(out, old(Model.right), old(node.mData)))
      decreases Repr, 0
    {
      ghost var added := node.Repr;
      if mLeft == null {
        mLeft := node;
      } else if mRight == null {
        mRight := node;
      } else if mLeft.mSize <= mRight.mSize {
        mLeft.Push(out, node);
      } else {
        mRight.Push(out, node);
      }
      mSize := mSize + 1;
      Repr := Repr + added;
      Model := Node(mSize, ModelOf(mLeft), ModelOf(mRight), mData);
    }

    /** Pops the data at `top`; `rest` is what the caller's link to `top` becomes. */
    static method Pop(out: Ranking<T>, top: LocHeapNode<T>) returns (rest: LocHeapNode?<T>, popped: LocHeapNode<T>)
      requires top.Valid()
      modifies top.Repr
      ensures popped in old(top.Repr) && popped.mData == old(top.mData) && popped.IsLeaf()
      ensures rest == null || rest == top
      ensures rest != null ==> rest.Valid() && rest.Repr == old(top.Repr) - {popped}
      ensures ModelOf(rest) == Popped(out, old(top.Model))
      decreases top.Repr, 2
    {
      top.mSize := top.mSize - 1;
      top.Model := top.Model.(size := top.mSize);
      if top.mLeft != null || top.mRight != null {
        if top.mLeft != null && (top.mRight == null || out(top.mLeft.mData, top.mRight.mData)) {
          popped := top.PopLeft(out);
        } else {
          popped := top.PopRight(out);
        }
        rest := top;
      } else {
        rest, popped := null, top;
      }
    }

    /** The root's data goes down the left subtree and out; the top of that subtree replaces it. */
    method PopLeft(out: Ranking<T>) returns (popped: LocHeapNode<T>)
      requires Valid() && mLeft != null && Model.left.Node?
      modifies Repr
      ensures popped in old(Repr) && popped.mData == old(mData) && popped.IsLeaf()
      ensures Valid() && Repr == old(Repr) - {popped}
      ensures Model == old(Model).(left := Popped(out, old(Model.left)), data := old(Model.left.data))
      decreases Repr, 1
    {
      PoppedIgnoresTop(out, mLeft.Model, mData);
      hide Popped;
      SwapModel(mLeft);
      Model := Model.(data := mData, left := mLeft.Model);
      popped := TakeLeft(out);
    }

    method TakeLeft(out: Ranking<T>) returns (popped: LocHeapNode<T>)
      requires Valid() && mLeft != null && Model.left.Node?
      modifies Repr
      ensures popped in old(Repr) && popped.mData == old(mLeft.mData) && popped.IsLeaf()
      ensures Valid() && Repr == old(Repr) - {popped}
      ensures Model == old(Model).(left := Popped(out, old(Model.left)))
      decreases Repr, 0
    {
      hide Popped;
      var sub;
      sub, popped := Pop(out, mLeft);
      mLeft := sub;
      Repr := Repr - {popped};
      Model := Node(mSize, ModelOf(mLeft), ModelOf(mRight), mData);
    }

    method PopRight(out: Ranking<T>) returns (popped: LocHeapNode<T>)
      requires Valid() && mRight != null && Model.right.Node?
      modifies Repr
      ensures popped in old(Repr) && popped.mData == old(mData) && popped.IsLeaf()
      ensures Valid() && Repr == old(Repr) - {popped}
      ensures Model == old(Model).(right := Popped(out, old(Model.right)), data := old(Model.right.data))
      decreases Repr, 1
    {
      PoppedIgnoresTop(out, mRight.Model, mData);
      hide Popped;
      SwapModel(mRight);
      Model := Model.(data := mData, right := mRight.Model);
      popped := TakeRight(out);
    }

    method TakeRight(out: Ranking<T>) returns (popped: LocHeapNode<T>)
      requires Valid() && mRight != null && Model.right.Node?
      modifies Repr
      ensures popped in old(Repr) && popped.mData == old(mRight.mData) && popped.IsLeaf()
      ensures Valid() && Repr == old(Repr) - {popped}
      ensures Model == old(Model).(right := Popped(out, old(Model.right)))
      decreases Repr, 0
    {
      hide Popped;
      var sub;
      sub, popped := Pop(out, mRight);
      mRight := sub;
      Repr := Repr - {popped};
      Model := Node(mSize, ModelOf(mLeft), ModelOf(mRight), mData);
    }

    /** Removes the node holding `data`, if the search finds one; null stands for failure. */
    static method Remove(out: Ranking<T>, top: LocHeapNode<T>, data: T)
        returns (rest: LocHeapNode?<T>, removed: LocHeapNode?<T>)
      requires top.Valid()
      modifies top.Repr
      ensures removed != null ==> removed in old(top.Repr) && removed.mData == data && removed.IsLeaf()
      ensures rest == null || rest == top
      ensures rest != null ==> rest.Valid() && rest.Repr == old(top.Repr) - {removed}
      ensures (ModelOf(rest), removed != null) == Removed(out, old(top.Model), data)
      decreases top.Repr, 1
    {
      RemovedStep(out, top.Model, data);
      FailedSearch(out, top.Model.left, data);
      FailedSearch(out, top.Model.right, data);
      hide Removed;
      rest, removed := top, null;
      if data == top.mData {
        rest, removed := Pop(out, top);
      } else if !out(data, top.mData) {
        if top.mLeft != null {
          removed := top.RemoveLeft(out, data);
        }
        if removed == null && top.mRight != null {
          removed := top.RemoveRight(out, data);
        }
        if removed != null {
          top.mSize := top.mSize - 1;
          top.Model := top.Model.(size := top.mSize);
        }
      }
    }

    method RemoveLeft(out: Ranking<T>, data: T) returns (removed: LocHeapNode?<T>)
      requires Valid() && mLeft != null
      modifies Repr
      ensures removed != null ==> removed in old(Repr) && removed.mData == data && removed.IsLeaf()
      ensures Valid() && Repr == old(Repr) - {removed} && mRight == old(mRight)
      ensures Model == old(Model).(left := Removed(out, old(Model.left), data).0)
      ensures removed != null <==> Removed(out, old(Model.left), data).1
      decreases Repr, 0
    {
      hide Removed;
      var sub;
      sub, removed := Remove(out, mLeft, data);
      mLeft := sub;
      Repr := Repr - {removed};
      Model := Node(mSize, ModelOf(mLeft), ModelOf(mRight), mData);
    }

    method RemoveRight(out: Ranking<T>, data: T) returns (removed: LocHeapNode?<T>)
      requires Valid() && mRight != null
      modifies Repr
      ensures removed != null ==> removed in old(Repr) && removed.mData == data && removed.IsLeaf()
      ensures Valid() && Repr == old(Repr) - {removed}
      ensures Model == old(Model).(right := Removed(out, old(Model.right), data).0)
      ensures removed != null <==> Removed(out, old(Model.right), data).1
      decreases Repr, 0
    {
      hide Removed;
      var sub;
      sub, removed := Remove(out, mRight, data);
      mRight := sub;
      Repr := Repr - {removed};
      Model := Node(mSize, ModelOf(mLeft), ModelOf(mRight), mData);
    }

    /** Is mSize right in every node, and does no child outrank its parent? */
    method CheckNodes(out: Ranking<T>) returns (ok: bool)
      requires Valid()
      ensures ok <==> Ordered(out, Model) && SizesExact(Model)
      decreases Repr
    {
      NodeChecks(out, mSize, ModelOf(mLeft), ModelOf(mRight), mData);
      hide Ordered, SizesExact;
      var totalSize := mSize;
      if mLeft != null {
        assert mLeft.Model.data == mLeft.mData && mLeft.Model.size == mLeft.mSize;
        if out(mLeft.mData, mData) {
          return false;
        }
        var leftOk := mLeft.CheckNodes(out);
        if !leftOk {
          return false;
        }
        totalSize := totalSize - mLeft.mSize;
      }
      if mRight != null {
        assert mRight.Model.data == mRight.mData && mRight.Model.size == mRight.mSize;
        if out(mRight.mData, mData) {
          return false;
        }
        var rightOk := mRight.CheckNodes(out);
        if !rightOk {
          return false;
        }
        totalSize := totalSize - mRight.mSize;
      }
      return totalSize == 1;
    }
  }

  /** What checkNodes tests at one node, the subtrees having been checked before. */
  lemma NodeChecks<T>(out: Ranking<T>, n: int, l: Tree<T>, r: Tree<T>, d: T)
    ensures Ordered(out, Node(n, l, r, d)) <==>
      Ordered(out, l) && Ordered(out, r) && (l.Node? ==> !out(l.data, d)) && (r.Node? ==> !out(r.data, d))
    ensures SizesExact(Node(n, l, r, d)) <==> SizesExact(l) && SizesExact(r) && n == 1 + Size(l) + Size(r)
    ensures Ordered(out, Empty) && SizesExact<T>(Empty)
  {
  }

  /** One turn of the recursive search: the root, or the left subtree first. */
  lemma RemovedStep<T>(out: Ranking<T>, t: Tree<T>, x: T)
    requires t.Node?
    ensures t.data == x ==> Removed(out, t, x) == (Popped(out, t), true)
    ensures t.data != x && out(x, t.data) ==> Removed(out, t, x) == (t, false)
    ensures t.data != x && !out(x, t.data) && Removed(out, t.left, x).1 ==>
      Removed(out, t, x) == (Node(t.size - 1, Removed(out, t.left, x).0, t.right, t.data), true)
    ensures t.data != x && !out(x, t.data) && !Removed(out, t.left, x).1 && Removed(out, t.right, x).1 ==>
      Removed(out, t, x) == (Node(t.size - 1, t.left, Removed(out, t.right, x).0, t.data), true)
    ensures t.data != x && !out(x, t.data) && !Removed(out, t.left, x).1 && !Removed(out, t.right, x).1 ==>
      Removed(out, t, x) == (t, false)
  {
  }

  /** A search that fails leaves each subtree alone, and fails in one that is not there. */
  lemma FailedSearch<T>(out: Ranking<T>, t: Tree<T>, x: T)
    ensures !Removed(out, t, x).1 ==> Removed(out, t, x).0 == t
    ensures t.Empty? ==> !Removed(out, t, x).1
  {
    RemoveContents(out, t, x);
  }

  /** The data popped down a subtree on its way out leaves no trace in it. */
  lemma PoppedIgnoresTop<T>(out: Ranking<T>, t: Tree<T>, data: T)
    requires t.Node?
    ensures Popped(out, t.(data := data)) == Popped(out, t)
  {
  }

  ghost function ModelOf<T>(node: LocHeapNode?<T>): Tree<T>
    reads node
  {
    if node == null then Empty else node.Model
  }

  /** A heap hands out references; the clients' elements themselves are theirs to create and destroy. */
  class LocHeap<T(==)> {
    var mTree: LocHeapNode?<T>

    ghost predicate Valid()
      reads this, mTree, if mTree == null then {} else mTree.Repr
    {
      mTree != null ==> this !in mTree.Repr && mTree.Valid()
    }

    /** The nodes of the tree. */
    ghost function Nodes(): set<object>
      reads this, mTree
    {
      if mTree == null then {} else mTree.Repr
    }

    ghost function Model(): Tree<T>
      reads this, mTree
    {
      ModelOf(mTree)
    }

    constructor ()
      ensures Valid() && Model() == Empty && Nodes() == {}
    {
      mTree := null;
    }

    method Push(out: Ranking<T>, x: T)
      requires Valid()
      modifies this, Nodes()
      ensures Valid() && fresh(Nodes() - old(Nodes()))
      ensures (Model(), None) == Apply(out, old(Model()), PushOp(x))
    {
      var heapNode := new LocHeapNode(x);
      if mTree == null {
        mTree := heapNode;
      } else {
        mTree.Push(out, heapNode);
      }
    }

    method Peek() returns (top: Option<T>)
      requires Valid()
      ensures top == if Model().Empty? then None else Some(Model().data)
    {
      top := None;
      if mTree != null {
        top := Some(mTree.mData);
      }
    }

    /** The node has left the heap, is without children and can be deleted; none has joined. */
    ghost predicate Detached(node: LocHeapNode<T>, before: set<object>)
      reads this, mTree, node
    {
      node in before && node !in Nodes() && Nodes() <= before && node.IsLeaf()
    }

    method Pop(out: Ranking<T>) returns (data: Option<T>, ghost deleted: LocHeapNode?<T>)
      requires Valid()
      modifies this, Nodes()
      ensures Valid()
      ensures if deleted == null then data == None && Nodes() == old(Nodes()) else Detached(deleted, old(Nodes()))
      ensures (Model(), data) == Apply(out, old(Model()), PopOp)
    {
      data, deleted := None, null;
      if mTree != null {
        var rest, heapNode := LocHeapNode.Pop(out, mTree);
        mTree := rest;
        data, deleted := Some(heapNode.mData), heapNode;
      }
    }

    method Remove(out: Ranking<T>, x: T) returns (data: Option<T>, ghost deleted: LocHeapNode?<T>)
      requires Valid()
      modifies this, Nodes()
      ensures Valid()
      ensures if deleted == null then data == None && Nodes() == old(Nodes()) else Detached(deleted, old(Nodes()))
      ensures (Model(), data) == Apply(out, old(Model()), RemoveOp(x))
    {
      data, deleted := None, null;
      if mTree != null {
        var rest, heapNode := LocHeapNode.Remove(out, mTree, x);
        mTree := rest;
        if heapNode != null {
          data, deleted := Some(heapNode.mData), heapNode;
        }
      }
    }
  }
}
