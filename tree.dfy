/**
 * The component tree under a control bar, as far as hover tracking sees it:
 * containers (which hold further components), spacers, and every other
 * component ("real" controls such as buttons and sliders).
 */
module ComponentTree {

  /** A UI component. `id` stands for the identity of the component object. */
  datatype Component =
    | Container(id: nat, components: seq<Component>)
    | Spacer(id: nat)
    | Control(id: nat)

  /**
   * Pre-order walk of a component and, when it is a container, of all its
   * descendants: every node visited once, the node before its children.
   */
  function Traverse(c: Component): (r: seq<Component>)
    ensures |r| >= 1 && r[0] == c
    decreases c, 1
  {
    match c
    case Container(_, cs) => [c] + TraverseAll(cs)
    case _ => [c]
  }

  /** The walks of a list of sibling components, one after the other. */
  function TraverseAll(cs: seq<Component>): (r: seq<Component>)
    ensures |r| >= |cs|
    decreases cs, 0
  {
    if cs == [] then [] else Traverse(cs[0]) + TraverseAll(cs[1..])
  }

  /** Whether the hover status of a visited component is tracked: containers and spacers are skipped. */
  predicate IsTracked(c: Component) {
    !(c.Container? || c.Spacer?)
  }

  /** The ids of the visited components whose hover event gets a subscription, in visiting order. */
  function Subscribed(nodes: seq<Component>): seq<nat> {
    if nodes == [] then []
    else (if IsTracked(nodes[0]) then [nodes[0].id] else []) + Subscribed(nodes[1..])
  }

  /** Reference definition: the controls of a tree read off its structure, without a walk. */
  function Controls(c: Component): seq<nat>
    decreases c, 1
  {
    match c
    case Container(_, cs) => ControlsAll(cs)
    case Spacer(_) => []
    case Control(id) => [id]
  }

  function ControlsAll(cs: seq<Component>): seq<nat>
    decreases cs, 0
  {
    if cs == [] then [] else Controls(cs[0]) + ControlsAll(cs[1..])
  }

  /** No two visited nodes share an identity: every component object appears once in the tree. */
  ghost predicate DistinctIds(nodes: seq<Component>) {
    forall i, j :: 0 <= i < j < |nodes| ==> nodes[i].id != nodes[j].id
  }

  /** Filtering a walk distributes over concatenation. */
  lemma {:induction false} SubscribedAppend(a: seq<Component>, b: seq<Component>)
    ensures Subscribed(a + b) == Subscribed(a) + Subscribed(b)
  {
    if a == [] {
      assert a + b == b;
    } else {
      assert (a + b)[1..] == a[1..] + b;
      SubscribedAppend(a[1..], b);
    }
  }

  /**
   * Walking the tree and skipping containers and spacers yields exactly the
   * tree's controls, in left-to-right order.
   */
  lemma {:induction false} WalkFindsControls(c: Component)
    ensures Subscribed(Traverse(c)) == Controls(c)
    decreases c, 1
  {
    match c
    case Container(_, cs) =>
      SubscribedAppend([c], TraverseAll(cs));
      WalkFindsControlsAll(cs);
    case Spacer(_) =>
    case Control(_) =>
  }

  lemma {:induction false} WalkFindsControlsAll(cs: seq<Component>)
    ensures Subscribed(TraverseAll(cs)) == ControlsAll(cs)
    decreases cs, 0
  {
    if cs != [] {
      SubscribedAppend(Traverse(cs[0]), TraverseAll(cs[1..]));
      WalkFindsControls(cs[0]);
      WalkFindsControlsAll(cs[1..]);
    }
  }

  /** An id that no visited node carries has no subscription. */
  lemma {:induction false} AbsentIdNotSubscribed(nodes: seq<Component>, x: nat)
    requires forall i :: 0 <= i < |nodes| ==> nodes[i].id != x
    ensures multiset(Subscribed(nodes))[x] == 0
  {
    if nodes != [] {
      AbsentIdNotSubscribed(nodes[1..], x);
    }
  }

  /**
   * When every component object appears once, a visited control is subscribed
   * exactly once and a visited container or spacer not at all.
   */
  lemma {:induction false} SubscriptionCount(nodes: seq<Component>, k: nat)
    requires DistinctIds(nodes)
    requires k < |nodes|
    ensures multiset(Subscribed(nodes))[nodes[k].id] == if IsTracked(nodes[k]) then 1 else 0
  {
    var rest := nodes[1..];
    assert DistinctIds(rest) by {
      forall i, j | 0 <= i < j < |rest| ensures rest[i].id != rest[j].id {
        assert rest[i] == nodes[i + 1] && rest[j] == nodes[j + 1];
      }
    }
    var head: seq<nat> := if IsTracked(nodes[0]) then [nodes[0].id] else [];
    assert Subscribed(nodes) == head + Subscribed(rest);
    if k == 0 {
      forall i | 0 <= i < |rest| ensures rest[i].id != nodes[0].id {
        assert rest[i] == nodes[i + 1];
      }
      AbsentIdNotSubscribed(rest, nodes[0].id);
    } else {
      assert rest[k - 1] == nodes[k];
      SubscriptionCount(rest, k - 1);
      assert nodes[0].id != nodes[k].id;
    }
  }

  /** Visiting one more node adds its subscription, if it gets one. */
  lemma SubscribedSnoc(a: seq<Component>, c: Component)
    ensures multiset(Subscribed(a + [c]))
      == multiset(Subscribed(a)) + if IsTracked(c) then multiset{c.id} else multiset{}
  {
    SubscribedAppend(a, [c]);
    assert [c][1..] == [];
  }

  /**
   * The visit callback of `configure`, applied to every node of a walk in turn:
   * a subscription for each node that is neither a container nor a spacer.
   */
  method CollectSubscriptions(nodes: seq<Component>) returns (subs: multiset<nat>)
    ensures subs == multiset(Subscribed(nodes))
  {
    subs := multiset{};
    var i := 0;
    while i < |nodes|
      invariant 0 <= i <= |nodes|
      invariant subs == multiset(Subscribed(nodes[..i]))
    {
      var c := nodes[i];
      assert nodes[..i + 1] == nodes[..i] + [c];
      SubscribedSnoc(nodes[..i], c);
      if IsTracked(c) {
        subs := subs + multiset{c.id};
      }
      i := i + 1;
    }
    assert nodes[..i] == nodes;
  }
}
