/**
 * Day 3, the recogniser: a character classifier and a prefix tree whose
 * nodes stand for character categories, each allowed to repeat up to a bound.
 * The tree spells `mul(D,D)`, `do()` and `don't()`, where `D` is one to three
 * digits. The tree's nodes live in a table indexed from the root at 0; a node
 * lists the table indices of its children.
 */
module Day3Automaton {
  import opened Wrappers
  import opened CharConv

  /** The categories of characters; `Invalid` is every character outside the phrases. */
  datatype States =
    | Invalid
    | LetterM | LetterU | LetterL | LetterD | LetterO | LetterN | Quote | LetterT
    | Digit | Comma | OpenParenthesis | CloseParenthesis

  /** The characters that have a category of their own, in no particular order. */
  const Letters: string := "muldont,()'"

  /** The character of a category that stands for exactly one character. */
  function LetterOf(s: States): char
    requires s != Invalid && s != Digit
  {
    match s
      case LetterM => 'm'
      case LetterU => 'u'
      case LetterL => 'l'
      case LetterD => 'd'
      case LetterO => 'o'
      case LetterN => 'n'
      case Quote => '\''
      case LetterT => 't'
      case Comma => ','
      case OpenParenthesis => '('
      case CloseParenthesis => ')'
  }

  /**
   * `CharToState`: the eleven phrase characters map to their own categories,
   * decimal digits to `Digit`, and every other character to `Invalid`.
   */
  function CharToState(c: char): (s: States)
    ensures s == Digit <==> IsDigit(c)
    ensures s == Invalid <==> !IsDigit(c) && c !in Letters
    ensures s != Invalid && s != Digit ==> c == LetterOf(s)
  {
    match c
      case 'm' => LetterM
      case 'u' => LetterU
      case 'l' => LetterL
      case 'd' => LetterD
      case 'o' => LetterO
      case 'n' => LetterN
      case 't' => LetterT
      case ',' => Comma
      case '(' => OpenParenthesis
      case ')' => CloseParenthesis
      case '\'' => Quote
      case _ => if IsDigit(c) then Digit else Invalid
  }

  // ---------------------------------------------------------------------------
  // The tree
  // ---------------------------------------------------------------------------

  /**
   * `StateMachine::Node`: its category, how many consecutive characters of
   * that category it takes, and the table indices of its children in order.
   */
  datatype Node = Node(state: States, maxOccurrences: int, nextNodes: seq<nat>)

  const Root: nat := 0

  /** The default-constructed root node. */
  const RootNode: Node := Node(Invalid, 1, [])

  /**
   * A table with a root whose links only go forward, so following them always
   * ends: every child index lies after its parent and inside the table. Every
   * node takes at least one character.
   */
  predicate WellFormed(nodes: seq<Node>) {
    |nodes| >= 1
    && (forall n :: 0 <= n < |nodes| ==> nodes[n].maxOccurrences >= 1)
    && (forall n, k :: 0 <= n < |nodes| && 0 <= k < |nodes[n].nextNodes| ==>
          n < nodes[n].nextNodes[k] < |nodes|)
  }

  /** The number of nodes of the tree: the root and seventeen more. */
  const TreeSize: nat := 18

  /**
   * The table after `Node::AddNextNode`: a fresh childless node goes at the
   * end and becomes the last child of `parent`.
   */
  function WithNextNode(nodes: seq<Node>, parent: nat, state: States, maxOccurrences: int): (r: seq<Node>)
    requires parent < |nodes|
    ensures |r| == |nodes| + 1
  {
    nodes[parent := nodes[parent].(nextNodes := nodes[parent].nextNodes + [|nodes|])] + [Node(state, maxOccurrences, [])]
  }

  /**
   * Adding a node keeps the table a forward-linked tree and leaves every
   * other node as it was; the new node is childless and has the new index.
   */
  lemma WithNextNodeKeepsTree(nodes: seq<Node>, parent: nat, state: States, maxOccurrences: int)
    requires WellFormed(nodes) && parent < |nodes| && maxOccurrences >= 1
    ensures var r := WithNextNode(nodes, parent, state, maxOccurrences);
      WellFormed(r) && |r| == |nodes| + 1 && r[|nodes|] == Node(state, maxOccurrences, [])
      && r[parent].nextNodes == nodes[parent].nextNodes + [|nodes|]
      && forall n :: 0 <= n < |nodes| && n != parent ==> r[n] == nodes[n]
  {
    var r := WithNextNode(nodes, parent, state, maxOccurrences);
    assert forall n, k :: 0 <= n < |nodes| && 0 <= k < |nodes[n].nextNodes| ==>
      r[n].nextNodes[k] == nodes[n].nextNodes[k];
  }

  /**
   * A chain of `AddNextNode` calls, one per link (category and bound): the
   * first adds its node under `parent`, and each later one under the node
   * the call before it returned.
   */
  function AddChain(nodes: seq<Node>, parent: nat, links: seq<(States, int)>): (r: seq<Node>)
    requires parent < |nodes|
    ensures |r| == |nodes| + |links|
    decreases |links|
  {
    if links == [] then nodes
    else AddChain(WithNextNode(nodes, parent, links[0].0, links[0].1), |nodes|, links[1..])
  }

  /**
   * `r` is `nodes` after a chain: `parent` has gained the chain's first node
   * as its last child, the other old nodes are unchanged, and the new nodes
   * follow in order, each the only child of the one before it, the last one
   * childless.
   */
  predicate ChainAdded(nodes: seq<Node>, parent: nat, links: seq<(States, int)>, r: seq<Node>)
    requires parent < |nodes|
  {
    |r| == |nodes| + |links|
    && (forall n :: 0 <= n < |nodes| && n != parent ==> r[n] == nodes[n])
    && r[parent] == nodes[parent].(nextNodes := nodes[parent].nextNodes + [|nodes|])
    && forall n :: |nodes| <= n < |r| ==>
         r[n] == Node(links[n - |nodes|].0, links[n - |nodes|].1, if n + 1 < |r| then [n + 1] else [])
  }

  /** A non-empty chain of `AddNextNode` calls adds its nodes as `ChainAdded` says. */
  lemma {:induction false} AddChainIs(nodes: seq<Node>, parent: nat, links: seq<(States, int)>)
    requires parent < |nodes| && links != []
    ensures ChainAdded(nodes, parent, links, AddChain(nodes, parent, links))
    decreases |links|
  {
    var t := WithNextNode(nodes, parent, links[0].0, links[0].1);
    var r := AddChain(nodes, parent, links);
    if |links| > 1 {
      var rest := links[1..];
      AddChainIs(t, |nodes|, rest);
      assert [] + [|nodes| + 1] == [|nodes| + 1];
      forall n | |t| <= n < |r|
        ensures r[n] == Node(links[n - |nodes|].0, links[n - |nodes|].1, if n + 1 < |r| then [n + 1] else [])
      {
        assert rest[n - |t|] == links[n - |nodes|];
      }
    }
  }

  /** The chains of `AddNextNode` calls of the constructor, in order. */
  const MulChain: seq<(States, int)> :=
    [(LetterM, 1), (LetterU, 1), (LetterL, 1), (OpenParenthesis, 1), (Digit, 3), (Comma, 1), (Digit, 3), (CloseParenthesis, 1)]
  const DoChain: seq<(States, int)> := [(LetterD, 1), (LetterO, 1)]
  const DoCallChain: seq<(States, int)> := [(OpenParenthesis, 1), (CloseParenthesis, 1)]
  const DontChain: seq<(States, int)> := [(LetterN, 1), (Quote, 1), (LetterT, 1), (OpenParenthesis, 1), (CloseParenthesis, 1)]

  /**
   * The table after the constructor's four chains: `mul(D,D)` and `do` under
   * the root, then `()` and `n't()` under the `o` node (index 10) that the
   * second chain returned.
   */
  function BuiltTree(): seq<Node> {
    var t := AddChain([RootNode], Root, MulChain);
    var t := AddChain(t, Root, DoChain);
    var t := AddChain(t, 10, DoCallChain);
    AddChain(t, 10, DontChain)
  }

  /**
   * Node `n` of the table the constructor of `StateMachine` builds: the
   * root, then the `mul(D,D)` branch (1 to 8, the digit nodes 5 and 7 taking
   * up to three characters), then `d` and `o` (9, 10), `do()` (11, 12) and
   * `don't()` (13 to 17), in the order the nodes are added.
   */
  function TreeNode(n: nat): Node
    requires n < TreeSize
  {
    match n
      case 0 => RootNode.(nextNodes := [1, 9])
      case 1 => Node(LetterM, 1, [2])
      case 2 => Node(LetterU, 1, [3])
      case 3 => Node(LetterL, 1, [4])
      case 4 => Node(OpenParenthesis, 1, [5])
      case 5 => Node(Digit, 3, [6])
      case 6 => Node(Comma, 1, [7])
      case 7 => Node(Digit, 3, [8])
      case 8 => Node(CloseParenthesis, 1, [])
      case 9 => Node(LetterD, 1, [10])
      case 10 => Node(LetterO, 1, [11, 13])
      case 11 => Node(OpenParenthesis, 1, [12])
      case 12 => Node(CloseParenthesis, 1, [])
      case 13 => Node(LetterN, 1, [14])
      case 14 => Node(Quote, 1, [15])
      case 15 => Node(LetterT, 1, [16])
      case 16 => Node(OpenParenthesis, 1, [17])
      case 17 => Node(CloseParenthesis, 1, [])
  }

  /** The table the constructor builds: node `n` is `TreeNode(n)`. */
  predicate IsTree(t: seq<Node>) {
    |t| == TreeSize && forall n :: 0 <= n < TreeSize ==> t[n] == TreeNode(n)
  }

  /** The constructor's calls build the table, chain by chain. */
  lemma BuiltTreeIsTree()
    ensures IsTree(BuiltTree())
  {
    var mul := AddChain([RootNode], Root, MulChain);
    AddChainIs([RootNode], Root, MulChain);
    MulChainBuilt(mul);
    var d := AddChain(mul, Root, DoChain);
    AddChainIs(mul, Root, DoChain);
    DoChainBuilt(mul, d);
    var doCall := AddChain(d, 10, DoCallChain);
    AddChainIs(d, 10, DoCallChain);
    DoCallChainBuilt(d, doCall);
    var t := AddChain(doCall, 10, DontChain);
    AddChainIs(doCall, 10, DontChain);
    DontChainBuilt(doCall, t);
  }

  /** The first chain spells `mul(D,D)` under the root. */
  lemma MulChainBuilt(r: seq<Node>)
    requires ChainAdded([RootNode], Root, MulChain, r)
    ensures |r| == 9 && r[0] == RootNode.(nextNodes := [1]) && forall n :: 1 <= n < 9 ==> r[n] == TreeNode(n)
  {
    assert [] + [1] == [1];
  }

  /** The second chain adds `d` under the root and `o` under it. */
  lemma DoChainBuilt(t: seq<Node>, r: seq<Node>)
    requires |t| == 9 && t[0] == RootNode.(nextNodes := [1]) && forall n :: 1 <= n < 9 ==> t[n] == TreeNode(n)
    requires ChainAdded(t, Root, DoChain, r)
    ensures |r| == 11 && r[10] == Node(LetterO, 1, []) && forall n :: 0 <= n < 10 ==> r[n] == TreeNode(n)
  {
    assert [1] + [9] == [1, 9];
  }

  /** The third chain adds `()` under `o`. */
  lemma DoCallChainBuilt(t: seq<Node>, r: seq<Node>)
    requires |t| == 11 && t[10] == Node(LetterO, 1, []) && forall n :: 0 <= n < 10 ==> t[n] == TreeNode(n)
    requires ChainAdded(t, 10, DoCallChain, r)
    ensures |r| == 13 && r[10] == Node(LetterO, 1, [11])
      && forall n :: 0 <= n < 13 && n != 10 ==> r[n] == TreeNode(n)
  {
    assert [] + [11] == [11];
  }

  /** The last chain adds `n't()` under `o`, which completes the table. */
  lemma DontChainBuilt(t: seq<Node>, r: seq<Node>)
    requires |t| == 13 && t[10] == Node(LetterO, 1, [11])
    requires forall n :: 0 <= n < 13 && n != 10 ==> t[n] == TreeNode(n)
    requires ChainAdded(t, 10, DontChain, r)
    ensures IsTree(r)
  {
    assert [11] + [13] == [11, 13];
  }

  // ---------------------------------------------------------------------------
  // Paths of the tree
  // ---------------------------------------------------------------------------

  /** `p` follows parent-to-child links from the root down to a childless node. */
  predicate IsRootLeafPath(nodes: seq<Node>, p: seq<nat>) {
    |p| >= 1 && p[0] == Root
    && (forall k :: 0 <= k < |p| ==> p[k] < |nodes|)
    && (forall k :: 0 <= k < |p| - 1 ==> p[k + 1] in nodes[p[k]].nextNodes)
    && nodes[p[|p| - 1]].nextNodes == []
  }

  const MulPath: seq<nat> := [0, 1, 2, 3, 4, 5, 6, 7, 8]
  const DoPath: seq<nat> := [0, 9, 10, 11, 12]
  const DontPath: seq<nat> := [0, 9, 10, 13, 14, 15, 16, 17]

  /** The categories along a path, leaving out the root. */
  function Labels(nodes: seq<Node>, p: seq<nat>): (r: seq<States>)
    requires forall k :: 0 <= k < |p| ==> p[k] < |nodes|
    ensures |p| >= 1 ==> |r| == |p| - 1
  {
    if |p| <= 1 then [] else seq(|p| - 1, k requires 0 <= k < |p| - 1 => nodes[p[k + 1]].state)
  }

  /** The `mul(D,D)` branch goes from the root to a leaf. */
  lemma MulPathIsPath(t: seq<Node>)
    requires IsTree(t)
    ensures IsRootLeafPath(t, MulPath)
  {
    forall k | 0 <= k < |MulPath| - 1
      ensures MulPath[k + 1] in t[MulPath[k]].nextNodes
    {
      assert MulPath[k] == k && MulPath[k + 1] == k + 1;
    }
  }

  /** The `do()` branch goes from the root to a leaf. */
  lemma DoPathIsPath(t: seq<Node>)
    requires IsTree(t)
    ensures IsRootLeafPath(t, DoPath)
  {
  }

  /** The `don't()` branch goes from the root to a leaf. */
  lemma DontPathIsPath(t: seq<Node>)
    requires IsTree(t)
    ensures IsRootLeafPath(t, DontPath)
  {
  }

  /**
   * The tree has no other root-to-leaf path: the root's children start the
   * `mul` and the `d` branches, and below `o` the branch splits into `do()`
   * and `don't()`; every other node has a single child.
   */
  lemma OnlyThreePaths(t: seq<Node>, p: seq<nat>)
    requires IsTree(t) && IsRootLeafPath(t, p)
    ensures p == MulPath || p == DoPath || p == DontPath
  {
    assert |p| >= 2;
    assert p[1] in t[0].nextNodes;
    if p[1] == 1 {
      FollowMul(t, p);
    } else {
      assert |p| >= 3 && p[2] in t[9].nextNodes;
      assert |p| >= 4 && p[3] in t[10].nextNodes;
      if p[3] == 11 {
        FollowDo(t, p);
      } else {
        FollowDont(t, p);
      }
    }
  }

  /** A path that enters the `m` node can only spell `mul(D,D)`. */
  lemma FollowMul(t: seq<Node>, p: seq<nat>)
    requires IsTree(t) && IsRootLeafPath(t, p) && |p| >= 2 && p[1] == 1
    ensures p == MulPath
  {
    assert p[..2] == MulPath[..2];
    FollowChain(t, p, MulPath, 1);
  }

  /** A path that goes from `o` to `(` can only spell `do()`. */
  lemma FollowDo(t: seq<Node>, p: seq<nat>)
    requires IsTree(t) && IsRootLeafPath(t, p) && |p| >= 4 && p[1] == 9 && p[2] == 10 && p[3] == 11
    ensures p == DoPath
  {
    assert p[..4] == DoPath[..4];
    FollowChain(t, p, DoPath, 3);
  }

  /** A path that goes from `o` to `n` can only spell `don't()`. */
  lemma FollowDont(t: seq<Node>, p: seq<nat>)
    requires IsTree(t) && IsRootLeafPath(t, p) && |p| >= 4 && p[1] == 9 && p[2] == 10 && p[3] == 13
    ensures p == DontPath
  {
    assert p[..4] == DontPath[..4];
    FollowChain(t, p, DontPath, 3);
  }

  /** What the three paths spell; `do()` and `don't()` share the nodes of `d` and `o`. */
  lemma TreeLabels(t: seq<Node>)
    requires IsTree(t)
    ensures Labels(t, MulPath) == [LetterM, LetterU, LetterL, OpenParenthesis, Digit, Comma, Digit, CloseParenthesis]
    ensures Labels(t, DoPath) == [LetterD, LetterO, OpenParenthesis, CloseParenthesis]
    ensures Labels(t, DontPath) == [LetterD, LetterO, LetterN, Quote, LetterT, OpenParenthesis, CloseParenthesis]
    ensures DoPath[..3] == DontPath[..3]
  {
  }

  /**
   * Below a node of `chain` that has a single child, a path can only follow
   * `chain`, and it stops where `chain` does.
   */
  lemma {:induction false} FollowChain(nodes: seq<Node>, p: seq<nat>, chain: seq<nat>, k: nat)
    requires IsRootLeafPath(nodes, p) && 1 <= k < |chain| && k < |p|
    requires p[..k + 1] == chain[..k + 1]
    requires forall j :: k <= j < |chain| ==> chain[j] < |nodes|
    requires forall j :: k <= j < |chain| - 1 ==> nodes[chain[j]].nextNodes == [chain[j + 1]]
    requires nodes[chain[|chain| - 1]].nextNodes == []
    ensures p == chain
    decreases |chain| - k
  {
    assert p[k] == chain[k];
    if k == |chain| - 1 {
      assert p == p[..k + 1];
    } else {
      assert nodes[p[k]].nextNodes == [chain[k + 1]];
      assert k + 1 < |p|;
      assert p[k + 1] in nodes[p[k]].nextNodes;
      assert p[..k + 2] == p[..k + 1] + [p[k + 1]];
      FollowChain(nodes, p, chain, k + 1);
    }
  }

  /** Only the two digit nodes take more than one character: three each. */
  lemma TreeBounds(t: seq<Node>)
    requires IsTree(t)
    ensures WellFormed(t) && t[Root].state == Invalid
    ensures forall n :: 0 <= n < |t| ==> t[n].maxOccurrences == (if n == 5 || n == 7 then 3 else 1)
    ensures forall n :: 0 <= n < |t| && t[n].maxOccurrences > 1 ==> t[n].state == Digit
  {
  }

  // ---------------------------------------------------------------------------
  // Accepting a character
  // ---------------------------------------------------------------------------

  /** Where the machine stands: `m_currentNode` and `m_nbTimesCurrentNode`. */
  datatype Cursor = Cursor(node: nat, count: int)

  /**
   * The cursor is on a node of the table: the root with count 0, or another
   * node with a count between 1 and that node's bound.
   */
  predicate CursorOk(nodes: seq<Node>, cursor: Cursor) {
    cursor.node < |nodes|
    && if cursor.node == Root then cursor.count == 0
       else 1 <= cursor.count <= nodes[cursor.node].maxOccurrences
  }

  /** The first of `children` from index `from` on whose category is `s`, searched in order. */
  function FindChild(nodes: seq<Node>, children: seq<nat>, s: States, from: nat): (r: Option<nat>)
    requires from <= |children| && forall k :: 0 <= k < |children| ==> children[k] < |nodes|
    ensures r.Some? ==> r.value in children && nodes[r.value].state == s
    decreases |children| - from
  {
    if from == |children| then None
    else if nodes[children[from]].state == s then Some(children[from])
    else FindChild(nodes, children, s, from + 1)
  }

  /** The search reports no child exactly when none of the children from `from` on has category `s`. */
  lemma {:induction false} FindChildNone(nodes: seq<Node>, children: seq<nat>, s: States, from: nat)
    requires from <= |children| && forall k :: 0 <= k < |children| ==> children[k] < |nodes|
    ensures FindChild(nodes, children, s, from).None?
      <==> forall k :: from <= k < |children| ==> nodes[children[k]].state != s
    decreases |children| - from
  {
    if from < |children| {
      FindChildNone(nodes, children, s, from + 1);
    }
  }

  /**
   * The children of node `n` lie after it in the table and take at least one
   * character each.
   */
  predicate Linked(nodes: seq<Node>, n: nat)
    requires n < |nodes|
  {
    forall k :: 0 <= k < |nodes[n].nextNodes| ==>
      n < nodes[n].nextNodes[k] < |nodes| && nodes[nodes[n].nextNodes[k]].maxOccurrences >= 1
  }

  /** In a forward-linked tree every node is linked. */
  lemma WellFormedIsLinked(nodes: seq<Node>, n: nat)
    requires WellFormed(nodes) && n < |nodes|
    ensures Linked(nodes, n)
  {
  }

  /** What one call of `Accept` returns and where it leaves the cursor. */
  datatype Outcome = Outcome(accepted: bool, endState: bool, cursor: Cursor)

  /**
   * `StateMachine::Accept` as a function of the cursor. The category `s` is
   * taken in place while the node's bound allows; otherwise by the first
   * child of that category, which ends a phrase (back to the root, the end
   * flag set) when it is a leaf. Any other category, `Invalid` among them,
   * is refused and sends the cursor back to the root; it is not tried again
   * from the root.
   */
  function Step(nodes: seq<Node>, cursor: Cursor, s: States, endState: bool): (o: Outcome)
    requires CursorOk(nodes, cursor) && Linked(nodes, cursor.node)
    ensures CursorOk(nodes, o.cursor)
    ensures s == Invalid ==> !o.accepted
    ensures !o.accepted ==> o.cursor == Cursor(Root, 0) && o.endState == endState
    ensures o.endState != endState ==> o.endState && o.accepted && o.cursor == Cursor(Root, 0)
    ensures o.accepted && o.cursor.node == cursor.node && cursor.node != Root ==>
      s == nodes[cursor.node].state && o.cursor.count == cursor.count + 1
  {
    var node := nodes[cursor.node];
    if s == Invalid then Outcome(false, endState, Cursor(Root, 0))
    else if cursor.node != Root && s == node.state && cursor.count + 1 <= node.maxOccurrences then
      Outcome(true, endState, Cursor(cursor.node, cursor.count + 1))
    else
      var child := FindChild(nodes, node.nextNodes, s, 0);
      if child.None? then Outcome(false, endState, Cursor(Root, 0))
      else if nodes[child.value].nextNodes == [] then Outcome(true, true, Cursor(Root, 0))
      else Outcome(true, endState, Cursor(child.value, 1))
  }

  /**
   * `StateMachine`: the tree built by the constructor and the cursor that
   * `Accept` moves over it.
   */
  class StateMachine {
    const nodes: seq<Node>
    var currentNode: nat
    var nbTimesCurrentNode: int

    predicate Valid()
      reads this
    {
      WellFormed(nodes) && CursorOk(nodes, Cursor(currentNode, nbTimesCurrentNode))
    }

    /** Builds the three branches from the root, then puts the cursor on the root. */
    constructor ()
      ensures IsTree(nodes) && Valid() && currentNode == Root && nbTimesCurrentNode == 0
    {
      nodes := BuiltTree();
      currentNode := Root;
      nbTimesCurrentNode := 0;
      BuiltTreeIsTree();
      TreeBounds(BuiltTree());
    }

    /**
     * `Accept(inState, outEndState)`: `endState` is the new value of the
     * reference argument. The `++` of the condition is kept: the count goes
     * up whenever the category is the current node's, and every path that
     * does not accept right there overwrites it.
     */
    method Accept(inState: States, outEndState: bool) returns (accepted: bool, endState: bool)
      requires Valid()
      modifies this
      ensures Valid()
      ensures Outcome(accepted, endState, Cursor(currentNode, nbTimesCurrentNode))
        == Step(nodes, Cursor(old(currentNode), old(nbTimesCurrentNode)), inState, outEndState)
    {
      endState := outEndState;
      var current := nodes[currentNode];
      if inState != Invalid {
        if currentNode != Root && inState == current.state {
          nbTimesCurrentNode := nbTimesCurrentNode + 1;
          if nbTimesCurrentNode <= current.maxOccurrences {
            return true, endState;
          }
        }
        var nextNode := FirstChild(nodes, current.nextNodes, inState);
        if nextNode.Some? {
          if nodes[nextNode.value].nextNodes == [] {
            endState := true;
            currentNode, nbTimesCurrentNode := Root, 0;
          } else {
            currentNode, nbTimesCurrentNode := nextNode.value, 1;
          }
          return true, endState;
        }
      }
      currentNode, nbTimesCurrentNode := Root, 0;
      return false, endState;
    }
  }

  /** The loop of `Accept` over `m_nextNodes`: the first child of category `s`. */
  method FirstChild(nodes: seq<Node>, children: seq<nat>, s: States) returns (r: Option<nat>)
    requires forall k :: 0 <= k < |children| ==> children[k] < |nodes|
    ensures r == FindChild(nodes, children, s, 0)
  {
    var i := 0;
    while i < |children|
      invariant 0 <= i <= |children|
      invariant FindChild(nodes, children, s, i) == FindChild(nodes, children, s, 0)
    {
      var nextNode := children[i];
      if nodes[nextNode].state == s {
        return Some(nextNode);
      }
      i := i + 1;
    }
    return None;
  }
}
